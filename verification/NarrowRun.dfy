/**
  One run of the pipeline with a function unit that holds two instructions and takes one per cycle:
  two independent instructions reach it together, one leaves, and the other blocks commit for good.
 */
module NarrowRun {
  import opened RenameCore
  import opened RenameMachine
  import opened Pipeline
  import opened PipelineProgress
  import opened FuSchedule
  import opened PacedPipeline

  const CFG := Config(2, 3)
  const PARAMS := Params(CFG, 2, 2, 2, [LaneParams({0}, 2, 2)])
  const WIDTHS := [Widths(2, 1)]

  const NOP := Inst(0, 0, 0, 0, 0)
  const NOPS := [Renamed(NOP, 0, 0, 0, 0), Renamed(NOP, 0, 0, 0, 0)]

  ghost predicate Reaches(sem: Semantics, acts: seq<Action>, x: PacedPipe) {
    PacedDriven(PARAMS, sem, WIDTHS, acts, x)
  }

  lemma {:induction false} Go(sem: Semantics, acts: seq<Action>, x: PacedPipe, a: Action) returns (acts': seq<Action>)
    requires Reaches(sem, acts, x) && PacedAllowed(PARAMS, WIDTHS, x, a)
    ensures Reaches(sem, acts', PacedAct(PARAMS, sem, WIDTHS, x, a))
  {
    acts' := acts + [a];
    assert acts'[..|acts|] == acts;
  }

  // The state with these parts and one lane.
  function State(core: Machine, front: Front, disp: Dispatch, rob: Rob, lane: Lane, cast: seq<nat>,
                 budget: nat): PacedPipe {
    PacedPipe(Pipe(core, front, disp, rob, [lane], cast), [budget])
  }

  // Actions inside one unit change its part and nothing else.
  lemma {:induction false} GoFront(sem: Semantics, acts: seq<Action>, x: PacedPipe, fe: FrontEvent, f: Front)
    returns (acts': seq<Action>)
    requires Reaches(sem, acts, x) && FrontEnabled(CFG, x.st.front, fe) && f == FrontNext(CFG, x.st.front, fe)
    ensures Reaches(sem, acts', x.(st := x.st.(front := f)))
  {
    acts' := Go(sem, acts, x, InFront(fe));
  }

  lemma {:induction false} GoDispatch(sem: Semantics, acts: seq<Action>, x: PacedPipe, de: DispatchEvent, d: Dispatch)
    returns (acts': seq<Action>)
    requires Reaches(sem, acts, x) && DispatchEnabled(x.st.core.all, x.st.disp, de)
    requires d == DispatchNext(x.st.core.all, x.st.disp, de)
    ensures Reaches(sem, acts', x.(st := x.st.(disp := d)))
  {
    acts' := Go(sem, acts, x, InDispatch(de));
  }

  lemma {:induction false} GoRob(sem: Semantics, acts: seq<Action>, x: PacedPipe, re: RobEvent, r: Rob)
    returns (acts': seq<Action>)
    requires Reaches(sem, acts, x) && RobEnabled(x.st.rob, re) && r == RobNext(x.st.rob, re)
    ensures Reaches(sem, acts', x.(st := x.st.(rob := r)))
  {
    acts' := Go(sem, acts, x, InRob(re));
  }

  lemma {:induction false} GoLane(sem: Semantics, acts: seq<Action>, x: PacedPipe, le: LaneEvent, l': Lane, b': nat)
    returns (acts': seq<Action>)
    requires Reaches(sem, acts, x) && |x.st.lanes| == |x.budgets| == 1
    requires Leads(x.st.core.all, WIDTHS[0], PaceOf(x, 0), Inside(le), Paced(l', b'))
    ensures Reaches(sem, acts', PacedPipe(x.st.(lanes := [l']), [b']))
  {
    acts' := Go(sem, acts, x, InLane(0, le));
    assert x.st.lanes[0 := l'] == [l'] && x.budgets[0 := b'] == [b'];
  }

  lemma {:induction false} GoTick(sem: Semantics, acts: seq<Action>, x: PacedPipe, l: Lane, y: PacedPipe)
    returns (acts': seq<Action>)
    requires Reaches(sem, acts, x) && x.st.lanes == [l] && x.budgets == [0] && Quiet(x.st)
    requires y == State(x.st.core, x.st.front.(arriving := x.st.front.sent, sent := []),
                        x.st.disp.(arriving := x.st.disp.sent, sent := [], cast := x.st.cast),
                        x.st.rob.(arriving := x.st.rob.sent, sent := [], cast := x.st.cast),
                        LaneTick(l, x.st.cast), [], 0)
    ensures Reaches(sem, acts', y)
  {
    TickIsPaced(PARAMS, WIDTHS, x);
    acts' := Go(sem, acts, x, Tick);
    assert seq(1, _ => 0) == [0];
    assert AfterTick(PARAMS, x.st).lanes == [LaneTick(l, x.st.cast)];
  }

  /* ---------- the states ---------- */

  const IDLE := Lane(2, 0, [], [], [], map[], map[], [], 2, 0, [], [], [], [], [])

  function Core(n: nat): Machine
    requires n <= 2
  {
    Initial(CFG).(all := NOPS[..n], done := [false, false][..n])
  }

  function Opened(): PacedPipe {
    State(Core(0), Front(2, 0, [], [], []), Dispatch(2, 0, [], [], [], {}, []), Rob(2, 0, [], [], [], [], []),
          IDLE, [], 0)
  }

  function Fetched(): PacedPipe {
    var x := Opened();
    x.(st := x.st.(front := Front(0, 0, [], [], [NOP, NOP])))
  }

  function Half(): PacedPipe {
    State(Core(1), Front(0, 1, [], [], [NOP]), Dispatch(1, 0, [0], [], [], {}, []), Rob(1, 0, [0], [], [], [], []),
          IDLE, [], 0)
  }

  function Named(): PacedPipe {
    State(Core(2), Front(0, 2, [], [], []), Dispatch(0, 0, [0, 1], [], [], {}, []), Rob(0, 0, [0, 1], [], [], [], []),
          IDLE, [], 0)
  }

  const BUFFER := [RobEntry(0, false), RobEntry(1, false)]

  function Queue(a: bool, b: bool): seq<Entry<()>> {
    [Entry(0, a, ()), Entry(1, b, ())]
  }

  // Both are in the reorder buffer and in the dispatch queue.
  function Queued(): PacedPipe {
    State(Core(2), Front(2, 0, [], [], []), Dispatch(0, 0, [], [], Queue(false, false), {}, []),
          Rob(0, 0, [], [], BUFFER, [], []), IDLE, [], 0)
  }

  // The front and the reorder buffer rest; the lane works.
  function Working(credit: nat, msg: nat, a: bool, b: bool, lane: Lane, budget: nat): PacedPipe {
    State(Core(2), Front(2, 0, [], [], []), Dispatch(credit, msg, [], [], Queue(a, b), {}, []),
          Rob(0, 0, [], [], BUFFER, [], []), lane, [], budget)
  }

  /* ---------- the run ---------- */

  lemma {:induction false} ToOpened(sem: Semantics) returns (acts: seq<Action>)
    ensures Reaches(sem, acts, Opened())
  {
    var l := StartLane(PARAMS.lanes[0]);
    var x := State(Core(0), Front(0, 2, [], [], []), Dispatch(0, 2, [], [], [], {}, []),
                   Rob(0, 2, [], [], [], [], []), l, [], 0);
    assert PacedPipe(Start(PARAMS), seq(1, _ => 0)) == x by {
      assert Start(PARAMS).lanes == [l] && seq(1, _ => 0) == [0];
    }
    assert Reaches(sem, [], x);
    acts := GoFront(sem, [], x, FetchCredit, Front(2, 0, [], [], []));
    x := x.(st := x.st.(front := Front(2, 0, [], [], [])));
    acts := GoDispatch(sem, acts, x, DispatchCredit, Dispatch(2, 0, [], [], [], {}, []));
    x := x.(st := x.st.(disp := Dispatch(2, 0, [], [], [], {}, [])));
    acts := GoRob(sem, acts, x, RobCredit, Rob(2, 0, [], [], [], [], []));
    x := x.(st := x.st.(rob := Rob(2, 0, [], [], [], [], [])));
    acts := GoLane(sem, acts, x, TakeCredit, l.(credit := 2, creditMsg := 0), 0);
    x := PacedPipe(x.st.(lanes := [l.(credit := 2, creditMsg := 0)]), [0]);
    acts := GoLane(sem, acts, x, TakeFuCredit, IDLE, 0);
  }

  lemma {:induction false} ToFetched(sem: Semantics) returns (acts: seq<Action>)
    ensures Reaches(sem, acts, Fetched())
  {
    acts := ToOpened(sem);
    var x := Opened();
    acts := GoFront(sem, acts, x, Fetch(NOP), Front(1, 0, [NOP], [], []));
    x := x.(st := x.st.(front := Front(1, 0, [NOP], [], [])));
    acts := GoFront(sem, acts, x, Fetch(NOP), Front(0, 0, [NOP, NOP], [], []));
    x := x.(st := x.st.(front := Front(0, 0, [NOP, NOP], [], [])));
    var y := x.(st := x.st.(front := Front(0, 0, [], [NOP, NOP], [])));
    acts := GoTick(sem, acts, x, IDLE, y);
    acts := GoFront(sem, acts, y, FetchArrive, Front(0, 0, [], [NOP], [NOP]));
    x := x.(st := x.st.(front := Front(0, 0, [], [NOP], [NOP])));
    acts := GoFront(sem, acts, x, FetchArrive, Front(0, 0, [], [], [NOP, NOP]));
  }

  lemma {:induction false} GoRename(sem: Semantics, acts: seq<Action>, x: PacedPipe, n: nat, f: Front, d: Dispatch,
                                    r: Rob)
    returns (acts': seq<Action>)
    requires Reaches(sem, acts, x) && n < 2 && x.st.core == Core(n)
    requires x.st.front.queue != [] && x.st.front.queue[0] == NOP
    requires x.st.disp.credit > 0 && x.st.rob.credit > 0
    requires f == x.st.front.(queue := x.st.front.queue[1..], msg := x.st.front.msg + 1)
    requires d == x.st.disp.(credit := x.st.disp.credit - 1, sent := x.st.disp.sent + [n])
    requires r == x.st.rob.(credit := x.st.rob.credit - 1, sent := x.st.rob.sent + [n])
    ensures Reaches(sem, acts', x.(st := x.st.(core := Core(n + 1), front := f, disp := d, rob := r)))
  {
    assert Initial(CFG).regs == Regs([0, 0], [0, 0], [1, 2], [1, 2]);
    var m := Core(n);
    assert Next(CFG, sem, m, Rename(NOP)) == Core(n + 1) by {
      assert RenameInst(CFG, m.regs, NOP) == NOPS[n];
      assert m.all + [NOPS[n]] == NOPS[..n + 1] && m.done + [false] == [false, false][..n + 1];
    }
    acts' := Go(sem, acts, x, RenameOne);
  }

  lemma {:induction false} ToNamed(sem: Semantics) returns (acts: seq<Action>)
    ensures Reaches(sem, acts, Named())
  {
    acts := ToFetched(sem);
    acts := GoRename(sem, acts, Fetched(), 0, Half().st.front, Half().st.disp, Half().st.rob);
    acts := GoRename(sem, acts, Half(), 1, Named().st.front, Named().st.disp, Named().st.rob);
  }

  lemma {:induction false} ToQueued(sem: Semantics) returns (acts: seq<Action>)
    ensures Reaches(sem, acts, Queued())
  {
    acts := ToNamed(sem);
    var x := Named();
    acts := GoFront(sem, acts, x, FetchCredit, Front(2, 0, [], [], []));
    x := x.(st := x.st.(front := Front(2, 0, [], [], [])));
    var y := x.(st := x.st.(disp := Dispatch(0, 0, [], [0, 1], [], {}, []), rob := Rob(0, 0, [], [0, 1], [], [], [])));
    acts := GoTick(sem, acts, x, IDLE, y);
    var d := Dispatch(0, 0, [], [1], [Entry(0, false, ())], {}, []);
    acts := GoDispatch(sem, acts, y, DispatchArrive, d);
    y := y.(st := y.st.(disp := d));
    d := Dispatch(0, 0, [], [], Queue(false, false), {}, []);
    acts := GoDispatch(sem, acts, y, DispatchArrive, d);
    y := y.(st := y.st.(disp := d));
    var r := Rob(0, 0, [], [1], [RobEntry(0, false)], [], []);
    acts := GoRob(sem, acts, y, RobArrive, r);
    y := y.(st := y.st.(rob := r));
    acts := GoRob(sem, acts, y, RobArrive, Rob(0, 0, [], [], BUFFER, [], []));
  }

  // Lane 0 takes instruction `k`, the first not yet taken.
  lemma {:induction false} GoSelect(sem: Semantics, acts: seq<Action>, a: bool, k: nat, msg: nat, l: Lane, l': Lane)
    returns (acts': seq<Action>)
    requires Reaches(sem, acts, Working(0, msg, a, false, l, 0)) && l.credit > 0 && k == if a then 1 else 0
    requires l' == l.(credit := l.credit - 1, sent := l.sent + [Waiting(k, false, false)])
    ensures Reaches(sem, acts', Working(0, msg + 1, true, a, l', 0))
  {
    var x := Working(0, msg, a, false, l, 0);
    var q := Queue(a, false);
    assert Eligible(NOPS, {0}, q[k]) && FirstEligible(NOPS, {0}, q) == k;
    assert q[k := q[k].(issued := true)] == Queue(true, a);
    acts' := Go(sem, acts, x, Select(0));
    var st' := AfterSelect(PARAMS, x.st, 0);
    assert PARAMS.lanes[0].supports == {0} && NOPS[..2] == NOPS;
    assert st'.disp == Dispatch(0, msg + 1, [], [], Queue(true, a), {}, []);
    assert st'.lanes[0] == l' && st'.lanes == [l'];
  }

  const TAKEN := [Waiting(0, false, false), Waiting(1, false, false)]

  // Both have been taken and reach the station together.
  lemma {:induction false} ToStation(sem: Semantics) returns (acts: seq<Action>)
    ensures Reaches(sem, acts, Working(2, 0, true, true, IDLE.(credit := 0, arriving := TAKEN), 0))
  {
    acts := ToQueued(sem);
    var l1, l := IDLE.(credit := 1, sent := [Waiting(0, false, false)]), IDLE.(credit := 0, sent := TAKEN);
    acts := GoSelect(sem, acts, false, 0, 0, IDLE, l1);
    acts := GoSelect(sem, acts, true, 1, 1, l1, l);
    acts := GoDispatch(sem, acts, Working(0, 2, true, true, l, 0), DispatchCredit,
                       Dispatch(2, 0, [], [], Queue(true, true), {}, []));
    acts := GoTick(sem, acts, Working(2, 0, true, true, l, 0), l,
                   Working(2, 0, true, true, IDLE.(credit := 0, arriving := TAKEN), 0));
  }

  // A step of the lane, everything else at rest.
  lemma {:induction false} GoWork(sem: Semantics, acts: seq<Action>, l: Lane, b: nat, le: LaneEvent, l': Lane, b': nat)
    returns (acts': seq<Action>)
    requires Reaches(sem, acts, Working(2, 0, true, true, l, b))
    requires Leads(NOPS, WIDTHS[0], Paced(l, b), Inside(le), Paced(l', b'))
    ensures Reaches(sem, acts', Working(2, 0, true, true, l', b'))
  {
    assert NOPS[..2] == NOPS;
    acts' := GoLane(sem, acts, Working(2, 0, true, true, l, b), le, l', b');
  }

  // The lane of the run is the one of the general failing run, with two instructions.
  const ROOM := LaneParams({0}, 2, 2)

  // They have been passed on together.
  lemma {:induction false} ToUnit(sem: Semantics) returns (acts: seq<Action>)
    ensures Reaches(sem, acts, Working(2, 0, true, true, Entering(ROOM, WIDTHS[0], 2, 0).lane, 0))
  {
    acts := ToStation(sem);
    assert Program(2) == NOPS && Sends(2) == TAKEN && Sends(2)[0..] == TAKEN && Gone(0) == [] && Numbers(0) == [];
    assert Passing(ROOM, 2, 0).lane == IDLE.(credit := 0, arriving := TAKEN);
    ArriveStep(ROOM, WIDTHS[0], 2, 0);
    acts := GoWork(sem, acts, Passing(ROOM, 2, 0).lane, 0, Arrive, Arrived(ROOM, 2, 0).lane, 0);
    PassStep(ROOM, WIDTHS[0], 2, 0);
    acts := GoWork(sem, acts, Arrived(ROOM, 2, 0).lane, 0, Pass, Passing(ROOM, 2, 1).lane, 0);
    ArriveStep(ROOM, WIDTHS[0], 2, 1);
    acts := GoWork(sem, acts, Passing(ROOM, 2, 1).lane, 0, Arrive, Arrived(ROOM, 2, 1).lane, 0);
    PassStep(ROOM, WIDTHS[0], 2, 1);
    acts := GoWork(sem, acts, Arrived(ROOM, 2, 1).lane, 0, Pass, Passing(ROOM, 2, 2).lane, 0);
    var l := Passing(ROOM, 2, 2).lane;
    assert Sends(2)[2..] == [] && Numbers(2)[0..] == Numbers(2);
    var l' := l.(credit := 2, creditMsg := 0);
    acts := GoWork(sem, acts, l, 0, TakeCredit, l', 0);
    acts := GoTick(sem, acts, Working(2, 0, true, true, l', 0), l',
                   Working(2, 0, true, true, Entering(ROOM, WIDTHS[0], 2, 0).lane, 0));
  }

  // One has left the unit and reached the write-back stage.
  lemma {:induction false} ToWriteBack(sem: Semantics) returns (acts: seq<Action>)
    ensures Reaches(sem, acts, Working(2, 0, true, true, Leaving(ROOM, WIDTHS[0], 2, 1).lane, 0))
  {
    acts := ToUnit(sem);
    assert Program(2) == NOPS;
    EnterStep(ROOM, WIDTHS[0], 2, 0);
    acts := GoWork(sem, acts, Entering(ROOM, WIDTHS[0], 2, 0).lane, 0, FuArrive,
                   Entering(ROOM, WIDTHS[0], 2, 1).lane, 1);
    EnterStep(ROOM, WIDTHS[0], 2, 1);
    acts := GoWork(sem, acts, Entering(ROOM, WIDTHS[0], 2, 1).lane, 1, FuArrive,
                   Entering(ROOM, WIDTHS[0], 2, 2).lane, 1);
    assert Entering(ROOM, WIDTHS[0], 2, 2) == Leaving(ROOM, WIDTHS[0], 2, 0) by {
      assert Numbers(2)[2..] == [] && Numbers(2)[0..] == Numbers(2) && Numbers(0) == [];
    }
    LeaveStep(ROOM, WIDTHS[0], 2, 0);
    acts := GoWork(sem, acts, Leaving(ROOM, WIDTHS[0], 2, 0).lane, 1, FuFinish, Left(ROOM, WIDTHS[0], 2, 0).lane, 0);
    acts := GoWork(sem, acts, Left(ROOM, WIDTHS[0], 2, 0).lane, 0, WbArrive, Leaving(ROOM, WIDTHS[0], 2, 1).lane, 0);
  }

  // One is written back; the other is all that is left.
  lemma {:induction false} ToLeft(sem: Semantics) returns (acts: seq<Action>, x: PacedPipe)
    ensures Reaches(sem, acts, x) && x.st.core.all == NOPS && x.st.lanes[0].fuQueue == [1]
    ensures LeftAlone(x, 0)
  {
    acts := ToWriteBack(sem);
    var l := Leaving(ROOM, WIDTHS[0], 2, 1).lane;
    var x0 := Working(2, 0, true, true, l, 0);
    assert l.wbQueue == [0] && l.fuQueue == [1] by {
      assert Numbers(1) == [0] && Numbers(2)[1..] == [1];
    }
    acts := Go(sem, acts, x0, Arbitrate(0));
    x := PacedAct(PARAMS, sem, WIDTHS, x0, Arbitrate(0));
    assert x.st.core.done == [true, false] && NOPS[..2] == NOPS;
    forall u: nat ensures LeftIn([true, false], [1], u) {
    }
  }

  // The failing run: every buffer has room and every type is supported, yet one instruction is left
  // behind in the unit, and no continuation without fetching ever commits it.
  lemma {:induction false} NarrowUnitBlocks(sem: Semantics) returns (acts: seq<Action>, x: PacedPipe)
    ensures Roomy(PARAMS) && Reaches(sem, acts, x) && Served(PARAMS, Stream(x.st))
    ensures LeftAlone(x, 0) && x.st.lanes[0].fuQueue == [1]
    ensures !PacedCanDrain(PARAMS, sem, WIDTHS, acts)
  {
    acts, x := ToLeft(sem);
    assert Stream(x.st) == [NOP, NOP] by {
      assert Insts(NOPS) == [NOP, NOP];
    }
    assert 0 in PARAMS.lanes[0].supports;
    forall rest, x' | PacedContinues(PARAMS, sem, WIDTHS, acts, rest, x') ensures !Drained(x'.st) {
      LeftBehindBlocks(PARAMS, sem, WIDTHS, acts, x, 0, rest, x');
    }
  }
}
