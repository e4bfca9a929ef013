/**
  One small run of the pipeline, followed step by step: an instruction that writes x1 and one that
  reads it, on one lane. Its states show that the situations the ordering edges exist for, and the
  one no edge covers, do occur.
 */
module WitnessRun {
  import opened Prelude
  import opened RenameCore
  import opened RenameMachine
  import opened Pipeline
  import opened PipelineLanes
  import opened PipelineRun
  import opened LostWakeup
  import opened WriteBackUnit
  import opened RegfileTiming

  const CFG := Config(2, 3)
  const PARAMS := Params(CFG, 2, 2, 2, [LaneParams({0}, 2, 2)])

  const WRITER := Inst(0, 0, 0, 0, 1)
  const READER := Inst(0, 0, 1, 0, 0)

  const PROGRAM := [Renamed(WRITER, 0, 0, 1, 0), Renamed(READER, 1, 0, 0, 0)]

  ghost predicate Reaches(sem: Semantics, es: seq<Step>, t: Timed) {
    TimedRun(PARAMS, sem, es, |es|) == Some(t)
  }

  lemma {:induction false} TimedPrefix(sem: Semantics, es: seq<Step>, e: Step, n: nat)
    requires n <= |es|
    ensures TimedRun(PARAMS, sem, es + [e], n) == TimedRun(PARAMS, sem, es, n)
  {
    if n > 0 {
      TimedPrefix(sem, es, e, n - 1);
      assert (es + [e])[n - 1] == es[n - 1];
    }
  }

  lemma {:induction false} Go(sem: Semantics, es: seq<Step>, t: Timed, e: Step) returns (es': seq<Step>, t': Timed)
    requires Reaches(sem, es, t) && WellShaped(PARAMS, t.st) && StepAllowed(PARAMS, t, e)
    ensures t' == StepNext(PARAMS, sem, t, e) && Reaches(sem, es', t') && WellShaped(PARAMS, t'.st)
  {
    TimedPrefix(sem, es, e, |es|);
    es', t' := es + [e], StepNext(PARAMS, sem, t, e);
  }

  // The state with these parts and one lane, before anything is written to the register file.
  function State(core: Machine, front: Front, disp: Dispatch, rob: Rob, lane: Lane, cast: seq<nat>,
                 sent: seq<RegOp>, due: seq<RegOp>): Timed {
    Timed(Pipe(core, front, disp, rob, [lane], cast), [0, 0, 0], sent, due)
  }

  // Steps inside one unit change its part and nothing else.
  lemma {:induction false} GoFront(sem: Semantics, es: seq<Step>, t: Timed, fe: FrontEvent, f: Front)
    returns (es': seq<Step>)
    requires Reaches(sem, es, t) && WellShaped(PARAMS, t.st) && FrontEnabled(CFG, t.st.front, fe)
    requires f == FrontNext(CFG, t.st.front, fe)
    ensures Reaches(sem, es', t.(st := t.st.(front := f)))
  {
    var t';
    es', t' := Go(sem, es, t, Do(InFront(fe)));
  }

  lemma {:induction false} GoDispatch(sem: Semantics, es: seq<Step>, t: Timed, de: DispatchEvent, d: Dispatch)
    returns (es': seq<Step>)
    requires Reaches(sem, es, t) && WellShaped(PARAMS, t.st) && DispatchEnabled(t.st.core.all, t.st.disp, de)
    requires d == DispatchNext(t.st.core.all, t.st.disp, de)
    ensures Reaches(sem, es', t.(st := t.st.(disp := d)))
  {
    var t';
    es', t' := Go(sem, es, t, Do(InDispatch(de)));
  }

  lemma {:induction false} GoRob(sem: Semantics, es: seq<Step>, t: Timed, re: RobEvent, r: Rob) returns (es': seq<Step>)
    requires Reaches(sem, es, t) && WellShaped(PARAMS, t.st) && RobEnabled(t.st.rob, re) && r == RobNext(t.st.rob, re)
    ensures Reaches(sem, es', t.(st := t.st.(rob := r)))
  {
    var t';
    es', t' := Go(sem, es, t, Do(InRob(re)));
  }

  lemma {:induction false} GoLane(sem: Semantics, es: seq<Step>, t: Timed, le: LaneEvent, l: Lane, l': Lane)
    returns (es': seq<Step>)
    requires Reaches(sem, es, t) && WellShaped(PARAMS, t.st) && t.st.lanes == [l] && LaneEnabled(t.st.core.all, l, le)
    requires l' == LaneNext(t.st.core.all, l, le)
    ensures Reaches(sem, es', t.(st := t.st.(lanes := [l'])))
  {
    var t';
    es', t' := Go(sem, es, t, Do(InLane(0, le)));
    assert [l][0 := l'] == [l'];
  }

  lemma {:induction false} GoTick(sem: Semantics, es: seq<Step>, t: Timed, l: Lane) returns (es': seq<Step>)
    requires Reaches(sem, es, t) && WellShaped(PARAMS, t.st) && t.st.lanes == [l] && Quiet(t.st) && t.due == []
    ensures Reaches(sem, es', Timed(
              Pipe(t.st.core, t.st.front.(arriving := t.st.front.sent, sent := []),
                   t.st.disp.(arriving := t.st.disp.sent, sent := [], cast := t.st.cast),
                   t.st.rob.(arriving := t.st.rob.sent, sent := [], cast := t.st.cast),
                   [LaneTick(l, t.st.cast)], []),
              t.file, [], t.sent))
  {
    var t';
    es', t' := Go(sem, es, t, Do(Tick));
    assert t'.st.lanes == [LaneTick(l, t.st.cast)];
  }

  // Lane 0 takes entry `k` of the queue, which becomes `w` on its way to the station.
  lemma {:induction false} GoSelect(sem: Semantics, es: seq<Step>, t: Timed, k: nat, w: Waiting, d: Dispatch, l: Lane)
      returns (es': seq<Step>)
    requires Reaches(sem, es, t) && WellShaped(PARAMS, t.st) && Allowed(PARAMS, t.st, Select(0))
    requires k == FirstEligible(t.st.core.all, {0}, t.st.disp.queue) && w.uid == t.st.disp.queue[k].uid
    requires w.f1 == (t.st.core.all[w.uid].p1 in t.st.disp.busy) && w.f2 == (t.st.core.all[w.uid].p2 in t.st.disp.busy)
    requires d == t.st.disp.(queue := t.st.disp.queue[k := t.st.disp.queue[k].(issued := true)],
                             msg := t.st.disp.msg + 1)
    requires l == t.st.lanes[0].(credit := t.st.lanes[0].credit - 1, sent := t.st.lanes[0].sent + [w])
    ensures Reaches(sem, es', t.(st := t.st.(disp := d, lanes := [l])))
  {
    var t';
    es', t' := Go(sem, es, t, Do(Select(0)));
    assert PARAMS.lanes[0].supports == {0};
    assert t'.st == AfterSelect(PARAMS, t.st, 0) && t'.st.disp == d;
    assert t'.st.lanes[0] == l && t'.st.lanes == [l];
  }

  /* ---------- the states ---------- */

  function Renamed2(): Machine {
    Machine(Regs([0, 1], [0, 0], [2], [1, 2]), PROGRAM, [false, false], 0, [0, 0, 0])
  }

  function Written2(sem: Semantics): Machine {
    Renamed2().(done := [true, false], prf := [0, sem(0, 0, 0), 0])
  }

  const IDLE := Lane(2, 0, [], [], [], map[], map[], [], 2, 0, [], [], [], [], [])

  // Every unit has announced its room.
  function Ready(): Timed {
    State(Initial(CFG), Front(2, 0, [], [], []),
       Dispatch(2, 0, [], [], [], {}, []), Rob(2, 0, [], [], [], [], []), IDLE, [], [], [])
  }

  // Both instructions have been fetched.
  function Fetched(): Timed {
    State(Initial(CFG), Front(0, 0, [], [], [WRITER, READER]),
       Dispatch(2, 0, [], [], [], {}, []), Rob(2, 0, [], [], [], [], []), IDLE, [], [], [])
  }

  // Both have been renamed and arrive at dispatch and at the reorder buffer.
  function Arriving(): Timed {
    State(Renamed2(), Front(2, 0, [], [], []),
       Dispatch(0, 0, [], [0, 1], [], {}, []), Rob(0, 0, [], [0, 1], [], [], []), IDLE, [], [], [])
  }

  const QUEUE := [Entry(0, true, ()), Entry(1, false, ())]
  const BUFFER := [RobEntry(0, false), RobEntry(1, false)]

  // The writer is on its way to the station.
  function Issued(): Timed {
    State(Renamed2(), Front(2, 0, [], [], []),
       Dispatch(1, 0, [], [], QUEUE, {1}, []), Rob(0, 0, [], [], BUFFER, [], []),
       IDLE.(credit := 1, arriving := [Waiting(0, false, false)]), [], [], [])
  }

  const PASSED := [Entry(0, true, Operands(true, true))]

  // The writer is on its way to the function unit.
  function Passed(): Timed {
    State(Renamed2(), Front(2, 0, [], [], []),
       Dispatch(1, 0, [], [], QUEUE, {1}, []), Rob(0, 0, [], [], BUFFER, [], []),
       IDLE.(entries := PASSED, fuCredit := 1, fuArriving := [0]), [], [], [])
  }

  // Its result is being broadcast.
  function Broadcast(sem: Semantics): Timed {
    State(Written2(sem), Front(2, 0, [], [], []),
       Dispatch(1, 0, [], [], QUEUE, {1}, []), Rob(0, 0, [], [], BUFFER, [], []),
       IDLE.(entries := PASSED), [0], [ResultOf(sem, [0, 0, 0], PROGRAM[0])], [])
  }

  // The result has arrived everywhere and nobody has handled it yet.
  function Delivered(sem: Semantics): Timed {
    State(Written2(sem), Front(2, 0, [], [], []),
       Dispatch(1, 0, [], [], QUEUE, {1}, [0]), Rob(0, 0, [], [], BUFFER, [0], []),
       IDLE.(entries := PASSED, forwards := [0]), [], [], [ResultOf(sem, [0, 0, 0], PROGRAM[0])])
  }

  /* ---------- the run ---------- */

  lemma {:induction false} ToReady(sem: Semantics) returns (es: seq<Step>)
    ensures Reaches(sem, es, Ready())
  {
    var l := StartLane(PARAMS.lanes[0]);
    var t := State(Initial(CFG), Front(0, 2, [], [], []), Dispatch(0, 2, [], [], [], {}, []),
                   Rob(0, 2, [], [], [], [], []), l, [], [], []);
    assert Timed(Start(PARAMS), seq(3, _ => 0), [], []) == t by {
      assert Start(PARAMS).lanes == [l] && seq(3, _ => 0) == [0, 0, 0];
    }
    assert Reaches(sem, [], t);
    es := GoFront(sem, [], t, FetchCredit, Front(2, 0, [], [], []));
    t := t.(st := t.st.(front := Front(2, 0, [], [], [])));
    es := GoDispatch(sem, es, t, DispatchCredit, Dispatch(2, 0, [], [], [], {}, []));
    t := t.(st := t.st.(disp := Dispatch(2, 0, [], [], [], {}, [])));
    es := GoRob(sem, es, t, RobCredit, Rob(2, 0, [], [], [], [], []));
    t := t.(st := t.st.(rob := Rob(2, 0, [], [], [], [], [])));
    es := GoLane(sem, es, t, TakeCredit, l, l.(credit := 2, creditMsg := 0));
    t := t.(st := t.st.(lanes := [l.(credit := 2, creditMsg := 0)]));
    es := GoLane(sem, es, t, TakeFuCredit, l.(credit := 2, creditMsg := 0), IDLE);
  }

  lemma {:induction false} ToFetched(sem: Semantics) returns (es: seq<Step>)
    ensures Reaches(sem, es, Fetched())
  {
    es := ToReady(sem);
    var t := Ready();
    es := GoFront(sem, es, t, Fetch(WRITER), Front(1, 0, [WRITER], [], []));
    t := t.(st := t.st.(front := Front(1, 0, [WRITER], [], [])));
    es := GoFront(sem, es, t, Fetch(READER), Front(0, 0, [WRITER, READER], [], []));
    t := t.(st := t.st.(front := Front(0, 0, [WRITER, READER], [], [])));
    es := GoTick(sem, es, t, IDLE);
    t := t.(st := t.st.(front := Front(0, 0, [], [WRITER, READER], [])));
    es := GoFront(sem, es, t, FetchArrive, Front(0, 0, [], [READER], [WRITER]));
    t := t.(st := t.st.(front := Front(0, 0, [], [READER], [WRITER])));
    es := GoFront(sem, es, t, FetchArrive, Front(0, 0, [], [], [WRITER, READER]));
  }

  function Half(): Timed {
    State(Machine(Regs([0, 1], [0, 0], [2], [1, 2]), [PROGRAM[0]], [false], 0, [0, 0, 0]),
          Front(0, 1, [], [], [READER]), Dispatch(1, 0, [0], [], [], {}, []),
          Rob(1, 0, [0], [], [], [], []), IDLE, [], [], [])
  }

  lemma {:induction false} ToHalf(sem: Semantics) returns (es: seq<Step>)
    ensures Reaches(sem, es, Half())
  {
    es := ToFetched(sem);
    assert Initial(CFG).regs == Regs([0, 0], [0, 0], [1, 2], [1, 2]) && Initial(CFG).prf == [0, 0, 0];
    var t;
    es, t := Go(sem, es, Fetched(), Do(RenameOne));
    assert t.st.core.regs == Half().st.core.regs && t.st.core.all == [PROGRAM[0]] && t.st.core.done == [false];
    assert t.st.front == Half().st.front && t.st.disp == Half().st.disp && t.st.rob == Half().st.rob;
  }

  function Named(): Timed {
    State(Renamed2(), Front(0, 2, [], [], []), Dispatch(0, 0, [0, 1], [], [], {}, []),
          Rob(0, 0, [0, 1], [], [], [], []), IDLE, [], [], [])
  }

  lemma {:induction false} ToNamed(sem: Semantics) returns (es: seq<Step>)
    ensures Reaches(sem, es, Named())
  {
    es := ToHalf(sem);
    var t;
    es, t := Go(sem, es, Half(), Do(RenameOne));
    assert t.st.core.all == PROGRAM && t.st.core.done == [false, false] && t.st.core.regs == Renamed2().regs;
    assert t.st.front == Named().st.front && t.st.disp == Named().st.disp && t.st.rob == Named().st.rob;
  }

  lemma {:induction false} ToArriving(sem: Semantics) returns (es: seq<Step>)
    ensures Reaches(sem, es, Arriving())
  {
    es := ToNamed(sem);
    var t := Named();
    es := GoFront(sem, es, t, FetchCredit, Front(2, 0, [], [], []));
    t := t.(st := t.st.(front := Front(2, 0, [], [], [])));
    es := GoTick(sem, es, t, IDLE);
  }

  lemma {:induction false} ToQueued(sem: Semantics) returns (es: seq<Step>, t: Timed)
    ensures Reaches(sem, es, t)
    ensures t == State(Renamed2(), Front(2, 0, [], [], []),
                       Dispatch(0, 0, [], [], [Entry(0, false, ()), Entry(1, false, ())], {1}, []),
                       Rob(0, 0, [], [], BUFFER, [], []), IDLE, [], [], [])
  {
    es := ToArriving(sem);
    t := Arriving();
    var d := Dispatch(0, 0, [], [1], [Entry(0, false, ())], {1}, []);
    es := GoDispatch(sem, es, t, DispatchArrive, d);
    t := t.(st := t.st.(disp := d));
    d := Dispatch(0, 0, [], [], [Entry(0, false, ()), Entry(1, false, ())], {1}, []);
    es := GoDispatch(sem, es, t, DispatchArrive, d);
    t := t.(st := t.st.(disp := d));
    var r := Rob(0, 0, [], [1], [RobEntry(0, false)], [], []);
    es := GoRob(sem, es, t, RobArrive, r);
    t := t.(st := t.st.(rob := r));
    es := GoRob(sem, es, t, RobArrive, Rob(0, 0, [], [], BUFFER, [], []));
    t := t.(st := t.st.(rob := Rob(0, 0, [], [], BUFFER, [], [])));
  }

  lemma {:induction false} ToIssued(sem: Semantics) returns (es: seq<Step>)
    ensures Reaches(sem, es, Issued())
  {
    var t;
    es, t := ToQueued(sem);
    assert Eligible(PROGRAM, {0}, t.st.disp.queue[0]) && FirstEligible(PROGRAM, {0}, t.st.disp.queue) == 0;
    var l, d := IDLE.(credit := 1, sent := [Waiting(0, false, false)]), Dispatch(0, 1, [], [], QUEUE, {1}, []);
    assert t.st.disp.queue[0 := Entry(0, true, ())] == QUEUE;
    es := GoSelect(sem, es, t, 0, Waiting(0, false, false), d, l);
    t := t.(st := t.st.(disp := d, lanes := [l]));
    es := GoDispatch(sem, es, t, DispatchCredit, Dispatch(1, 0, [], [], QUEUE, {1}, []));
    t := t.(st := t.st.(disp := Dispatch(1, 0, [], [], QUEUE, {1}, [])));
    es := GoTick(sem, es, t, l);
  }

  lemma {:induction false} ToPassed(sem: Semantics) returns (es: seq<Step>)
    ensures Reaches(sem, es, Passed())
  {
    es := ToIssued(sem);
    var t, l := Issued(), Issued().st.lanes[0];
    var l1 := IDLE.(credit := 1, entries := [Entry(0, false, Operands(true, true))]);
    es := GoLane(sem, es, t, Arrive, l, l1);
    t := t.(st := t.st.(lanes := [l1]));
    assert FirstReady(l1.entries) == 0 by { assert Pipeline.Ready(l1.entries[0]); }
    var l2 := IDLE.(credit := 1, creditMsg := 1, entries := PASSED, fuCredit := 1, fuSent := [0]);
    es := GoLane(sem, es, t, Pass, l1, l2);
    t := t.(st := t.st.(lanes := [l2]));
    es := GoLane(sem, es, t, TakeCredit, l2, l2.(credit := 2, creditMsg := 0));
    t := t.(st := t.st.(lanes := [l2.(credit := 2, creditMsg := 0)]));
    es := GoTick(sem, es, t, l2.(credit := 2, creditMsg := 0));
  }

  function Finished(): Timed {
    State(Renamed2(), Front(2, 0, [], [], []),
          Dispatch(1, 0, [], [], QUEUE, {1}, []), Rob(0, 0, [], [], BUFFER, [], []),
          IDLE.(entries := PASSED, wbQueue := [0]), [], [], [])
  }

  lemma {:induction false} ToFinished(sem: Semantics) returns (es: seq<Step>)
    ensures Reaches(sem, es, Finished())
  {
    es := ToPassed(sem);
    var t, l := Passed(), IDLE.(entries := PASSED, fuCredit := 1, fuArriving := [0]);
    var l1 := IDLE.(entries := PASSED, fuCredit := 1, fuQueue := [0]);
    es := GoLane(sem, es, t, FuArrive, l, l1);
    t := t.(st := t.st.(lanes := [l1]));
    var l2 := IDLE.(entries := PASSED, fuCredit := 1, fuCreditMsg := 1, wbArriving := [0]);
    es := GoLane(sem, es, t, FuFinish, l1, l2);
    t := t.(st := t.st.(lanes := [l2]));
    var l3 := IDLE.(entries := PASSED, wbArriving := [0]);
    es := GoLane(sem, es, t, TakeFuCredit, l2, l3);
    t := t.(st := t.st.(lanes := [l3]));
    var l4 := IDLE.(entries := PASSED, wbQueue := [0]);
    es := GoLane(sem, es, t, WbArrive, l3, l4);
  }

  lemma {:induction false} ToBroadcast(sem: Semantics) returns (es: seq<Step>)
    ensures Reaches(sem, es, Broadcast(sem))
  {
    es := ToFinished(sem);
    var t;
    es, t := Go(sem, es, Finished(), Do(Arbitrate(0)));
    var l := Finished().st.lanes[0];
    assert l.(wbQueue := l.wbQueue[1..]) == IDLE.(entries := PASSED);
    assert t.st.lanes == [IDLE.(entries := PASSED)] && t.st.cast == [0];
    assert t.st.core.done == [true, false] && t.st.core.prf == [0, sem(0, 0, 0), 0];
    assert t.sent == [ResultOf(sem, [0, 0, 0], PROGRAM[0])];
  }

  lemma {:induction false} ToDelivered(sem: Semantics) returns (es: seq<Step>)
    ensures Reaches(sem, es, Delivered(sem))
  {
    es := ToBroadcast(sem);
    es := GoTick(sem, es, Broadcast(sem), IDLE.(entries := PASSED));
  }

  /* ---------- what the run shows ---------- */

  lemma {:induction false} ReaderIsNext()
    ensures FirstEligible(PROGRAM, {0}, QUEUE) == 1
  {
    assert !Eligible(PROGRAM, {0}, QUEUE[0]) && Eligible(PROGRAM, {0}, QUEUE[1]);
  }

  // The reader is selected in the cycle of the broadcast: result and reader reach the station together.
  function Crossing(sem: Semantics): Timed {
    var t := Delivered(sem);
    t.(st := t.st.(disp := Dispatch(2, 0, [], [], [Entry(0, true, ()), Entry(1, true, ())], {1}, [0]),
                   lanes := [IDLE.(credit := 1, entries := PASSED,
                                   arriving := [Waiting(1, true, false)], forwards := [0])]))
  }

  lemma {:induction false} ToCrossing(sem: Semantics) returns (es: seq<Step>)
    ensures Reaches(sem, es, Crossing(sem))
  {
    es := ToBroadcast(sem);
    ReaderIsNext();
    var t, l := Broadcast(sem), IDLE.(entries := PASSED);
    var l1 := l.(credit := 1, sent := [Waiting(1, true, false)]);
    var q := [Entry(0, true, ()), Entry(1, true, ())];
    assert QUEUE[1 := Entry(1, true, ())] == q;
    es := GoSelect(sem, es, t, 1, Waiting(1, true, false), Dispatch(1, 1, [], [], q, {1}, []), l1);
    t := t.(st := t.st.(disp := Dispatch(1, 1, [], [], q, {1}, []), lanes := [l1]));
    es := GoDispatch(sem, es, t, DispatchCredit, Dispatch(2, 0, [], [], q, {1}, []));
    t := t.(st := t.st.(disp := Dispatch(2, 0, [], [], q, {1}, [])));
    es := GoTick(sem, es, t, l1);
  }

  // The allocation-first edge of the station is needed: in a reachable state, forwarding first leaves
  // the reader's operand waiting for nobody.
  lemma {:induction false} ForwardFirstReachable(sem: Semantics) returns (es: seq<Step>)
    ensures Reaches(sem, es, Crossing(sem))
    ensures var st := Crossing(sem).st;
            var l := st.lanes[0];
            var late := LaneNext(st.core.all, Resolve(l, st.core.all[0].pd).(forwards := []), Arrive);
            && late.entries[1].uid == 1 && !late.entries[1].operands.v1
            && !HasPendingWriter(st.core.all, st.core.done, st.cast, late.forwards, 1, st.core.all[1].p1)
            && WellShaped(PARAMS, st) && NeverCommits(PARAMS, sem, st.(lanes := [late]), 1)
  {
    es := ToCrossing(sem);
    var st := Crossing(sem).st;
    ForwardFirstLosesWakeup(st.core.all, st.core.done, st.cast, st.lanes[0]);
    TimedIsDriven(PARAMS, sem, es, |es|, Crossing(sem));
    ForwardFirstBlocks(PARAMS, sem, Actions(es, |es|), st, 0, true);
    var late := ForwardedFirst(st.core.all, st.lanes[0]);
    assert st.lanes[0 := late] == [late];
  }

  // The write-back-first edge of dispatch is needed as well: in a reachable state, selecting before
  // the result is handled marks the reader's source, which then waits for nobody.
  lemma {:induction false} SelectFirstReachable(sem: Semantics) returns (es: seq<Step>)
    ensures Reaches(sem, es, Delivered(sem))
    ensures var st := Delivered(sem).st;
            && WellShaped(PARAMS, st) && Allowed(PARAMS, Unhandled(st), Select(0))
            && AfterSelect(PARAMS, Unhandled(st), 0).lanes[0].sent == [Waiting(1, true, false)]
            && st.core.all[1].p1 == 1
            && !HasPendingWriter(st.core.all, st.core.done, st.cast, [], 1, 1)
            && NeverCommits(PARAMS, sem, SelectedFirst(PARAMS, st, 0), 1)
  {
    es := ToDelivered(sem);
    ReaderIsNext();
    SelectFirstLosesWakeup(PARAMS, Delivered(sem).st, 0);
    TimedIsDriven(PARAMS, sem, es, |es|, Delivered(sem));
    SelectFirstBlocks(PARAMS, sem, Actions(es, |es|), Delivered(sem).st, 0, true);
  }

  // Dispatch has handled the result; the register file has not.
  function Early(sem: Semantics): Timed {
    var t := Delivered(sem);
    t.(st := t.st.(disp := Dispatch(1, 0, [], [], QUEUE, {}, [])))
  }

  // No edge orders the register file's write before the read of the same cycle: in a reachable state
  // in which the reader may be selected, its source is not busy, the file still holds 0, and
  // sequential execution gives what the writer computed.
  lemma {:induction false} StaleReadReachable(sem: Semantics) returns (es: seq<Step>)
    ensures Reaches(sem, es, Early(sem))
    ensures var t := Early(sem);
            && Allowed(PARAMS, t.st, Select(0)) && Selected(PARAMS, t.st, 0) == 1
            && t.st.core.all[1].p1 == 1 && 1 !in t.st.disp.busy && !NotDue(t, 1)
            && Read(t.file, 1) == 0 && Isa(sem, 2, t.st.core.all, 1)[1] == sem(0, 0, 0)
  {
    es := ToDelivered(sem);
    es := GoDispatch(sem, es, Delivered(sem), DispatchCast, Early(sem).st.disp);
    ReaderIsNext();
    assert Early(sem).due[0].pd == 1;
    assert Isa(sem, 2, PROGRAM, 0) == [0, 0];
  }
}
