/**
  The pipeline with its function units on their own schedule. Where every unit is wide enough for
  what can arrive in one cycle, the pipeline still drains; where a unit is not, commit can be
  blocked for good.
 */
module PacedPipeline {
  import opened Prelude
  import opened RenameCore
  import opened RenameMachine
  import opened Pipeline
  import opened PipelineLanes
  import opened PipelineInv
  import opened PipelineRun
  import opened PipelineRank
  import opened PipelineProgress
  import opened FuSchedule

  // The pipeline with what the write-back event of each unit may still take in this cycle.
  datatype PacedPipe = PacedPipe(st: Pipe, budgets: seq<nat>)

  predicate PacedShape(p: Params, ws: seq<Widths>, x: PacedPipe) {
    WellShaped(p, x.st) && |ws| == |p.lanes| == |x.budgets|
  }

  // The move an action makes on lane `s`, if any.
  function MoveOf(p: Params, st: Pipe, a: Action, s: nat): Option<Move>
    requires WellShaped(p, st) && Allowed(p, st, a) && s < |st.lanes|
  {
    match a
    case InLane(t, le) => if t == s then Some(Inside(le)) else None
    case Select(t) =>
      if t == s then
        var l := AfterSelect(p, st, s).lanes[s];
        Some(Send(l.sent[|l.sent| - 1]))
      else None
    case Arbitrate(t) => if t == s then Some(Hand) else None
    case Tick => Some(Cycle(st.cast))
    case _ => None
  }

  function PaceOf(x: PacedPipe, s: nat): Paced
    requires s < |x.st.lanes| && s < |x.budgets|
  {
    Paced(x.st.lanes[s], x.budgets[s])
  }

  predicate PaceAllows(p: Params, ws: seq<Widths>, x: PacedPipe, a: Action, s: nat)
    requires PacedShape(p, ws, x) && Allowed(p, x.st, a) && s < |ws|
  {
    var m := MoveOf(p, x.st, a, s);
    m.Some? ==> MoveAllowed(x.st.core.all, ws[s], PaceOf(x, s), m.value)
  }

  predicate PacedAllowed(p: Params, ws: seq<Widths>, x: PacedPipe, a: Action)
    requires PacedShape(p, ws, x)
  {
    Allowed(p, x.st, a) && forall s | 0 <= s < |ws| :: PaceAllows(p, ws, x, a, s)
  }

  function BudgetsAfter(ws: seq<Widths>, budgets: seq<nat>, a: Action): (budgets': seq<nat>)
    requires |budgets| == |ws|
    ensures |budgets'| == |budgets|
  {
    match a
    case InLane(s, le) =>
      if s < |ws| then budgets[s := BudgetAfter(ws[s], budgets[s], le)] else budgets
    case Tick => seq(|budgets|, _ => 0)
    case _ => budgets
  }

  function PacedAct(p: Params, sem: Semantics, ws: seq<Widths>, x: PacedPipe, a: Action): (x': PacedPipe)
    requires PacedShape(p, ws, x) && PacedAllowed(p, ws, x, a)
    ensures PacedShape(p, ws, x')
  {
    PacedPipe(Act(p, sem, x.st, a), BudgetsAfter(ws, x.budgets, a))
  }

  function PacedDrive(p: Params, sem: Semantics, ws: seq<Widths>, acts: seq<Action>): (r: Option<PacedPipe>)
    requires ValidConfig(p.regs) && |ws| == |p.lanes|
    ensures r.Some? ==> PacedShape(p, ws, r.value)
  {
    if acts == [] then Some(PacedPipe(Start(p), seq(|ws|, _ => 0)))
    else
      var r := PacedDrive(p, sem, ws, acts[..|acts| - 1]);
      if r.None? || !PacedAllowed(p, ws, r.value, acts[|acts| - 1]) then None
      else Some(PacedAct(p, sem, ws, r.value, acts[|acts| - 1]))
  }

  ghost predicate PacedDriven(p: Params, sem: Semantics, ws: seq<Widths>, acts: seq<Action>, x: PacedPipe) {
    ValidConfig(p.regs) && |ws| == |p.lanes| && PacedDrive(p, sem, ws, acts) == Some(x)
  }

  // It is a run of the pipeline, so everything proved about those holds here.
  lemma {:induction false} PacedIsDriven(p: Params, sem: Semantics, ws: seq<Widths>, acts: seq<Action>, x: PacedPipe)
    requires PacedDriven(p, sem, ws, acts, x)
    ensures Driven(p, sem, acts, x.st)
  {
    if acts != [] {
      var acts', a := acts[..|acts| - 1], acts[|acts| - 1];
      var x0 := PacedDrive(p, sem, ws, acts').value;
      PacedIsDriven(p, sem, ws, acts', x0);
      DriveSnoc(p, sem, acts', x0.st, a);
      assert acts' + [a] == acts;
    }
  }

  // Every action is, on each lane, the move it makes there, or nothing.
  lemma {:induction false} MoveIsAct(p: Params, sem: Semantics, ws: seq<Widths>, x: PacedPipe, a: Action, s: nat)
    requires PacedShape(p, ws, x) && PacedAllowed(p, ws, x, a) && s < |ws|
    ensures PaceAllows(p, ws, x, a, s)
    ensures var m, x' := MoveOf(p, x.st, a, s), PacedAct(p, sem, ws, x, a);
            PaceOf(x', s) == if m.Some? then MoveNext(x.st.core.all, ws[s], PaceOf(x, s), m.value) else PaceOf(x, s)
  {
  }

  /* ---------- wide enough ---------- */

  // No unit can receive more in one cycle than it takes.
  predicate WideEnough(p: Params, ws: seq<Widths>) {
    |ws| == |p.lanes| && forall s | 0 <= s < |ws| :: Burst(p.lanes[s], ws[s]) <= ws[s].finish
  }

  lemma {:induction false} UnitsKeepUp(p: Params, sem: Semantics, ws: seq<Widths>, acts: seq<Action>, x: PacedPipe,
                                       s: nat)
    requires PacedDriven(p, sem, ws, acts, x) && WideEnough(p, ws) && s < |ws|
    ensures KeepsUp(p.lanes[s], ws[s], PaceOf(x, s))
  {
    if acts != [] {
      var acts', a := acts[..|acts| - 1], acts[|acts| - 1];
      var x0 := PacedDrive(p, sem, ws, acts').value;
      UnitsKeepUp(p, sem, ws, acts', x0, s);
      PacedIsDriven(p, sem, ws, acts', x0);
      CreditsBalance(p, sem, acts', x0.st);
      assert LaneCredits(p.lanes[s], x0.st.lanes[s]);
      MoveIsAct(p, sem, ws, x0, a, s);
      var m := MoveOf(p, x0.st, a, s);
      if m.Some? {
        MoveKeepsUp(x0.st.core.all, p.lanes[s], ws[s], PaceOf(x0, s), m.value);
      }
    }
  }

  // An action the schedule of the units allows and that changes something.
  predicate PacedEffective(p: Params, sem: Semantics, ws: seq<Widths>, x: PacedPipe, a: Action)
    requires PacedShape(p, ws, x)
  {
    Effective(p, sem, x.st, a) && PacedAllowed(p, ws, x, a)
  }

  lemma {:induction false} InboxIsPaced(p: Params, ws: seq<Widths>, x: PacedPipe, a: Action)
    requires PacedShape(p, ws, x) && Allowed(p, x.st, a) && FromInbox(a)
    ensures PacedAllowed(p, ws, x, a)
  {
  }

  // A unit with something in it and its event still to finish can write back.
  lemma {:induction false} UnitFinishes(p: Params, sem: Semantics, ws: seq<Widths>, x: PacedPipe, s: nat)
    requires PacedShape(p, ws, x) && s < |ws|
    requires x.st.lanes[s].fuArriving == [] && x.st.lanes[s].fuQueue != [] && x.budgets[s] > 0
    ensures PacedEffective(p, sem, ws, x, InLane(s, FuFinish))
  {
    var l := x.st.lanes[s];
    assert |LaneNext(x.st.core.all, l, FuFinish).fuQueue| < |l.fuQueue|;
    LaneActs(p, sem, x.st, s, FuFinish);
  }

  predicate EventDone(x: PacedPipe, s: nat)
    requires s < |x.st.lanes| && s < |x.budgets|
  {
    x.st.lanes[s].fuQueue == [] || x.budgets[s] == 0
  }

  lemma {:induction false} TickIsPaced(p: Params, ws: seq<Widths>, x: PacedPipe)
    requires PacedShape(p, ws, x) && Quiet(x.st) && forall s | 0 <= s < |ws| :: EventDone(x, s)
    ensures PacedAllowed(p, ws, x, Tick)
  {
    forall s | 0 <= s < |ws| ensures PaceAllows(p, ws, x, Tick, s) {
      assert EventDone(x, s) && LaneQuiet(x.st.lanes[s]);
    }
  }

  predicate KeepUp(p: Params, ws: seq<Widths>, x: PacedPipe)
    requires PacedShape(p, ws, x)
  {
    forall s | 0 <= s < |ws| :: KeepsUp(p.lanes[s], ws[s], PaceOf(x, s)) && ws[s].pass > 0
  }

  // At rest the schedule holds nothing back.
  lemma {:induction false} StillIsPaced(p: Params, sem: Semantics, ws: seq<Widths>, x: PacedPipe, a: Action)
    requires PacedShape(p, ws, x) && Still(x.st) && Allowed(p, x.st, a) && a != Tick && KeepUp(p, ws, x)
    ensures PacedAllowed(p, ws, x, a)
  {
    forall s | 0 <= s < |ws| ensures PaceAllows(p, ws, x, a, s) {
      assert LaneStill(x.st.lanes[s]) && KeepsUp(p.lanes[s], ws[s], PaceOf(x, s));
    }
  }

  // No deadlock on the units' own schedule either, where every unit is wide enough.
  lemma {:induction false} PacedNeverStuck(p: Params, sem: Semantics, ws: seq<Widths>, acts: seq<Action>, x: PacedPipe)
    returns (a: Action)
    requires PacedDriven(p, sem, ws, acts, x) && Roomy(p) && Served(p, Stream(x.st)) && !Drained(x.st)
    requires WideEnough(p, ws) && forall s | 0 <= s < |ws| :: ws[s].pass > 0
    ensures PacedEffective(p, sem, ws, x, a)
  {
    PacedIsDriven(p, sem, ws, acts, x);
    if !Quiet(x.st) {
      a := InboxHandled(p, sem, acts, x.st);
      InboxIsPaced(p, ws, x, a);
    } else if !Still(x.st) {
      if s :| 0 <= s < |ws| && !EventDone(x, s) {
        assert LaneQuiet(x.st.lanes[s]);
        UnitFinishes(p, sem, ws, x, s);
        a := InLane(s, FuFinish);
      } else {
        SentDelivered(p, sem, x.st);
        TickIsPaced(p, ws, x);
        a := Tick;
      }
    } else {
      a := StillMoves(p, sem, acts, x.st);
      forall s | 0 <= s < |ws| ensures KeepsUp(p.lanes[s], ws[s], PaceOf(x, s)) {
        UnitsKeepUp(p, sem, ws, acts, x, s);
      }
      StillIsPaced(p, sem, ws, x, a);
    }
  }

  // `rest` continues the run `acts` without fetching and leads to `x`.
  ghost predicate PacedContinues(p: Params, sem: Semantics, ws: seq<Widths>, acts: seq<Action>, rest: seq<Action>,
                                 x: PacedPipe) {
    PacedDriven(p, sem, ws, acts + rest, x) && forall k | 0 <= k < |rest| :: !Fetches(rest[k])
  }

  // Main result: with units wide enough for what can arrive in one cycle, every run on the units' own
  // schedule that does not idle is finite once fetching stops, and where it can go no further
  // everything fetched has been committed, in the order it was fetched.
  lemma {:induction false} PacedScheduleDrains(p: Params, sem: Semantics, ws: seq<Widths>, acts: seq<Action>,
                                               x: PacedPipe, rest: seq<Action>, x': PacedPipe)
    requires PacedDriven(p, sem, ws, acts, x) && Roomy(p) && Served(p, Stream(x.st))
    requires WideEnough(p, ws) && forall s | 0 <= s < |ws| :: ws[s].pass > 0
    requires PacedContinues(p, sem, ws, acts, rest, x')
    ensures Busy(p, sem, acts, rest) ==> |rest| <= Rank(x.st)
    ensures (forall a :: !PacedEffective(p, sem, ws, x', a)) ==>
              Insts(x'.st.core.all) == Stream(x.st) && x'.st.core.committed == |x'.st.core.all|
  {
    PacedIsDriven(p, sem, ws, acts, x);
    PacedIsDriven(p, sem, ws, acts + rest, x');
    StreamKept(p, sem, acts, x.st, rest, x'.st);
    if Busy(p, sem, acts, rest) {
      WorkIsBounded(p, sem, acts, x.st, rest, x'.st);
    }
    if !Drained(x'.st) {
      var a := PacedNeverStuck(p, sem, ws, acts + rest, x');
      assert PacedEffective(p, sem, ws, x', a);
    } else {
      assert Insts(x'.st.core.all) == Stream(x'.st);
    }
  }

  ghost predicate PacedCanDrain(p: Params, sem: Semantics, ws: seq<Widths>, acts: seq<Action>) {
    exists rest, x :: PacedContinues(p, sem, ws, acts, rest, x) && Drained(x.st)
  }

  lemma {:induction false} PacedDrainIsDrain(p: Params, sem: Semantics, ws: seq<Widths>, acts: seq<Action>,
                                             rest: seq<Action>, x: PacedPipe)
    requires PacedContinues(p, sem, ws, acts, rest, x) && Drained(x.st)
    ensures CanDrain(p, sem, acts)
  {
    PacedIsDriven(p, sem, ws, acts + rest, x);
    assert Continues(p, sem, acts, rest, x.st);
  }

  lemma {:induction false} PacedMore(p: Params, sem: Semantics, ws: seq<Widths>, acts: seq<Action>, rest: seq<Action>,
                                     x: PacedPipe, a: Action)
    requires PacedContinues(p, sem, ws, acts, rest, x) && PacedAllowed(p, ws, x, a) && !Fetches(a)
    ensures PacedContinues(p, sem, ws, acts, rest + [a], PacedAct(p, sem, ws, x, a))
  {
    var longer := acts + (rest + [a]);
    assert longer[..|longer| - 1] == acts + rest;
  }

  lemma {:induction false} PacedDrainFrom(p: Params, sem: Semantics, ws: seq<Widths>, acts: seq<Action>,
                                          rest: seq<Action>, x: PacedPipe)
    requires PacedContinues(p, sem, ws, acts, rest, x)
    requires Roomy(p) && Served(p, Stream(x.st)) && WideEnough(p, ws) && forall s | 0 <= s < |ws| :: ws[s].pass > 0
    ensures PacedCanDrain(p, sem, ws, acts)
    decreases Rank(x.st)
  {
    if !Drained(x.st) {
      var a := PacedNeverStuck(p, sem, ws, acts + rest, x);
      PacedIsDriven(p, sem, ws, acts + rest, x);
      RunPlacedAll(p, sem, acts + rest, x.st);
      StepLowers(p, sem, x.st, a);
      StreamStep(p, sem, x.st, a);
      PacedMore(p, sem, ws, acts, rest, x, a);
      PacedDrainFrom(p, sem, ws, acts, rest + [a], PacedAct(p, sem, ws, x, a));
    }
  }

  // So with units wide enough, what has been fetched can be committed on the units' own schedule
  // exactly when every fetched type is supported.
  lemma {:induction false} PacedDrainsIff(p: Params, sem: Semantics, ws: seq<Widths>, acts: seq<Action>, x: PacedPipe)
    requires PacedDriven(p, sem, ws, acts, x) && Roomy(p)
    requires WideEnough(p, ws) && forall s | 0 <= s < |ws| :: ws[s].pass > 0
    ensures PacedCanDrain(p, sem, ws, acts) <==> Served(p, Stream(x.st))
  {
    if PacedCanDrain(p, sem, ws, acts) {
      var rest, x' :| PacedContinues(p, sem, ws, acts, rest, x') && Drained(x'.st);
      PacedIsDriven(p, sem, ws, acts, x);
      PacedDrainIsDrain(p, sem, ws, acts, rest, x');
      DrainsIff(p, sem, acts, x.st);
    }
    if Served(p, Stream(x.st)) {
      assert acts + [] == acts;
      PacedDrainFrom(p, sem, ws, acts, [], x);
    }
  }

  /* ---------- too narrow ---------- */

  predicate LeftIn(done: seq<bool>, q: seq<nat>, u: nat) {
    u < |done| && !done[u] ==> u in q
  }

  // All that has not been executed was left behind in unit `s`, and nothing more is on its way.
  ghost predicate LeftAlone(x: PacedPipe, s: nat)
    requires s < |x.st.lanes| && s < |x.budgets|
  {
    && x.st.front.queue == [] && x.st.front.arriving == [] && x.st.front.sent == []
    && x.st.lanes[s].fuQueue != [] && x.st.lanes[s].fuArriving == [] && x.budgets[s] == 0
    && forall u: nat :: LeftIn(x.st.core.done, x.st.lanes[s].fuQueue, u)
  }

  lemma {:induction false} InLaneOnce(st: Pipe, s: nat, v: nat)
    requires s < |st.lanes| && PlacedOk(st) && LaneCount(st.lanes[s], v) > 0
    ensures v < |st.core.done| && !st.core.done[v] && LaneCount(st.lanes[s], v) == 1
  {
    LanesCountMember(st.lanes, s, v);
    assert PlacedAt(st.disp, st.lanes, st.core.done, v);
  }

  // What is in the unit is nowhere else, so nothing is on its way to it.
  lemma {:induction false} NothingFollows(x: PacedPipe, s: nat)
    requires s < |x.st.lanes| && s < |x.budgets| && LeftAlone(x, s) && PlacedOk(x.st)
    ensures x.st.lanes[s].fuSent == []
  {
    var l := x.st.lanes[s];
    if l.fuSent != [] {
      var v := l.fuSent[0];
      CountMember(l.fuSent, 0);
      assert LeftIn(x.st.core.done, l.fuQueue, v);
      InLaneOnce(x.st, s, v);
    }
  }

  lemma {:induction false} LeftAloneLane(p: Params, sem: Semantics, ws: seq<Widths>, x: PacedPipe, a: Action, s: nat)
    requires PacedShape(p, ws, x) && PacedAllowed(p, ws, x, a) && s < |ws| && !Fetches(a)
    requires LeftAlone(x, s) && PlacedOk(x.st)
    ensures var x' := PacedAct(p, sem, ws, x, a);
            && x'.st.lanes[s].fuQueue == x.st.lanes[s].fuQueue && x'.st.lanes[s].fuArriving == [] && x'.budgets[s] == 0
  {
    NothingFollows(x, s);
    MoveIsAct(p, sem, ws, x, a, s);
    var m := MoveOf(p, x.st, a, s);
    if m.Some? {
      LeftStays(x.st.core.all, ws[s], PaceOf(x, s), m.value);
    }
  }

  lemma {:induction false} LeftAloneStep(p: Params, sem: Semantics, ws: seq<Widths>, x: PacedPipe, a: Action, s: nat)
    requires PacedShape(p, ws, x) && PacedAllowed(p, ws, x, a) && s < |ws| && !Fetches(a)
    requires LeftAlone(x, s) && PlacedOk(x.st)
    ensures LeftAlone(PacedAct(p, sem, ws, x, a), s)
  {
    var x' := PacedAct(p, sem, ws, x, a);
    LeftAloneLane(p, sem, ws, x, a, s);
    forall u: nat ensures LeftIn(x'.st.core.done, x'.st.lanes[s].fuQueue, u) {
      assert LeftIn(x.st.core.done, x.st.lanes[s].fuQueue, u);
    }
  }

  lemma {:induction false} StaysLeft(p: Params, sem: Semantics, ws: seq<Widths>, acts: seq<Action>, x: PacedPipe,
                                     s: nat, rest: seq<Action>, x': PacedPipe)
    requires PacedDriven(p, sem, ws, acts, x) && s < |ws| && LeftAlone(x, s)
    requires PacedContinues(p, sem, ws, acts, rest, x')
    ensures LeftAlone(x', s) && x'.st.lanes[s].fuQueue == x.st.lanes[s].fuQueue
  {
    if rest == [] {
      assert acts + rest == acts;
    } else {
      var n := |rest| - 1;
      assert (acts + rest)[..|acts + rest| - 1] == acts + rest[..n];
      var x0 := PacedDrive(p, sem, ws, acts + rest[..n]).value;
      StaysLeft(p, sem, ws, acts, x, s, rest[..n], x0);
      PacedIsDriven(p, sem, ws, acts + rest[..n], x0);
      RunPlacedAll(p, sem, acts + rest[..n], x0.st);
      LeftAloneStep(p, sem, ws, x0, rest[n], s);
      LeftAloneLane(p, sem, ws, x0, rest[n], s);
    }
  }

  // What was left behind blocks commit for good once fetching stops: no schedule of the other units
  // helps.
  lemma {:induction false} LeftBehindBlocks(p: Params, sem: Semantics, ws: seq<Widths>, acts: seq<Action>, x: PacedPipe,
                                            s: nat, rest: seq<Action>, x': PacedPipe)
    requires PacedDriven(p, sem, ws, acts, x) && s < |ws| && LeftAlone(x, s)
    requires PacedContinues(p, sem, ws, acts, rest, x')
    ensures var u := x.st.lanes[s].fuQueue[0];
            && u < |x'.st.core.done| && !x'.st.core.done[u] && x'.st.core.committed <= u && !Drained(x'.st)
  {
    var u := x.st.lanes[s].fuQueue[0];
    StaysLeft(p, sem, ws, acts, x, s, rest, x');
    PacedIsDriven(p, sem, ws, acts + rest, x');
    CountMember(x'.st.lanes[s].fuQueue, 0);
    LanesCountMember(x'.st.lanes, s, u);
    RunPlaced(p, sem, acts + rest, x'.st, u);
    RetirementInOrder(p, sem, acts + rest, x'.st);
  }
}
