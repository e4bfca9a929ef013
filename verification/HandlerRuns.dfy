/**
  The group handlers of the units, lifted: so many steps of a lane, of the dispatch stage or of a
  selection are so many actions of the whole pipeline. So every handler proved in StationUnit,
  DispatchUnit and WriteBackUnit continues a run of the pipeline, and the theorems about runs apply.
 */
module HandlerRuns {
  import opened Prelude
  import opened RenameCore
  import opened RenameMachine
  import opened Pipeline
  import opened PipelineRun
  import opened StationUnit
  import opened DispatchUnit
  import opened WriteBackUnit
  import RenameUnit
  import RobRefines

  // The pipeline after `n` actions of one kind, or None if one of them was not possible.
  function RepeatAct(p: Params, sem: Semantics, st: Pipe, a: Action, n: nat): (r: Option<Pipe>)
    requires WellShaped(p, st)
    ensures r.Some? ==> WellShaped(p, r.value)
  {
    if n == 0 then Some(st)
    else
      var r := RepeatAct(p, sem, st, a, n - 1);
      if r.None? || !Allowed(p, r.value, a) then None else Some(Act(p, sem, r.value, a))
  }

  lemma {:induction false} OneMoreAct(p: Params, sem: Semantics, st: Pipe, a: Action, n: nat, st': Pipe)
    requires WellShaped(p, st) && RepeatAct(p, sem, st, a, n) == Some(st') && Allowed(p, st', a)
    ensures RepeatAct(p, sem, st, a, n + 1) == Some(Act(p, sem, st', a))
  {
  }

  // So many steps of a lane are so many actions of the pipeline.
  lemma {:induction false} LaneStepsLift(p: Params, sem: Semantics, st: Pipe, s: nat, le: LaneEvent, n: nat, l': Lane)
    requires WellShaped(p, st) && s < |st.lanes| && Repeat(st.core.all, st.lanes[s], le, n) == Some(l')
    ensures RepeatAct(p, sem, st, InLane(s, le), n) == Some(st.(lanes := st.lanes[s := l']))
  {
    if n > 0 {
      var l := Repeat(st.core.all, st.lanes[s], le, n - 1).value;
      LaneStepsLift(p, sem, st, s, le, n - 1, l);
      OneMoreAct(p, sem, st, InLane(s, le), n - 1, st.(lanes := st.lanes[s := l]));
      LaneActIs(p, sem, st, s, le, l);
    } else {
      assert st.lanes[s := l'] == st.lanes;
    }
  }

  lemma {:induction false} LaneActIs(p: Params, sem: Semantics, st: Pipe, s: nat, le: LaneEvent, l: Lane)
    requires WellShaped(p, st) && s < |st.lanes| && LaneEnabled(st.core.all, l, le)
    ensures Act(p, sem, st.(lanes := st.lanes[s := l]), InLane(s, le)) ==
            st.(lanes := st.lanes[s := LaneNext(st.core.all, l, le)])
  {
    assert st.lanes[s := l][s := LaneNext(st.core.all, l, le)] == st.lanes[s := LaneNext(st.core.all, l, le)];
  }

  // The same for the dispatch stage.
  lemma {:induction false} DispatchStepsLift(p: Params, sem: Semantics, st: Pipe, de: DispatchEvent, n: nat,
                                             d': Dispatch)
    requires WellShaped(p, st) && RepeatDispatch(st.core.all, st.disp, de, n) == Some(d')
    ensures RepeatAct(p, sem, st, InDispatch(de), n) == Some(st.(disp := d'))
  {
    if n > 0 {
      var d := RepeatDispatch(st.core.all, st.disp, de, n - 1).value;
      DispatchStepsLift(p, sem, st, de, n - 1, d);
      OneMoreAct(p, sem, st, InDispatch(de), n - 1, st.(disp := d));
    }
  }

  // And for the reorder buffer.
  lemma {:induction false} RobStepsLift(p: Params, sem: Semantics, st: Pipe, re: RobEvent, n: nat, r: Rob)
    requires WellShaped(p, st) && RobRefines.RepeatRob(st.rob, re, n) == Some(r)
    ensures RepeatAct(p, sem, st, InRob(re), n) == Some(st.(rob := r))
  {
    if n > 0 {
      var r0 := RobRefines.RepeatRob(st.rob, re, n - 1).value;
      RobStepsLift(p, sem, st, re, n - 1, r0);
      OneMoreAct(p, sem, st, InRob(re), n - 1, st.(rob := r0));
    }
  }

  /* ---------- renaming ---------- */

  // `n` instructions of the front queue have been renamed into `group`.
  predicate RenamedTo(st: Pipe, n: nat, regs: Regs, group: seq<Renamed>, st': Pipe)
    requires n <= |st.front.queue|
  {
    && st'.core.regs == regs && st'.core.all == st.core.all + group && st'.front.queue == st.front.queue[n..]
    && st'.disp.credit + n == st.disp.credit && st'.rob.credit + n == st.rob.credit && st'.front.msg == st.front.msg + n
  }

  // Renaming a group, as the renaming stage does within its credits, is as many rename actions.
  lemma {:induction false} RenameLift(p: Params, sem: Semantics, st: Pipe, n: nat, regs: Regs, group: seq<Renamed>)
      returns (st': Pipe)
    requires WellShaped(p, st) && n <= |st.front.queue| && n <= st.disp.credit && n <= st.rob.credit
    requires RenameUnit.RenameGroup(p.regs, st.core.regs, st.front.queue, n) == Some((regs, group))
    ensures RepeatAct(p, sem, st, RenameOne, n) == Some(st') && RenamedTo(st, n, regs, group, st')
  {
    if n == 0 {
      st' := st;
      assert st.core.all + [] == st.core.all && st.front.queue[0..] == st.front.queue;
    } else {
      var (regs1, group1) := RenameUnit.RenameGroup(p.regs, st.core.regs, st.front.queue, n - 1).value;
      var st1 := RenameLift(p, sem, st, n - 1, regs1, group1);
      st' := RenameLiftStep(p, sem, st, n - 1, regs1, group1, st1, n);
    }
  }

  lemma {:induction false} RenameLiftStep(p: Params, sem: Semantics, st: Pipe, k: nat, regs: Regs,
                                          group: seq<Renamed>, st1: Pipe, n: nat)
      returns (st': Pipe)
    requires WellShaped(p, st) && n == k + 1 <= |st.front.queue| && n <= st.disp.credit && n <= st.rob.credit
    requires RepeatAct(p, sem, st, RenameOne, k) == Some(st1) && RenamedTo(st, k, regs, group, st1)
    requires regs.free != [] && Encodable(p.regs, st.front.queue[k]) && Shaped(p.regs, regs)
    ensures RepeatAct(p, sem, st, RenameOne, n) == Some(st')
    ensures RenamedTo(st, n, AfterRename(p.regs, regs, st.front.queue[k]),
                      group + [RenameInst(p.regs, regs, st.front.queue[k])], st')
  {
    var r := RenameInst(p.regs, regs, st.front.queue[k]);
    assert st1.front.queue[0] == st.front.queue[k] && st.front.queue[k..][1..] == st.front.queue[n..];
    OneMoreAct(p, sem, st, RenameOne, k, st1);
    st' := AfterRenameOne(p, sem, st1);
    assert st.core.all + group + [r] == st.core.all + (group + [r]);
  }

  /* ---------- selection ---------- */

  // The dispatch stage's part of a pipeline state.
  predicate ViewOf(st: Pipe, b: Board) {
    && b.queue == st.disp.queue && |b.credits| == |b.pending| == |st.lanes|
    && forall s | 0 <= s < |st.lanes| :: LaneView(st.lanes[s], b, s)
  }

  // The parts of the state selection does not touch.
  predicate SameRest(st: Pipe, st': Pipe) {
    st'.core == st.core && st'.disp.busy == st.disp.busy && st'.disp.cast == st.disp.cast && |st'.lanes| == |st.lanes|
  }

  lemma {:induction false} SelectIsAllowed(p: Params, st: Pipe, b: Board, s: nat)
    requires WellShaped(p, st) && ViewOf(st, b) && st.disp.cast == [] && s < |p.lanes|
    requires CanSelect(st.core.all, p.lanes[s].supports, b, s)
    ensures Allowed(p, st, Select(s))
  {
    assert LaneView(st.lanes[s], b, s);
  }

  lemma {:induction false} SelectIsAction(p: Params, sem: Semantics, st: Pipe, b: Board, s: nat, st': Pipe)
    requires WellShaped(p, st) && ViewOf(st, b) && s < |p.lanes| && Allowed(p, st, Select(s))
    requires CanSelect(st.core.all, p.lanes[s].supports, b, s) && st' == AfterSelect(p, st, s)
    ensures SameRest(st, st') && ViewOf(st', SelectNext(st.core.all, p.lanes[s].supports, st.disp.busy, b, s))
  {
    var b' := SelectNext(st.core.all, p.lanes[s].supports, st.disp.busy, b, s);
    forall t | 0 <= t < |st'.lanes| ensures LaneView(st'.lanes[t], b', t) {
      assert LaneView(st.lanes[t], b, t);
    }
  }

  // `n` select actions for lane `s` lead from `st` to `st'`, whose dispatch part is `b`.
  ghost predicate SelectsTo(p: Params, sem: Semantics, st: Pipe, s: nat, n: nat, b: Board, st': Pipe) {
    && WellShaped(p, st) && RepeatAct(p, sem, st, Select(s), n) == Some(st')
    && SameRest(st, st') && ViewOf(st', b)
  }

  // Selecting `n` times for one lane is `n` select actions of the pipeline.
  lemma {:induction false} SelectTimesLift(p: Params, sem: Semantics, st: Pipe, b: Board, s: nat, n: nat, b': Board)
      returns (st': Pipe)
    requires WellShaped(p, st) && ViewOf(st, b) && st.disp.cast == [] && s < |p.lanes|
    requires SelectTimes(st.core.all, p.lanes[s].supports, st.disp.busy, b, s, n) == Some(b')
    ensures SelectsTo(p, sem, st, s, n, b', st')
  {
    if n == 0 {
      st' := st;
    } else {
      var b1 := SelectTimes(st.core.all, p.lanes[s].supports, st.disp.busy, b, s, n - 1).value;
      var st1 := SelectTimesLift(p, sem, st, b, s, n - 1, b1);
      st' := SelectLiftStep(p, sem, st, s, n - 1, st1, b1, n);
    }
  }

  lemma {:induction false} SelectLiftStep(p: Params, sem: Semantics, st: Pipe, s: nat, k: nat, st1: Pipe, b1: Board,
                                          n: nat)
      returns (st': Pipe)
    requires SelectsTo(p, sem, st, s, k, b1, st1) && n == k + 1 && st.disp.cast == [] && s < |p.lanes|
    requires CanSelect(st.core.all, p.lanes[s].supports, b1, s)
    ensures SelectsTo(p, sem, st, s, n, SelectNext(st.core.all, p.lanes[s].supports, st.disp.busy, b1, s), st')
  {
    SelectIsAllowed(p, st1, b1, s);
    st' := AfterSelect(p, st1, s);
    SelectIsAction(p, sem, st1, b1, s, st');
    OneMoreAct(p, sem, st, Select(s), k, st1);
  }

  // The pipeline after each of the first `n` lanes has selected as often as `counts` says.
  function SelectRun(p: Params, sem: Semantics, st: Pipe, counts: seq<nat>, n: nat): (r: Option<Pipe>)
    requires WellShaped(p, st) && n <= |counts|
    ensures r.Some? ==> WellShaped(p, r.value)
  {
    if n == 0 then Some(st)
    else
      var r := SelectRun(p, sem, st, counts, n - 1);
      if r.None? then None else RepeatAct(p, sem, r.value, Select(n - 1), counts[n - 1])
  }

  predicate Supports(p: Params, supports: seq<set<nat>>) {
    |supports| == |p.lanes| && forall s | 0 <= s < |supports| :: supports[s] == p.lanes[s].supports
  }

  // So one round of selection is a run of the pipeline.
  lemma {:induction false} SelectLanesLift(p: Params, sem: Semantics, st: Pipe, supports: seq<set<nat>>, b: Board,
                                           counts: seq<nat>, n: nat, b': Board)
      returns (st': Pipe)
    requires WellShaped(p, st) && ViewOf(st, b) && st.disp.cast == [] && Supports(p, supports)
    requires n <= |counts| && n <= |supports|
    requires SelectLanes(st.core.all, supports, st.disp.busy, b, counts, n) == Some(b')
    ensures SelectRun(p, sem, st, counts, n) == Some(st')
    ensures SameRest(st, st') && ViewOf(st', b')
  {
    if n == 0 {
      st' := st;
    } else {
      var b1 := SelectLanes(st.core.all, supports, st.disp.busy, b, counts, n - 1).value;
      var st1 := SelectLanesLift(p, sem, st, supports, b, counts, n - 1, b1);
      st' := SelectTimesLift(p, sem, st1, b1, n - 1, counts[n - 1], b');
    }
  }

  /* ---------- arbitration ---------- */

  predicate Known(all: seq<Renamed>, us: seq<nat>) {
    forall i | 0 <= i < |us| :: us[i] < |all|
  }

  // From `st` to `st'` pipe `s` has handed its oldest `n` to this cycle's group of results.
  predicate HandedOver(st: Pipe, s: nat, n: nat, st': Pipe)
    requires s < |st.lanes| && n <= |st.lanes[s].wbQueue|
  {
    && st'.cast == st.cast + st.lanes[s].wbQueue[..n] && st'.core.all == st.core.all
    && st'.lanes == st.lanes[s := st.lanes[s].(wbQueue := st.lanes[s].wbQueue[n..])]
  }

  // Handing over the oldest `n` of one pipe is `n` arbitrate actions: each executes the instruction
  // and puts it in the group of results broadcast in this cycle.
  lemma {:induction false} ArbitrateLift(p: Params, sem: Semantics, st: Pipe, s: nat, n: nat) returns (st': Pipe)
    requires WellShaped(p, st) && s < |st.lanes| && n <= |st.lanes[s].wbQueue|
    requires Known(st.core.all, st.lanes[s].wbQueue)
    ensures RepeatAct(p, sem, st, Arbitrate(s), n) == Some(st') && HandedOver(st, s, n, st')
  {
    if n == 0 {
      st' := st;
      assert st.lanes[s := st.lanes[s].(wbQueue := st.lanes[s].wbQueue[0..])] == st.lanes;
    } else {
      var st1 := ArbitrateLift(p, sem, st, s, n - 1);
      st' := ArbitrateStep(p, sem, st, s, n - 1, st1, n);
    }
  }

  lemma {:induction false} ArbitrateStep(p: Params, sem: Semantics, st: Pipe, s: nat, k: nat, st1: Pipe, n: nat)
    returns (st': Pipe)
    requires WellShaped(p, st) && s < |st.lanes| && n == k + 1 <= |st.lanes[s].wbQueue|
    requires Known(st.core.all, st.lanes[s].wbQueue)
    requires RepeatAct(p, sem, st, Arbitrate(s), k) == Some(st1) && HandedOver(st, s, k, st1)
    ensures RepeatAct(p, sem, st, Arbitrate(s), n) == Some(st') && HandedOver(st, s, n, st')
  {
    var q := st.lanes[s].wbQueue;
    assert st1.lanes[s].wbQueue[0] == q[k];
    assert q[k..][1..] == q[n..] && q[..n] == q[..k] + [q[k]];
    OneMoreAct(p, sem, st, Arbitrate(s), k, st1);
    st' := AfterArbitrate(p, sem, st1, s);
  }

  // The write-back stage's part of a pipeline state.
  predicate QueuesOf(st: Pipe, queues: seq<seq<nat>>) {
    |queues| == |st.lanes| && forall s | 0 <= s < |queues| :: QueueOf(st, queues, s)
  }

  predicate QueueOf(st: Pipe, queues: seq<seq<nat>>, s: nat)
    requires s < |queues| == |st.lanes|
  {
    st.lanes[s].wbQueue == queues[s] && Known(st.core.all, queues[s])
  }

  // The pipeline after each of the first `n` pipes has handed over as many as `counts` says.
  function ArbitrateRun(p: Params, sem: Semantics, st: Pipe, counts: seq<nat>, n: nat): (r: Option<Pipe>)
    requires WellShaped(p, st) && n <= |counts|
    ensures r.Some? ==> WellShaped(p, r.value)
  {
    if n == 0 then Some(st)
    else
      var r := ArbitrateRun(p, sem, st, counts, n - 1);
      if r.None? then None else RepeatAct(p, sem, r.value, Arbitrate(n - 1), counts[n - 1])
  }

  // What the first `n` pipes have handed over is in this cycle's group, the rest still in the queues.
  predicate HandedAll(st: Pipe, queues: seq<seq<nat>>, counts: seq<nat>, n: nat, st': Pipe)
    requires n <= |counts| && Fits(queues, counts)
  {
    && st'.cast == st.cast + Handed(queues, counts, n) && st'.core.all == st.core.all && |st'.lanes| == |st.lanes|
    && forall s | 0 <= s < |st'.lanes| && s < |queues| :: LeftIn(queues, counts, n, st', s)
  }

  predicate LeftIn(queues: seq<seq<nat>>, counts: seq<nat>, n: nat, st: Pipe, s: nat)
    requires s < |st.lanes| && s < |queues| && n <= |counts| && Fits(queues, counts)
  {
    st.lanes[s].wbQueue == if s < n then queues[s][counts[s]..] else queues[s]
  }

  // So one round of arbitration is a run of the pipeline, and what it broadcasts is what the
  // write-back stage hands over.
  lemma {:induction false} ArbitrateLanesLift(p: Params, sem: Semantics, st: Pipe, queues: seq<seq<nat>>,
                                              counts: seq<nat>, n: nat)
      returns (st': Pipe)
    requires WellShaped(p, st) && QueuesOf(st, queues) && Fits(queues, counts) && n <= |counts|
    ensures ArbitrateRun(p, sem, st, counts, n) == Some(st') && HandedAll(st, queues, counts, n, st')
  {
    if n == 0 {
      st' := st;
      assert st.cast + [] == st.cast;
      forall s | 0 <= s < |queues| ensures LeftIn(queues, counts, 0, st, s) {
        assert QueueOf(st, queues, s);
      }
    } else {
      var k: nat := n - 1;
      var st1 := ArbitrateLanesLift(p, sem, st, queues, counts, k);
      assert LeftIn(queues, counts, k, st1, k) && QueueOf(st, queues, k);
      st' := ArbitrateLift(p, sem, st1, k, counts[k]);
      HandedMore(st, queues, counts, k, st1, n, st');
    }
  }

  lemma {:induction false} HandedMore(st: Pipe, queues: seq<seq<nat>>, counts: seq<nat>, k: nat, st1: Pipe, n: nat,
                                      st': Pipe)
    requires n == k + 1 <= |counts| && Fits(queues, counts) && |queues| == |st.lanes|
    requires HandedAll(st, queues, counts, k, st1) && st1.lanes[k].wbQueue == queues[k]
    requires HandedOver(st1, k, counts[k], st')
    ensures HandedAll(st, queues, counts, n, st')
  {
    assert st.cast + Handed(queues, counts, k) + queues[k][..counts[k]]
        == st.cast + (Handed(queues, counts, k) + queues[k][..counts[k]]);
    forall s | 0 <= s < |queues| ensures LeftIn(queues, counts, n, st', s) {
      assert LeftIn(queues, counts, k, st1, s);
    }
  }

  /* ---------- handlers in driven runs ---------- */

  // One call of a handler: so many actions of one kind, one round of selection or of arbitration.
  datatype Handler = Group(a: Action, n: nat) | SelectRound(counts: seq<nat>) | ArbitrateRound(counts: seq<nat>)

  function Handled(p: Params, sem: Semantics, st: Pipe, h: Handler): (r: Option<Pipe>)
    requires WellShaped(p, st)
    ensures r.Some? ==> WellShaped(p, r.value)
  {
    match h
    case Group(a, n) => RepeatAct(p, sem, st, a, n)
    case SelectRound(counts) => SelectRun(p, sem, st, counts, |counts|)
    case ArbitrateRound(counts) => ArbitrateRun(p, sem, st, counts, |counts|)
  }

  function Times(a: Action, n: nat): seq<Action> {
    if n == 0 then [] else Times(a, n - 1) + [a]
  }

  function Selections(counts: seq<nat>, n: nat): seq<Action>
    requires n <= |counts|
  {
    if n == 0 then [] else Selections(counts, n - 1) + Times(Select(n - 1), counts[n - 1])
  }

  function Arbitrations(counts: seq<nat>, n: nat): seq<Action>
    requires n <= |counts|
  {
    if n == 0 then [] else Arbitrations(counts, n - 1) + Times(Arbitrate(n - 1), counts[n - 1])
  }

  function ActionsOf(h: Handler): seq<Action> {
    match h
    case Group(a, n) => Times(a, n)
    case SelectRound(counts) => Selections(counts, |counts|)
    case ArbitrateRound(counts) => Arbitrations(counts, |counts|)
  }

  lemma {:induction false} Regroup(p: Params, sem: Semantics, acts: seq<Action>, more: seq<Action>, last: seq<Action>,
                                   both: seq<Action>, st: Pipe)
    requires Driven(p, sem, acts + more + last, st) && both == more + last
    ensures Driven(p, sem, acts + both, st)
  {
    assert acts + more + last == acts + both;
  }

  lemma {:induction false} RepeatIsDriven(p: Params, sem: Semantics, acts: seq<Action>, st: Pipe, a: Action, n: nat,
                                          st': Pipe)
    requires Driven(p, sem, acts, st) && RepeatAct(p, sem, st, a, n) == Some(st')
    ensures Driven(p, sem, acts + Times(a, n), st')
  {
    if n == 0 {
      assert acts + Times(a, 0) == acts;
    } else {
      var st1 := RepeatAct(p, sem, st, a, n - 1).value;
      RepeatIsDriven(p, sem, acts, st, a, n - 1, st1);
      DriveSnoc(p, sem, acts + Times(a, n - 1), st1, a);
      Regroup(p, sem, acts, Times(a, n - 1), [a], Times(a, n), st');
    }
  }

  lemma {:induction false} SelectIsDriven(p: Params, sem: Semantics, acts: seq<Action>, st: Pipe, counts: seq<nat>,
                                          n: nat, st': Pipe)
    requires Driven(p, sem, acts, st) && n <= |counts| && SelectRun(p, sem, st, counts, n) == Some(st')
    ensures Driven(p, sem, acts + Selections(counts, n), st')
  {
    if n == 0 {
      assert acts + [] == acts;
    } else {
      var st1, before := SelectRun(p, sem, st, counts, n - 1).value, acts + Selections(counts, n - 1);
      SelectIsDriven(p, sem, acts, st, counts, n - 1, st1);
      RepeatIsDriven(p, sem, before, st1, Select(n - 1), counts[n - 1], st');
      Regroup(p, sem, acts, Selections(counts, n - 1), Times(Select(n - 1), counts[n - 1]), Selections(counts, n), st');
    }
  }

  lemma {:induction false} ArbitrateIsDriven(p: Params, sem: Semantics, acts: seq<Action>, st: Pipe, counts: seq<nat>,
                                             n: nat, st': Pipe)
    requires Driven(p, sem, acts, st) && n <= |counts| && ArbitrateRun(p, sem, st, counts, n) == Some(st')
    ensures Driven(p, sem, acts + Arbitrations(counts, n), st')
  {
    if n == 0 {
      assert acts + [] == acts;
    } else {
      var st1, before := ArbitrateRun(p, sem, st, counts, n - 1).value, acts + Arbitrations(counts, n - 1);
      ArbitrateIsDriven(p, sem, acts, st, counts, n - 1, st1);
      RepeatIsDriven(p, sem, before, st1, Arbitrate(n - 1), counts[n - 1], st');
      Regroup(p, sem, acts, Arbitrations(counts, n - 1), Times(Arbitrate(n - 1), counts[n - 1]),
              Arbitrations(counts, n), st');
    }
  }

  // Whatever a handler does in a state of a run continues the run.
  lemma {:induction false} HandlerIsDriven(p: Params, sem: Semantics, acts: seq<Action>, st: Pipe, h: Handler,
                                           st': Pipe)
    requires Driven(p, sem, acts, st) && Handled(p, sem, st, h) == Some(st')
    ensures Driven(p, sem, acts + ActionsOf(h), st')
  {
    match h
    case Group(a, n) => RepeatIsDriven(p, sem, acts, st, a, n, st');
    case SelectRound(counts) => SelectIsDriven(p, sem, acts, st, counts, |counts|, st');
    case ArbitrateRound(counts) => ArbitrateIsDriven(p, sem, acts, st, counts, |counts|, st');
  }

  function HandledAll(p: Params, sem: Semantics, st: Pipe, hs: seq<Handler>, n: nat): (r: Option<Pipe>)
    requires WellShaped(p, st) && n <= |hs|
    ensures r.Some? ==> WellShaped(p, r.value)
  {
    if n == 0 then Some(st)
    else
      var r := HandledAll(p, sem, st, hs, n - 1);
      if r.None? then None else Handled(p, sem, r.value, hs[n - 1])
  }

  function AllActions(hs: seq<Handler>, n: nat): seq<Action>
    requires n <= |hs|
  {
    if n == 0 then [] else AllActions(hs, n - 1) + ActionsOf(hs[n - 1])
  }

  lemma {:induction false} HandlersAreDriven(p: Params, sem: Semantics, acts: seq<Action>, st: Pipe, hs: seq<Handler>,
                                             n: nat, st': Pipe)
    requires Driven(p, sem, acts, st) && n <= |hs| && HandledAll(p, sem, st, hs, n) == Some(st')
    ensures Driven(p, sem, acts + AllActions(hs, n), st')
  {
    if n == 0 {
      assert acts + [] == acts;
    } else {
      var st1, before := HandledAll(p, sem, st, hs, n - 1).value, acts + AllActions(hs, n - 1);
      HandlersAreDriven(p, sem, acts, st, hs, n - 1, st1);
      HandlerIsDriven(p, sem, before, st1, hs[n - 1], st');
      Regroup(p, sem, acts, AllActions(hs, n - 1), ActionsOf(hs[n - 1]), AllActions(hs, n), st');
    }
  }
}
