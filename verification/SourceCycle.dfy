/**
  A cycle of the source, handler by handler in the order it fixes: each handler takes all that is in
  its inbox, or as much as it can within its width. From every reachable state such a cycle runs to its
  end: every inbox is empty again and the clock can tick.
 */
module SourceCycle {
  import opened Prelude
  import opened RenameCore
  import opened RenameMachine
  import opened Pipeline
  import opened PipelineLanes
  import opened PipelineInv
  import opened PipelineRun
  import opened HandlerRuns

  /* ---------- inboxes ---------- */

  // How much is waiting for a handler: messages, or one for credit that has been announced.
  function InBox(st: Pipe, b: Action): nat {
    match b
    case InFront(fe) => FrontBox(st.front, fe)
    case InDispatch(de) => DispatchBox(st.disp, de)
    case InRob(re) => RobBox(st.rob, re)
    case InLane(s, le) => if s < |st.lanes| then LaneBox(st.lanes[s], le) else 0
    case RenameCommit => |st.rob.retiring|
    case _ => 0
  }

  function Announced(credit: nat): nat {
    if credit == 0 then 0 else 1
  }

  function FrontBox(f: Front, fe: FrontEvent): nat {
    match fe
    case FetchArrive => |f.arriving|
    case FetchCredit => Announced(f.msg)
    case Fetch(_) => 0
  }

  function DispatchBox(d: Dispatch, de: DispatchEvent): nat {
    match de
    case DispatchArrive => |d.arriving|
    case DispatchCast => |d.cast|
    case DispatchCredit => Announced(d.msg)
    case DispatchPop => 0
  }

  function RobBox(r: Rob, re: RobEvent): nat {
    match re
    case RobArrive => |r.arriving|
    case RobCast => |r.cast|
    case RobCredit => Announced(r.msg)
    case Retire => 0
  }

  function LaneBox(l: Lane, le: LaneEvent): nat {
    match le
    case Arrive => |l.arriving|
    case Forward => |l.forwards|
    case FuArrive => |l.fuArriving|
    case WbArrive => |l.wbArriving|
    case TakeCredit => Announced(l.creditMsg)
    case TakeFuCredit => Announced(l.fuCreditMsg)
    case _ => 0
  }

  lemma {:induction false} QuietWhenEmpty(st: Pipe)
    requires forall b :: InBox(st, b) == 0
    ensures Quiet(st)
  {
    assert InBox(st, InFront(FetchArrive)) == 0 && InBox(st, InFront(FetchCredit)) == 0;
    assert InBox(st, InDispatch(DispatchArrive)) == 0 && InBox(st, InDispatch(DispatchCast)) == 0;
    assert InBox(st, InDispatch(DispatchCredit)) == 0 && InBox(st, InRob(RobCredit)) == 0;
    assert InBox(st, InRob(RobArrive)) == 0 && InBox(st, InRob(RobCast)) == 0 && InBox(st, RenameCommit) == 0;
    forall s | 0 <= s < |st.lanes| ensures LaneQuiet(st.lanes[s]) {
      assert InBox(st, InLane(s, Arrive)) == 0 && InBox(st, InLane(s, Forward)) == 0;
      assert InBox(st, InLane(s, FuArrive)) == 0 && InBox(st, InLane(s, WbArrive)) == 0;
      assert InBox(st, InLane(s, TakeCredit)) == 0 && InBox(st, InLane(s, TakeFuCredit)) == 0;
    }
  }

  // Handlers that put something in another inbox within the cycle.
  predicate Feeds(a: Action, b: Action) {
    match a
    case InLane(s, le) =>
      || (le == Pass && b == InLane(s, TakeCredit))
      || (le == FuFinish && (b == InLane(s, WbArrive) || b == InLane(s, TakeFuCredit)))
    case InRob(re) => re == Retire && (b == RenameCommit || b == InRob(RobCredit))
    case Select(_) => b == InDispatch(DispatchCredit)
    case RenameOne => b == InFront(FetchCredit)
    case Tick => true
    case _ => false
  }

  lemma {:induction false} LaneFeeds(all: seq<Renamed>, l: Lane, s: nat, le: LaneEvent, le': LaneEvent)
    requires LaneEnabled(all, l, le) && !Feeds(InLane(s, le), InLane(s, le'))
    ensures LaneBox(LaneNext(all, l, le), le') <= LaneBox(l, le')
  {
  }

  lemma {:induction false} FeedsNothingElse(p: Params, sem: Semantics, st: Pipe, a: Action, b: Action)
    requires WellShaped(p, st) && Allowed(p, st, a) && !Feeds(a, b)
    ensures InBox(Act(p, sem, st, a), b) <= InBox(st, b)
  {
    match a
    case InLane(s, le) =>
      if b.InLane? && b.s == s {
        LaneFeeds(st.core.all, st.lanes[s], s, le, b.le);
      }
    case _ =>
  }

  lemma {:induction false} TakesOne(p: Params, sem: Semantics, st: Pipe, b: Action)
    requires WellShaped(p, st) && Allowed(p, st, b) && InBox(st, b) > 0
    ensures InBox(Act(p, sem, st, b), b) == InBox(st, b) - 1
  {
  }

  // A result is forwarded only when nothing is waiting to be allocated.
  predicate Unguarded(st: Pipe, b: Action) {
    b.InLane? && b.le == Forward ==> InBox(st, InLane(b.s, Arrive)) == 0
  }

  lemma {:induction false} LaneInboxReady(p: Params, sem: Semantics, acts: seq<Action>, st: Pipe, s: nat, le: LaneEvent)
    requires Driven(p, sem, acts, st) && s < |st.lanes| && LaneBox(st.lanes[s], le) > 0
    requires le == Forward ==> st.lanes[s].arriving == []
    ensures LaneEnabled(st.core.all, st.lanes[s], le)
  {
    RunLanes(p, sem, acts, st);
    RunCast(p, sem, acts, st);
    var l, b := st.lanes[s], Allocated(|st.core.all|, st.rob);
    assert LaneOk(st.core.all, st.core.done, st.cast, Dispatched(|st.core.all|, st.disp), b, l);
    if le == Arrive {
      assert WaitingOk(st.core.all, st.core.done, st.cast, l.forwards, b, l.arriving[0]);
    } else if le == Forward {
      assert InboxOk(st.core.done, st.cast, l.forwards);
      assert Seen(st.core.done, st.cast, l.forwards[0]);
    }
  }

  // In every reachable state what is waiting can be handled.
  lemma {:induction false} InboxReady(p: Params, sem: Semantics, acts: seq<Action>, st: Pipe, b: Action)
    requires Driven(p, sem, acts, st) && InBox(st, b) > 0 && Unguarded(st, b)
    ensures Allowed(p, st, b)
  {
    RunOrder(p, sem, acts, st);
    RunCast(p, sem, acts, st);
    match b
    case InLane(s, le) => LaneInboxReady(p, sem, acts, st, s, le);
    case InDispatch(de) =>
      if de == DispatchCast {
        assert Seen(st.core.done, st.cast, st.disp.cast[0]);
      }
    case RenameCommit => RetirementInOrder(p, sem, acts, st);
    case _ =>
  }

  /* ---------- tasks ---------- */

  // A handler empties its inbox, or does something as often as it can within a width.
  datatype Task = Whole(a: Action) | UpTo(a: Action, width: nat)

  // How often `a` can be done in a row, at most `limit` times.
  function Most(p: Params, sem: Semantics, st: Pipe, a: Action, limit: nat): (k: nat)
    requires WellShaped(p, st)
    ensures k <= limit && RepeatAct(p, sem, st, a, k).Some?
    ensures k < limit ==> !Allowed(p, RepeatAct(p, sem, st, a, k).value, a)
  {
    if limit == 0 then 0
    else
      var k := Most(p, sem, st, a, limit - 1);
      if k == limit - 1 && Allowed(p, RepeatAct(p, sem, st, a, k).value, a) then limit else k
  }

  function Times(p: Params, sem: Semantics, st: Pipe, t: Task): nat
    requires WellShaped(p, st)
  {
    Most(p, sem, st, t.a, match t case Whole(a) => InBox(st, a) case UpTo(_, w) => w)
  }

  function AfterTask(p: Params, sem: Semantics, st: Pipe, t: Task): (st': Pipe)
    requires WellShaped(p, st)
    ensures WellShaped(p, st')
  {
    RepeatAct(p, sem, st, t.a, Times(p, sem, st, t)).value
  }

  function AfterTasks(p: Params, sem: Semantics, st: Pipe, ts: seq<Task>, n: nat): (st': Pipe)
    requires WellShaped(p, st) && n <= |ts|
    ensures WellShaped(p, st')
  {
    if n == 0 then st else AfterTask(p, sem, AfterTasks(p, sem, st, ts, n - 1), ts[n - 1])
  }

  // The handlers with how often each of them did its action.
  function Doings(p: Params, sem: Semantics, st: Pipe, ts: seq<Task>, n: nat): (hs: seq<Handler>)
    requires WellShaped(p, st) && n <= |ts|
    ensures |hs| == n
  {
    if n == 0 then []
    else
      var before := AfterTasks(p, sem, st, ts, n - 1);
      Doings(p, sem, st, ts, n - 1) + [Group(ts[n - 1].a, Times(p, sem, before, ts[n - 1]))]
  }

  lemma {:induction false} HandledPrefix(p: Params, sem: Semantics, st: Pipe, hs: seq<Handler>, h: Handler, n: nat)
    requires WellShaped(p, st) && n <= |hs|
    ensures HandledAll(p, sem, st, hs + [h], n) == HandledAll(p, sem, st, hs, n)
  {
    if n > 0 {
      HandledPrefix(p, sem, st, hs, h, n - 1);
      assert (hs + [h])[n - 1] == hs[n - 1];
    }
  }

  lemma {:induction false} HandledMore(p: Params, sem: Semantics, st: Pipe, hs: seq<Handler>, h: Handler, n: nat,
                                       st1: Pipe)
    requires WellShaped(p, st) && n == |hs| + 1 && HandledAll(p, sem, st, hs, n - 1) == Some(st1)
    ensures HandledAll(p, sem, st, hs + [h], n) == Handled(p, sem, st1, h)
  {
    HandledPrefix(p, sem, st, hs, h, n - 1);
    assert (hs + [h])[n - 1] == h;
  }

  lemma {:induction false} TasksAreHandled(p: Params, sem: Semantics, st: Pipe, ts: seq<Task>, n: nat)
    requires WellShaped(p, st) && n <= |ts|
    ensures HandledAll(p, sem, st, Doings(p, sem, st, ts, n), n) == Some(AfterTasks(p, sem, st, ts, n))
  {
    if n > 0 {
      TasksAreHandled(p, sem, st, ts, n - 1);
      var hs := Doings(p, sem, st, ts, n - 1);
      var st1 := AfterTasks(p, sem, st, ts, n - 1);
      HandledMore(p, sem, st, hs, Group(ts[n - 1].a, Times(p, sem, st1, ts[n - 1])), n, st1);
    }
  }

  lemma {:induction false} TasksAreDriven(p: Params, sem: Semantics, acts: seq<Action>, st: Pipe, ts: seq<Task>, n: nat)
    requires Driven(p, sem, acts, st) && n <= |ts|
    ensures Driven(p, sem, acts + AllActions(Doings(p, sem, st, ts, n), n), AfterTasks(p, sem, st, ts, n))
  {
    TasksAreHandled(p, sem, st, ts, n);
    HandlersAreDriven(p, sem, acts, st, Doings(p, sem, st, ts, n), n, AfterTasks(p, sem, st, ts, n));
  }

  lemma {:induction false} TasksReach(p: Params, sem: Semantics, acts: seq<Action>, st: Pipe, ts: seq<Task>, n: nat)
    returns (acts': seq<Action>)
    requires Driven(p, sem, acts, st) && n <= |ts|
    ensures Driven(p, sem, acts', AfterTasks(p, sem, st, ts, n))
  {
    TasksAreDriven(p, sem, acts, st, ts, n);
    acts' := acts + AllActions(Doings(p, sem, st, ts, n), n);
  }

  /* ---------- what empties an inbox ---------- */

  lemma {:induction false} RepeatFeeds(p: Params, sem: Semantics, st: Pipe, a: Action, n: nat, b: Action)
    requires WellShaped(p, st) && RepeatAct(p, sem, st, a, n).Some? && !Feeds(a, b)
    ensures InBox(RepeatAct(p, sem, st, a, n).value, b) <= InBox(st, b)
  {
    if n > 0 {
      RepeatFeeds(p, sem, st, a, n - 1, b);
      FeedsNothingElse(p, sem, RepeatAct(p, sem, st, a, n - 1).value, a, b);
    }
  }

  lemma {:induction false} RepeatTakes(p: Params, sem: Semantics, st: Pipe, b: Action, n: nat)
    requires WellShaped(p, st) && RepeatAct(p, sem, st, b, n).Some? && n <= InBox(st, b)
    ensures InBox(RepeatAct(p, sem, st, b, n).value, b) == InBox(st, b) - n
  {
    if n > 0 {
      RepeatTakes(p, sem, st, b, n - 1);
      TakesOne(p, sem, RepeatAct(p, sem, st, b, n - 1).value, b);
    }
  }

  lemma {:induction false} WholeEmpties(p: Params, sem: Semantics, acts: seq<Action>, st: Pipe, b: Action)
    requires Driven(p, sem, acts, st) && Unguarded(st, b)
    ensures InBox(AfterTask(p, sem, st, Whole(b)), b) == 0
  {
    var k := Times(p, sem, st, Whole(b));
    var st' := RepeatAct(p, sem, st, b, k).value;
    RepeatTakes(p, sem, st, b, k);
    if k < InBox(st, b) {
      RepeatIsDriven(p, sem, acts, st, b, k, st');
      if b.InLane? && b.le == Forward {
        RepeatFeeds(p, sem, st, b, k, InLane(b.s, Arrive));
      }
      InboxReady(p, sem, acts + HandlerRuns.Times(b, k), st', b);
    }
  }

  // After the first `n` tasks the inbox `b` is empty: one of them empties it, allocation before
  // forwarding, and none after that puts anything in.
  predicate Ends(ts: seq<Task>, n: nat, b: Action)
    requires n <= |ts|
    decreases n
  {
    && n > 0
    && (|| (ts[n - 1] == Whole(b) && (b.InLane? && b.le == Forward ==> Ends(ts, n - 1, InLane(b.s, Arrive))))
        || (!Feeds(ts[n - 1].a, b) && Ends(ts, n - 1, b)))
  }

  lemma {:induction false} WholeStep(p: Params, sem: Semantics, acts: seq<Action>, st: Pipe, ts: seq<Task>, n: nat,
                                     b: Action)
    requires Driven(p, sem, acts, st) && 0 < n <= |ts| && ts[n - 1] == Whole(b)
    requires Unguarded(AfterTasks(p, sem, st, ts, n - 1), b)
    ensures InBox(AfterTasks(p, sem, st, ts, n), b) == 0
  {
    var before := TasksReach(p, sem, acts, st, ts, n - 1);
    WholeEmpties(p, sem, before, AfterTasks(p, sem, st, ts, n - 1), b);
  }

  lemma {:induction false} OtherStep(p: Params, sem: Semantics, st: Pipe, ts: seq<Task>, n: nat, b: Action)
    requires WellShaped(p, st) && 0 < n <= |ts| && !Feeds(ts[n - 1].a, b)
    requires InBox(AfterTasks(p, sem, st, ts, n - 1), b) == 0
    ensures InBox(AfterTasks(p, sem, st, ts, n), b) == 0
  {
    var st0 := AfterTasks(p, sem, st, ts, n - 1);
    RepeatFeeds(p, sem, st0, ts[n - 1].a, Times(p, sem, st0, ts[n - 1]), b);
  }

  lemma {:induction false} EndsEmpty(p: Params, sem: Semantics, acts: seq<Action>, st: Pipe, ts: seq<Task>, n: nat,
                                     b: Action)
    requires Driven(p, sem, acts, st) && n <= |ts| && Ends(ts, n, b)
    ensures InBox(AfterTasks(p, sem, st, ts, n), b) == 0
    decreases n
  {
    if ts[n - 1] == Whole(b) && (b.InLane? && b.le == Forward ==> Ends(ts, n - 1, InLane(b.s, Arrive))) {
      if b.InLane? && b.le == Forward {
        EndsEmpty(p, sem, acts, st, ts, n - 1, InLane(b.s, Arrive));
      }
      WholeStep(p, sem, acts, st, ts, n, b);
    } else {
      EndsEmpty(p, sem, acts, st, ts, n - 1, b);
      OtherStep(p, sem, st, ts, n, b);
    }
  }

  lemma {:induction false} EndsAfter(before: seq<Task>, ts: seq<Task>, n: nat, b: Action)
    requires n <= |ts| && Ends(ts, n, b)
    ensures Ends(before + ts, |before| + n, b)
    decreases n
  {
    assert (before + ts)[|before| + n - 1] == ts[n - 1];
    if ts[n - 1] == Whole(b) && (b.InLane? && b.le == Forward ==> Ends(ts, n - 1, InLane(b.s, Arrive))) {
      if b.InLane? && b.le == Forward {
        EndsAfter(before, ts, n - 1, InLane(b.s, Arrive));
      }
    } else {
      EndsAfter(before, ts, n - 1, b);
    }
  }

  predicate NoneFeeds(ts: seq<Task>, b: Action) {
    forall i | 0 <= i < |ts| :: !Feeds(ts[i].a, b)
  }

  lemma {:induction false} EndsPrefix(ts: seq<Task>, after: seq<Task>, n: nat, b: Action)
    requires n <= |ts|
    ensures Ends(ts + after, n, b) == Ends(ts, n, b)
    decreases n
  {
    if n > 0 {
      assert (ts + after)[n - 1] == ts[n - 1];
      EndsPrefix(ts, after, n - 1, b);
      if b.InLane? {
        EndsPrefix(ts, after, n - 1, InLane(b.s, Arrive));
      }
    }
  }

  lemma {:induction false} EndsBefore(ts: seq<Task>, after: seq<Task>, n: nat, b: Action)
    requires n <= |after| && Ends(ts, |ts|, b) && NoneFeeds(after, b)
    ensures Ends(ts + after, |ts| + n, b)
    decreases n
  {
    if n == 0 {
      EndsPrefix(ts, after, |ts|, b);
    } else {
      EndsBefore(ts, after, n - 1, b);
      assert (ts + after)[|ts| + n - 1] == after[n - 1];
    }
  }

  /* ---------- the cycle ---------- */

  // What one cycle leaves open: the widths of the handlers that have one, and what is fetched.
  datatype LaneLimits = LaneLimits(pop: nat, pass: nat, finish: nat, arbitrate: nat, select: nat)
  datatype Limits = Limits(lanes: seq<LaneLimits>, pop: nat, retire: nat, rename: nat, fetched: seq<Inst>)

  // The station allocates before it forwards and then passes; the unit writes back after its arrivals,
  // and the write-back stage gets the results in the same cycle.
  function LaneTasks(s: nat, w: LaneLimits): seq<Task> {
    [Whole(InLane(s, Arrive)), Whole(InLane(s, Forward)), UpTo(InLane(s, Pop), w.pop), UpTo(InLane(s, Pass), w.pass),
     Whole(InLane(s, FuArrive)), UpTo(InLane(s, FuFinish), w.finish), Whole(InLane(s, WbArrive)),
     Whole(InLane(s, TakeCredit)), Whole(InLane(s, TakeFuCredit))]
  }

  function LanesTasks(ws: seq<LaneLimits>, n: nat): (ts: seq<Task>)
    requires n <= |ws|
    ensures forall i | 0 <= i < |ts| :: ts[i].a.InLane? && ts[i].a.s < n
  {
    if n == 0 then [] else LanesTasks(ws, n - 1) + LaneTasks(n - 1, ws[n - 1])
  }

  function ArbitrateTasks(ws: seq<LaneLimits>): (ts: seq<Task>)
    ensures forall i | 0 <= i < |ts| :: ts[i].a.Arbitrate?
  {
    seq(|ws|, s requires 0 <= s < |ws| => UpTo(Arbitrate(s), ws[s].arbitrate))
  }

  function SelectTasks(ws: seq<LaneLimits>): (ts: seq<Task>)
    ensures forall i | 0 <= i < |ts| :: ts[i].a.Select?
  {
    seq(|ws|, s requires 0 <= s < |ws| => UpTo(Select(s), ws[s].select))
  }

  function FetchTasks(fetched: seq<Inst>): (ts: seq<Task>)
    ensures forall i | 0 <= i < |ts| :: ts[i].a.InFront?
  {
    seq(|fetched|, i requires 0 <= i < |fetched| => UpTo(InFront(Fetch(fetched[i])), 1))
  }

  // Results and renamed instructions reach dispatch and the reorder buffer first; ...
  const ARRIVALS := [Whole(InDispatch(DispatchCast)), Whole(InRob(RobCast)),
                     Whole(InDispatch(DispatchArrive)), Whole(InRob(RobArrive))]

  // ... retirement and commit come before renaming, and credit is taken when all has been announced.
  function Closing(w: Limits): seq<Task> {
    [UpTo(InRob(Retire), w.retire), Whole(RenameCommit), Whole(InDispatch(DispatchCredit)), Whole(InRob(RobCredit)),
     Whole(InFront(FetchArrive)), UpTo(RenameOne, w.rename), Whole(InFront(FetchCredit))]
  }

  // Up to and including selection, which comes after the results and the arrivals.
  function OpeningTasks(w: Limits): seq<Task> {
    ARRIVALS + LanesTasks(w.lanes, |w.lanes|) + ArbitrateTasks(w.lanes) + [UpTo(InDispatch(DispatchPop), w.pop)]
    + SelectTasks(w.lanes)
  }

  function CycleTasks(w: Limits): seq<Task> {
    OpeningTasks(w) + Closing(w) + FetchTasks(w.fetched)
  }

  // One lane's tasks empty its inboxes.
  lemma {:induction false} LaneEnds(s: nat, w: LaneLimits, le: LaneEvent)
    requires le !in {Pass, Pop, FuFinish}
    ensures Ends(LaneTasks(s, w), |LaneTasks(s, w)|, InLane(s, le))
  {
    var ts, b := LaneTasks(s, w), InLane(s, le);
    assert Ends(ts, 1, InLane(s, Arrive));
    match le
    case Arrive => assert Ends(ts, 3, b) && Ends(ts, 5, b) && Ends(ts, 7, b);
    case Forward => assert Ends(ts, 2, b) && Ends(ts, 4, b) && Ends(ts, 6, b) && Ends(ts, 8, b);
    case FuArrive => assert Ends(ts, 5, b) && Ends(ts, 7, b);
    case WbArrive => assert Ends(ts, 7, b);
    case TakeCredit => assert Ends(ts, 8, b);
    case TakeFuCredit =>
  }

  lemma {:induction false} LanesEnd(ws: seq<LaneLimits>, n: nat, s: nat, le: LaneEvent)
    requires s < n <= |ws| && le !in {Pass, Pop, FuFinish}
    ensures Ends(LanesTasks(ws, n), |LanesTasks(ws, n)|, InLane(s, le))
  {
    var before, ts := LanesTasks(ws, n - 1), LaneTasks(n - 1, ws[n - 1]);
    if s == n - 1 {
      LaneEnds(s, ws[s], le);
      EndsAfter(before, ts, |ts|, InLane(s, le));
    } else {
      LanesEnd(ws, n - 1, s, le);
      EndsBefore(before, ts, |ts|, InLane(s, le));
    }
  }

  lemma {:induction false} ArrivalsEnd(b: Action)
    requires Whole(b) in ARRIVALS
    ensures Ends(ARRIVALS, 4, b)
  {
    assert Ends(ARRIVALS, 1, InDispatch(DispatchCast)) && Ends(ARRIVALS, 2, InRob(RobCast));
    assert Ends(ARRIVALS, 3, InDispatch(DispatchArrive)) && Ends(ARRIVALS, 2, InDispatch(DispatchCast));
  }

  lemma {:induction false} ClosingEnds(w: Limits, b: Action)
    requires Whole(b) in Closing(w)
    ensures Ends(Closing(w), 7, b)
  {
    var ts := Closing(w);
    assert Ends(ts, 2, RenameCommit) && Ends(ts, 3, InDispatch(DispatchCredit)) && Ends(ts, 4, InRob(RobCredit));
    assert Ends(ts, 5, InFront(FetchArrive)) && Ends(ts, 7, InFront(FetchCredit));
    assert b != InFront(FetchCredit) ==> Ends(ts, 5, b) && Ends(ts, 6, b);
  }

  // The handlers that empty an inbox of their own.
  predicate HasTask(w: Limits, b: Action) {
    || Whole(b) in ARRIVALS || Whole(b) in Closing(w)
    || (b.InLane? && b.s < |w.lanes| && b.le !in {Pass, Pop, FuFinish})
  }

  // Nothing from arbitration to selection puts anything in these inboxes, and no lane in those of dispatch
  // and the reorder buffer.
  lemma {:induction false} RestFeedsNone(w: Limits, b: Action)
    requires Whole(b) in ARRIVALS || (b.InLane? && b.le !in {Pass, Pop, FuFinish})
    ensures NoneFeeds(ArbitrateTasks(w.lanes), b) && NoneFeeds([UpTo(InDispatch(DispatchPop), w.pop)], b)
    ensures NoneFeeds(SelectTasks(w.lanes), b)
  {
  }

  lemma {:induction false} LanesFeedNone(w: Limits, b: Action)
    requires Whole(b) in ARRIVALS
    ensures NoneFeeds(LanesTasks(w.lanes, |w.lanes|), b)
  {
  }

  lemma {:induction false} OpeningEnds(w: Limits, b: Action)
    requires Whole(b) in ARRIVALS || (b.InLane? && b.s < |w.lanes| && b.le !in {Pass, Pop, FuFinish})
    ensures Ends(OpeningTasks(w), |OpeningTasks(w)|, b)
  {
    var lanes, arb := LanesTasks(w.lanes, |w.lanes|), ArbitrateTasks(w.lanes);
    var pop, sel := [UpTo(InDispatch(DispatchPop), w.pop)], SelectTasks(w.lanes);
    if b.InLane? {
      LanesEnd(w.lanes, |w.lanes|, b.s, b.le);
      EndsAfter(ARRIVALS, lanes, |lanes|, b);
    } else {
      ArrivalsEnd(b);
      LanesFeedNone(w, b);
      EndsBefore(ARRIVALS, lanes, |lanes|, b);
    }
    RestFeedsNone(w, b);
    EndsBefore(ARRIVALS + lanes, arb, |arb|, b);
    EndsBefore(ARRIVALS + lanes + arb, pop, 1, b);
    EndsBefore(ARRIVALS + lanes + arb + pop, sel, |sel|, b);
  }

  lemma {:induction false} CycleEnds(w: Limits, b: Action)
    requires HasTask(w, b)
    ensures Ends(CycleTasks(w), |CycleTasks(w)|, b)
  {
    var opening, closing, fetch := OpeningTasks(w), Closing(w), FetchTasks(w.fetched);
    if Whole(b) in closing {
      ClosingEnds(w, b);
      EndsAfter(opening, closing, 7, b);
    } else {
      OpeningEnds(w, b);
      EndsBefore(opening, closing, 7, b);
    }
    EndsBefore(opening + closing, fetch, |fetch|, b);
  }

  lemma {:induction false} NoInBox(st: Pipe, w: Limits, b: Action)
    requires |st.lanes| == |w.lanes| && !HasTask(w, b)
    ensures InBox(st, b) == 0
  {
    assert ARRIVALS[0] == Whole(InDispatch(DispatchCast)) && ARRIVALS[1] == Whole(InRob(RobCast));
    assert ARRIVALS[2] == Whole(InDispatch(DispatchArrive)) && ARRIVALS[3] == Whole(InRob(RobArrive));
    var c := Closing(w);
    assert c[1] == Whole(RenameCommit) && c[2] == Whole(InDispatch(DispatchCredit)) && c[3] == Whole(InRob(RobCredit));
    assert c[4] == Whole(InFront(FetchArrive)) && c[6] == Whole(InFront(FetchCredit));
  }

  // After the tick every inbox holds what was sent in the cycle, and the results broadcast in it.
  predicate Delivers(st: Pipe, st': Pipe) {
    && st'.front.arriving == st.front.sent && st'.disp.arriving == st.disp.sent && st'.rob.arriving == st.rob.sent
    && st'.disp.cast == st.cast && st'.rob.cast == st.cast && |st'.lanes| == |st.lanes|
    && forall s | 0 <= s < |st.lanes| ::
         st'.lanes[s].arriving == st.lanes[s].sent && st'.lanes[s].forwards == st.cast
         && st'.lanes[s].fuArriving == st.lanes[s].fuSent
  }

  // Main result: from every reachable state, whatever the widths and whatever is fetched, a whole cycle
  // of the source runs to its end. Every handler takes all that is in its inbox or as much as it can
  // within its width, all inboxes are empty, the clock can tick, each inbox then holds what was sent, and
  // the state reached is one of a run again.
  lemma {:induction false} CycleIsDriven(p: Params, sem: Semantics, acts: seq<Action>, st: Pipe, w: Limits)
    requires Driven(p, sem, acts, st) && |w.lanes| == |p.lanes|
    ensures var ts := CycleTasks(w);
            var end, hs := AfterTasks(p, sem, st, ts, |ts|), Doings(p, sem, st, ts, |ts|);
            && HandledAll(p, sem, st, hs, |hs|) == Some(end)
            && Quiet(end) && Allowed(p, end, Tick) && Delivers(end, AfterTick(p, end))
            && Driven(p, sem, acts + AllActions(hs, |hs|) + [Tick], AfterTick(p, end))
  {
    var ts := CycleTasks(w);
    var end, hs := AfterTasks(p, sem, st, ts, |ts|), Doings(p, sem, st, ts, |ts|);
    TasksAreHandled(p, sem, st, ts, |ts|);
    TasksAreDriven(p, sem, acts, st, ts, |ts|);
    forall b ensures InBox(end, b) == 0 {
      if HasTask(w, b) {
        CycleEnds(w, b);
        EndsEmpty(p, sem, acts, st, ts, |ts|, b);
      } else {
        NoInBox(end, w, b);
      }
    }
    QuietWhenEmpty(end);
    DriveSnoc(p, sem, acts + AllActions(hs, |hs|), end, Tick);
  }
}
