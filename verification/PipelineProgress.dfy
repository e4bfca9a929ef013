/**
  The pipeline makes progress on every schedule that runs a handler whenever it has something to do.
  Once fetching stops, no such schedule can run for ever without idling, and none can get stuck
  before everything fetched has been committed, exactly when every fetched instruction is of a type
  some lane supports. The function units keep a schedule of their own: see PacedPipeline.
 */
module PipelineProgress {
  import opened RenameCore
  import opened RenameMachine
  import opened Speculation
  import opened Pipeline
  import opened PipelineLanes
  import opened PipelineInv
  import opened PipelineRun
  import opened PipelineRank

  /* ---------- a lane takes instructions of its types in program order ---------- */

  // Every queue entry the lane could still take is younger than `v`.
  predicate Precedes(all: seq<Renamed>, supports: set<nat>, q: seq<Entry<()>>, v: nat) {
    forall j | 0 <= j < |q| && Eligible(all, supports, q[j]) :: v < q[j].uid
  }

  predicate LaneOrderAt(p: Params, st: Pipe, s: nat, v: nat)
    requires s < |p.lanes| && s < |st.lanes|
  {
    LaneCount(st.lanes[s], v) > 0 ==> Precedes(st.core.all, p.lanes[s].supports, st.disp.queue, v)
  }

  // What is in a lane has left the dispatch queue.
  lemma {:induction false} InLaneIsDispatched(st: Pipe, s: nat, v: nat)
    requires PlacedOk(st) && OrderOk(st) && |st.core.all| == |st.core.done| && s < |st.lanes|
    requires LaneCount(st.lanes[s], v) > 0
    ensures v < Dispatched(|st.core.all|, st.disp)
  {
    LanesCountMember(st.lanes, s, v);
    assert PlacedAt(st.disp, st.lanes, st.core.done, v);
    var a := Arrived(|st.core.all|, st.disp);
    if v >= a {
      CountMember(st.disp.sent, v - a);
    } else if v >= Dispatched(|st.core.all|, st.disp) {
      CountMember(st.disp.arriving, v - Dispatched(|st.core.all|, st.disp));
    }
  }

  lemma {:induction false} PrecedesArrive(all: seq<Renamed>, supports: set<nat>, d: Dispatch, v: nat)
    requires DispatchEnabled(all, d, DispatchArrive) && v < d.arriving[0]
    requires Precedes(all, supports, d.queue, v)
    ensures Precedes(all, supports, DispatchNext(all, d, DispatchArrive).queue, v)
  {
  }

  // The lane takes the first entry it may take, so those left are younger.
  lemma {:induction false} PrecedesSelect(all: seq<Renamed>, supports: set<nat>, types: set<nat>, bound: nat,
                                          q: seq<Entry<()>>, v: nat)
    requires QueueOk(bound, q) && FirstEligible(all, supports, q) < |q|
    ensures var k := FirstEligible(all, supports, q);
            var q' := q[k := q[k].(issued := true)];
            && Precedes(all, supports, q', q[k].uid)
            && (Precedes(all, types, q, v) ==> Precedes(all, types, q', v))
  {
  }

  lemma {:induction false} LaneOrderSelect(p: Params, sem: Semantics, st: Pipe, s': nat, s: nat, v: nat)
    requires WellShaped(p, st) && Allowed(p, st, Select(s')) && s < |st.lanes| && OrderOk(st)
    requires LaneOrderAt(p, st, s, v)
    ensures LaneOrderAt(p, Act(p, sem, st, Select(s')), s, v)
  {
    PrecedesSelect(st.core.all, p.lanes[s'].supports, p.lanes[s].supports,
                   Dispatched(|st.core.all|, st.disp), st.disp.queue, v);
    if s' == s {
      var l' := AfterSelect(p, st, s).lanes[s];
      LaneSentCount(st.lanes[s], l', l'.sent[|l'.sent| - 1], v);
    }
  }

  lemma {:induction false} LaneOrderStep(p: Params, sem: Semantics, st: Pipe, a: Action, s: nat, v: nat)
    requires WellShaped(p, st) && Allowed(p, st, a) && s < |st.lanes|
    requires OrderOk(st) && PlacedOk(st) && LaneOrderAt(p, st, s, v)
    ensures LaneOrderAt(p, Act(p, sem, st, a), s, v)
  {
    if a.Select? {
      LaneOrderSelect(p, sem, st, a.s, s, v);
    } else {
      LaneCountAfter(p, sem, st, a, s, v);
      if LaneCount(st.lanes[s], v) > 0 && a == InDispatch(DispatchArrive) {
        InLaneIsDispatched(st, s, v);
        PrecedesArrive(st.core.all, p.lanes[s].supports, st.disp, v);
      }
    }
  }

  lemma {:induction false} RunLaneOrder(p: Params, sem: Semantics, acts: seq<Action>, st: Pipe, s: nat, v: nat)
    requires Driven(p, sem, acts, st) && s < |st.lanes|
    ensures LaneOrderAt(p, st, s, v)
  {
    if acts != [] {
      var acts' := acts[..|acts| - 1];
      var st0 := Drive(p, sem, acts').value;
      RunLaneOrder(p, sem, acts', st0, s, v);
      RunOrder(p, sem, acts', st0);
      RunPlacedAll(p, sem, acts', st0);
      LaneOrderStep(p, sem, st0, acts[|acts| - 1], s, v);
    }
  }

  /* ---------- no result is lost on its way to the reorder buffer ---------- */

  predicate MarkedOk(done: seq<bool>, cast: seq<nat>, r: Rob) {
    forall i | 0 <= i < |r.entries| && Seen(done, cast, r.entries[i].uid) && r.entries[i].uid !in r.cast ::
      r.entries[i].finish
  }

  lemma {:induction false} MarkedRob(done: seq<bool>, cast: seq<nat>, r: Rob, re: RobEvent)
    requires RobEnabled(r, re) && MarkedOk(done, cast, r)
    requires re == RobArrive ==> !Seen(done, cast, r.arriving[0])
    ensures MarkedOk(done, cast, RobNext(r, re))
  {
  }

  lemma {:induction false} MarkedStep(p: Params, sem: Semantics, st: Pipe, a: Action)
    requires WellShaped(p, st) && Allowed(p, st, a) && OrderOk(st)
    requires MarkedOk(st.core.done, st.cast, st.rob)
    requires a == InRob(RobArrive) ==> !Seen(st.core.done, st.cast, st.rob.arriving[0])
    ensures var st' := Act(p, sem, st, a); MarkedOk(st'.core.done, st'.cast, st'.rob)
  {
    if a.InRob? {
      MarkedRob(st.core.done, st.cast, st.rob, a.re);
    }
  }

  // A result that is no longer in transit has marked its entry.
  lemma {:induction false} RunMarked(p: Params, sem: Semantics, acts: seq<Action>, st: Pipe)
    requires Driven(p, sem, acts, st)
    ensures MarkedOk(st.core.done, st.cast, st.rob)
  {
    if acts != [] {
      var acts', a := acts[..|acts| - 1], acts[|acts| - 1];
      var st0 := Drive(p, sem, acts').value;
      RunMarked(p, sem, acts', st0);
      RunOrder(p, sem, acts', st0);
      if a == InRob(RobArrive) && Seen(st0.core.done, st0.cast, st0.rob.arriving[0]) {
        RunDoneAllocated(p, sem, acts', st0, st0.rob.arriving[0]);
      }
      MarkedStep(p, sem, st0, a);
    }
  }

  /* ---------- the fetched stream ---------- */

  function Insts(all: seq<Renamed>): seq<Inst> {
    seq(|all|, i requires 0 <= i < |all| => all[i].inst)
  }

  // Everything fetched so far, in program order.
  function Stream(st: Pipe): seq<Inst> {
    Insts(st.core.all) + st.front.queue + st.front.arriving + st.front.sent
  }

  lemma {:induction false} StreamRename(p: Params, sem: Semantics, st: Pipe)
    requires WellShaped(p, st) && Allowed(p, st, RenameOne)
    ensures Stream(Act(p, sem, st, RenameOne)) == Stream(st)
  {
    var st' := Act(p, sem, st, RenameOne);
    assert Insts(st'.core.all) == Insts(st.core.all) + [st.front.queue[0]];
    assert [st.front.queue[0]] + st'.front.queue == st.front.queue;
  }

  // Only fetching extends the stream; nothing is ever dropped from it or reordered.
  lemma {:induction false} StreamStep(p: Params, sem: Semantics, st: Pipe, a: Action)
    requires WellShaped(p, st) && Allowed(p, st, a)
    ensures Stream(Act(p, sem, st, a)) == Stream(st) + if Fetches(a) then [a.fe.inst] else []
  {
    var f, f' := st.front, Act(p, sem, st, a).front;
    match a
    case InFront(fe) =>
      if fe == FetchArrive {
        assert f'.queue + f'.arriving == f.queue + f.arriving;
      }
    case RenameOne => StreamRename(p, sem, st);
    case Arbitrate(s) => assert Act(p, sem, st, a).core.all == st.core.all;
    case _ =>
  }

  predicate StreamOk(cfg: Config, stream: seq<Inst>) {
    forall i | 0 <= i < |stream| :: Encodable(cfg, stream[i])
  }

  lemma {:induction false} RunStream(p: Params, sem: Semantics, acts: seq<Action>, st: Pipe)
    requires Driven(p, sem, acts, st)
    ensures StreamOk(p.regs, Stream(st))
  {
    if acts != [] {
      var st0 := Drive(p, sem, acts[..|acts| - 1]).value;
      RunStream(p, sem, acts[..|acts| - 1], st0);
      StreamStep(p, sem, st0, acts[|acts| - 1]);
    }
  }

  /* ---------- some handler can always do something ---------- */

  // Every buffer has room for one instruction, and there are more physical than architectural registers.
  predicate Roomy(p: Params) {
    && p.regs.phyRegs > p.regs.isaRegs && p.dispDepth > 0 && p.robDepth > 0
    && forall s | 0 <= s < |p.lanes| :: p.lanes[s].depth > 0 && p.lanes[s].fuDepth > 0
  }

  predicate Supported(p: Params, fu: nat) {
    exists s :: 0 <= s < |p.lanes| && fu in p.lanes[s].supports
  }

  predicate Served(p: Params, stream: seq<Inst>) {
    forall i | 0 <= i < |stream| :: Supported(p, stream[i].fu)
  }

  predicate Drained(st: Pipe) {
    st.core.committed == |Stream(st)|
  }

  // An action other than fetching that is possible and changes something.
  predicate Effective(p: Params, sem: Semantics, st: Pipe, a: Action)
    requires WellShaped(p, st)
  {
    !Fetches(a) && Allowed(p, st, a) && Act(p, sem, st, a) != st
  }

  lemma {:induction false} LaneActs(p: Params, sem: Semantics, st: Pipe, s: nat, le: LaneEvent)
    requires WellShaped(p, st) && s < |st.lanes|
    requires LaneEnabled(st.core.all, st.lanes[s], le) && LaneNext(st.core.all, st.lanes[s], le) != st.lanes[s]
    ensures Effective(p, sem, st, InLane(s, le))
  {
    assert Act(p, sem, st, InLane(s, le)).lanes[s] == LaneNext(st.core.all, st.lanes[s], le);
  }

  // The action handles something that arrived in this cycle.
  predicate FromInbox(a: Action) {
    a != Tick && (a.InLane? ==> a.le != Pass && a.le != FuFinish)
  }

  lemma {:induction false} LaneHandler(all: seq<Renamed>, l: Lane) returns (le: LaneEvent)
    requires !LaneQuiet(l)
    requires l.arriving != [] ==> l.arriving[0].uid < |all|
    requires l.forwards != [] ==> l.forwards[0] < |all|
    ensures LaneEnabled(all, l, le) && LaneNext(all, l, le) != l && le != Pass && le != FuFinish
  {
    if l.arriving != [] {
      le := Arrive;
      assert |LaneNext(all, l, le).arriving| < |l.arriving|;
    } else if l.forwards != [] {
      le := Forward;
      assert |LaneNext(all, l, le).forwards| < |l.forwards|;
    } else if l.fuArriving != [] {
      le := FuArrive;
      assert |LaneNext(all, l, le).fuArriving| < |l.fuArriving|;
    } else if l.wbArriving != [] {
      le := WbArrive;
      assert |LaneNext(all, l, le).wbArriving| < |l.wbArriving|;
    } else if l.creditMsg != 0 {
      le := TakeCredit;
    } else {
      le := TakeFuCredit;
    }
  }

  lemma {:induction false} BusyLane(p: Params, sem: Semantics, acts: seq<Action>, st: Pipe, s: nat) returns (a: Action)
    requires Driven(p, sem, acts, st) && s < |st.lanes| && !LaneQuiet(st.lanes[s])
    ensures Effective(p, sem, st, a) && FromInbox(a)
  {
    RunLanes(p, sem, acts, st);
    RunCast(p, sem, acts, st);
    var l, b := st.lanes[s], Allocated(|st.core.all|, st.rob);
    assert LaneOk(st.core.all, st.core.done, st.cast, Dispatched(|st.core.all|, st.disp), b, l);
    if l.arriving != [] {
      assert WaitingOk(st.core.all, st.core.done, st.cast, l.forwards, b, l.arriving[0]);
    }
    if l.forwards != [] {
      assert InboxOk(st.core.done, st.cast, l.forwards);
      assert Seen(st.core.done, st.cast, l.forwards[0]);
    }
    var le := LaneHandler(st.core.all, l);
    LaneActs(p, sem, st, s, le);
    a := InLane(s, le);
  }

  lemma {:induction false} BusyRob(p: Params, sem: Semantics, acts: seq<Action>, st: Pipe) returns (a: Action)
    requires Driven(p, sem, acts, st)
    requires !(st.rob.arriving == [] && st.rob.cast == [] && st.rob.retiring == [] && st.rob.msg == 0)
    ensures Effective(p, sem, st, a) && FromInbox(a)
  {
    if st.rob.arriving != [] {
      a := InRob(RobArrive);
      assert |RobNext(st.rob, RobArrive).arriving| < |st.rob.arriving|;
    } else if st.rob.cast != [] {
      a := InRob(RobCast);
      assert |RobNext(st.rob, RobCast).cast| < |st.rob.cast|;
    } else if st.rob.retiring != [] {
      RetirementInOrder(p, sem, acts, st);
      a := RenameCommit;
      assert Act(p, sem, st, a).core.committed == st.core.committed + 1;
    } else {
      a := InRob(RobCredit);
    }
  }

  lemma {:induction false} BusyDispatcher(p: Params, sem: Semantics, acts: seq<Action>, st: Pipe) returns (a: Action)
    requires Driven(p, sem, acts, st)
    requires !(st.disp.arriving == [] && st.disp.cast == [] && st.disp.msg == 0)
    ensures Effective(p, sem, st, a) && FromInbox(a)
  {
    RunOrder(p, sem, acts, st);
    RunCast(p, sem, acts, st);
    if st.disp.arriving != [] {
      a := InDispatch(DispatchArrive);
      assert |DispatchNext(st.core.all, st.disp, DispatchArrive).arriving| < |st.disp.arriving|;
    } else if st.disp.cast != [] {
      a := InDispatch(DispatchCast);
      assert Seen(st.core.done, st.cast, st.disp.cast[0]);
      assert |DispatchNext(st.core.all, st.disp, DispatchCast).cast| < |st.disp.cast|;
    } else {
      a := InDispatch(DispatchCredit);
    }
  }

  // Whatever is in an inbox can be handled.
  lemma {:induction false} InboxHandled(p: Params, sem: Semantics, acts: seq<Action>, st: Pipe) returns (a: Action)
    requires Driven(p, sem, acts, st) && !Quiet(st)
    ensures Effective(p, sem, st, a) && FromInbox(a)
  {
    if st.front.arriving != [] {
      a := InFront(FetchArrive);
      assert |FrontNext(p.regs, st.front, FetchArrive).arriving| < |st.front.arriving|;
    } else if st.front.msg != 0 {
      a := InFront(FetchCredit);
    } else if !(st.disp.arriving == [] && st.disp.cast == [] && st.disp.msg == 0) {
      a := BusyDispatcher(p, sem, acts, st);
    } else if !(st.rob.arriving == [] && st.rob.cast == [] && st.rob.retiring == [] && st.rob.msg == 0) {
      a := BusyRob(p, sem, acts, st);
    } else {
      var s :| 0 <= s < |st.lanes| && !LaneQuiet(st.lanes[s]);
      a := BusyLane(p, sem, acts, st, s);
    }
  }

  predicate LaneStill(l: Lane) {
    LaneQuiet(l) && l.sent == [] && l.fuSent == []
  }

  // Nothing is on its way anywhere.
  predicate Still(st: Pipe) {
    && Quiet(st) && st.front.sent == [] && st.disp.sent == [] && st.rob.sent == [] && st.cast == []
    && forall s | 0 <= s < |st.lanes| :: LaneStill(st.lanes[s])
  }

  // Whatever was sent in this cycle can be delivered.
  lemma {:induction false} SentDelivered(p: Params, sem: Semantics, st: Pipe)
    requires WellShaped(p, st) && Quiet(st) && !Still(st)
    ensures Effective(p, sem, st, Tick)
  {
    var st' := AfterTick(p, st);
    if st.front.sent == [] && st.disp.sent == [] && st.rob.sent == [] && st.cast == [] {
      var s :| 0 <= s < |st.lanes| && !LaneStill(st.lanes[s]);
      assert LaneQuiet(st.lanes[s]);
      assert st'.lanes[s].sent == [] && st'.lanes[s].fuSent == [];
    }
  }

  lemma {:induction false} UnissuedHas<T>(es: seq<Entry<T>>, u: nat) returns (i: nat)
    requires Count(Unissued(es), u) > 0
    ensures i < |es| && es[i].uid == u && !es[i].issued
  {
    if !es[0].issued && es[0].uid == u {
      i := 0;
    } else {
      if !es[0].issued {
        CountTail(Unissued(es), u);
        assert Unissued(es)[1..] == Unissued(es[1..]);
      }
      var j := UnissuedHas(es[1..], u);
      i := j + 1;
    }
  }

  lemma {:induction false} LanesHave(lanes: seq<Lane>, u: nat) returns (s: nat)
    requires LanesCount(lanes, u) > 0
    ensures s < |lanes| && LaneCount(lanes[s], u) > 0
  {
    if LaneCount(lanes[0], u) > 0 {
      s := 0;
    } else {
      var j := LanesHave(lanes[1..], u);
      s := j + 1;
    }
  }

  // A lane at rest that holds the oldest instruction can move something on.
  lemma {:induction false} OldestMoves(p: Params, sem: Semantics, acts: seq<Action>, st: Pipe, s: nat)
    returns (a: Action)
    requires Driven(p, sem, acts, st) && Still(st) && s < |st.lanes| && p.lanes[s].fuDepth > 0
    requires LaneCount(st.lanes[s], st.core.committed) > 0
    ensures Effective(p, sem, st, a) && a != Tick
  {
    var l, u := st.lanes[s], st.core.committed;
    assert LaneStill(l);
    if l.wbQueue != [] {
      RunPlacedAll(p, sem, acts, st);
      WriteBackIsFirst(st, s);
      a := Arbitrate(s);
      assert Act(p, sem, st, a).cast != st.cast;
    } else if l.fuQueue != [] {
      assert |LaneNext(st.core.all, l, FuFinish).fuQueue| < |l.fuQueue|;
      LaneActs(p, sem, st, s, FuFinish);
      a := InLane(s, FuFinish);
    } else {
      assert Uids([]) == [];
      var i := UnissuedHas(l.entries, u);
      RetirementInOrder(p, sem, acts, st);
      OldestNeverWaits(p, sem, acts, st, s, i);
      CreditsBalance(p, sem, acts, st);
      assert LaneCredits(p.lanes[s], l);
      assert Ready(l.entries[i]);
      assert LaneNext(st.core.all, l, Pass).fuSent != l.fuSent;
      LaneActs(p, sem, st, s, Pass);
      a := InLane(s, Pass);
    }
  }

  // At rest, a lane that could take the oldest instruction has room for it: anything filling the
  // lane would be older still.
  lemma {:induction false} OldestHasRoom(p: Params, sem: Semantics, acts: seq<Action>, st: Pipe, s: nat, k: nat)
    requires Driven(p, sem, acts, st) && Still(st) && s < |st.lanes| && p.lanes[s].depth > 0
    requires k < |st.disp.queue| && Eligible(st.core.all, p.lanes[s].supports, st.disp.queue[k])
    requires st.disp.queue[k].uid == st.core.committed
    ensures st.lanes[s].credit > 0
  {
    var l := st.lanes[s];
    CreditsBalance(p, sem, acts, st);
    assert LaneCredits(p.lanes[s], l) && LaneStill(l);
    if l.credit == 0 {
      var v := Unissued(l.entries)[0];
      CountMember(Unissued(l.entries), 0);
      RunLaneOrder(p, sem, acts, st, s, v);
      RetirementInOrder(p, sem, acts, st);
      LanesCountMember(st.lanes, s, v);
      RunPlaced(p, sem, acts, st, v);
    }
  }

  lemma {:induction false} OldestSelected(p: Params, sem: Semantics, acts: seq<Action>, st: Pipe) returns (a: Action)
    requires Driven(p, sem, acts, st) && Roomy(p) && Still(st) && st.core.committed < |st.core.all|
    requires Supported(p, st.core.all[st.core.committed].inst.fu)
    requires Count(Unissued(st.disp.queue), st.core.committed) > 0
    ensures Effective(p, sem, st, a) && a != Tick
  {
    var s :| 0 <= s < |p.lanes| && st.core.all[st.core.committed].inst.fu in p.lanes[s].supports;
    var k := UnissuedHas(st.disp.queue, st.core.committed);
    assert Eligible(st.core.all, p.lanes[s].supports, st.disp.queue[k]);
    OldestHasRoom(p, sem, acts, st, s, k);
    a := Select(s);
    assert Act(p, sem, st, a).disp.msg == st.disp.msg + 1;
  }

  lemma {:induction false} OldestRetires(p: Params, sem: Semantics, acts: seq<Action>, st: Pipe)
    requires Driven(p, sem, acts, st) && Still(st) && st.core.committed < |st.core.done|
    requires st.core.done[st.core.committed]
    ensures Effective(p, sem, st, InRob(Retire))
  {
    RetirementInOrder(p, sem, acts, st);
    RunMarked(p, sem, acts, st);
    assert Seen(st.core.done, st.cast, st.rob.entries[0].uid);
    assert |RobNext(st.rob, Retire).entries| < |st.rob.entries|;
  }

  // With everything renamed committed, the next fetched instruction can be renamed.
  lemma {:induction false} NextRenames(p: Params, sem: Semantics, acts: seq<Action>, st: Pipe)
    requires Driven(p, sem, acts, st) && Roomy(p) && Still(st)
    requires st.core.committed == |st.core.all| && st.front.queue != []
    ensures Effective(p, sem, st, RenameOne)
  {
    RetirementInOrder(p, sem, acts, st);
    CreditsBalance(p, sem, acts, st);
    if Unissued(st.disp.queue) != [] {
      CountMember(Unissued(st.disp.queue), 0);
      RunPlaced(p, sem, acts, st, Unissued(st.disp.queue)[0]);
    }
    RunStream(p, sem, acts, st);
    assert Stream(st)[|st.core.all|] == st.front.queue[0];
    PipelineRefinesRenaming(p, sem, acts, st);
    RunRegs(p.regs, sem, Project(p, sem, acts));
    if st.core.regs.free == [] {
      EmptyListHasWriter(p.regs, st.core.regs, st.core.all, st.core.committed);
    }
    assert |Act(p, sem, st, RenameOne).core.all| == |st.core.all| + 1;
  }

  lemma {:induction false} StillMoves(p: Params, sem: Semantics, acts: seq<Action>, st: Pipe) returns (a: Action)
    requires Driven(p, sem, acts, st) && Roomy(p) && Served(p, Stream(st)) && Still(st) && !Drained(st)
    ensures Effective(p, sem, st, a) && a != Tick
  {
    var u := st.core.committed;
    if u == |st.core.all| {
      NextRenames(p, sem, acts, st);
      a := RenameOne;
    } else if st.core.done[u] {
      OldestRetires(p, sem, acts, st);
      a := InRob(Retire);
    } else {
      RunPlaced(p, sem, acts, st, u);
      if LanesCount(st.lanes, u) > 0 {
        var s := LanesHave(st.lanes, u);
        a := OldestMoves(p, sem, acts, st, s);
      } else {
        assert Stream(st)[u] == st.core.all[u].inst;
        a := OldestSelected(p, sem, acts, st);
      }
    }
  }

  // No deadlock: until everything fetched is committed, some action changes something.
  lemma {:induction false} NeverStuck(p: Params, sem: Semantics, acts: seq<Action>, st: Pipe) returns (a: Action)
    requires Driven(p, sem, acts, st) && Roomy(p) && Served(p, Stream(st)) && !Drained(st)
    ensures Effective(p, sem, st, a)
  {
    if !Quiet(st) {
      a := InboxHandled(p, sem, acts, st);
    } else if !Still(st) {
      SentDelivered(p, sem, st);
      a := Tick;
    } else {
      a := StillMoves(p, sem, acts, st);
    }
  }

  /* ---------- every schedule drains ---------- */

  // `rest` continues the run `acts` without fetching and leads to `st`.
  ghost predicate Continues(p: Params, sem: Semantics, acts: seq<Action>, rest: seq<Action>, st: Pipe) {
    Driven(p, sem, acts + rest, st) && forall k | 0 <= k < |rest| :: !Fetches(rest[k])
  }

  lemma {:induction false} ContinuesBefore(p: Params, sem: Semantics, acts: seq<Action>, rest: seq<Action>, st: Pipe)
    returns (st0: Pipe)
    requires Continues(p, sem, acts, rest, st) && rest != []
    ensures Continues(p, sem, acts, rest[..|rest| - 1], st0)
    ensures Allowed(p, st0, rest[|rest| - 1]) && st == Act(p, sem, st0, rest[|rest| - 1])
  {
    assert (acts + rest)[..|acts + rest| - 1] == acts + rest[..|rest| - 1];
    st0 := Drive(p, sem, acts + rest[..|rest| - 1]).value;
  }

  lemma {:induction false} ContinuesSnoc(p: Params, sem: Semantics, acts: seq<Action>, rest: seq<Action>, st: Pipe,
                                         a: Action)
    requires Continues(p, sem, acts, rest, st) && Allowed(p, st, a) && !Fetches(a)
    ensures Continues(p, sem, acts, rest + [a], Act(p, sem, st, a))
  {
    DriveSnoc(p, sem, acts + rest, st, a);
    assert acts + rest + [a] == acts + (rest + [a]);
  }

  lemma {:induction false} StreamKept(p: Params, sem: Semantics, acts: seq<Action>, st: Pipe, rest: seq<Action>,
                                      st': Pipe)
    requires Driven(p, sem, acts, st) && Continues(p, sem, acts, rest, st')
    ensures Stream(st') == Stream(st)
  {
    if rest == [] {
      assert acts + rest == acts;
    } else {
      var st0 := ContinuesBefore(p, sem, acts, rest, st');
      StreamKept(p, sem, acts, st, rest[..|rest| - 1], st0);
      StreamStep(p, sem, st0, rest[|rest| - 1]);
    }
  }

  // Every step of the continuation changes something.
  ghost predicate Busy(p: Params, sem: Semantics, acts: seq<Action>, rest: seq<Action>)
    requires ValidConfig(p.regs)
  {
    forall k | 0 <= k < |rest| :: Drive(p, sem, acts + rest[..k]) != Drive(p, sem, acts + rest[..k + 1])
  }

  lemma {:induction false} WorkIsBounded(p: Params, sem: Semantics, acts: seq<Action>, st: Pipe, rest: seq<Action>,
                                         st': Pipe)
    requires Driven(p, sem, acts, st) && Continues(p, sem, acts, rest, st') && Busy(p, sem, acts, rest)
    ensures |rest| + Rank(st') <= Rank(st)
  {
    if rest == [] {
      assert acts + rest == acts;
    } else {
      var n := |rest| - 1;
      var st0 := ContinuesBefore(p, sem, acts, rest, st');
      assert forall k | 0 <= k <= n :: rest[..n][..k] == rest[..k];
      WorkIsBounded(p, sem, acts, st, rest[..n], st0);
      assert rest[..n + 1] == rest;
      assert Drive(p, sem, acts + rest[..n]) != Drive(p, sem, acts + rest[..n + 1]);
      RunPlacedAll(p, sem, acts + rest[..n], st0);
      StepLowers(p, sem, st0, rest[n]);
    }
  }

  // Main result: once fetching stops, every schedule that does not idle is finite, whatever order
  // it runs the handlers in, and where it can go no further everything fetched has been renamed
  // and committed, in the order it was fetched.
  lemma {:induction false} EveryScheduleDrains(p: Params, sem: Semantics, acts: seq<Action>, st: Pipe,
                                               rest: seq<Action>, st': Pipe)
    requires Driven(p, sem, acts, st) && Roomy(p) && Served(p, Stream(st))
    requires Continues(p, sem, acts, rest, st') && Busy(p, sem, acts, rest)
    ensures |rest| <= Rank(st)
    ensures (forall a :: !Effective(p, sem, st', a)) ==>
              Insts(st'.core.all) == Stream(st) && st'.core.committed == |st'.core.all|
  {
    WorkIsBounded(p, sem, acts, st, rest, st');
    StreamKept(p, sem, acts, st, rest, st');
    if !Drained(st') {
      var a := NeverStuck(p, sem, acts + rest, st');
      assert Effective(p, sem, st', a);
    } else {
      assert Insts(st'.core.all) == Stream(st');
    }
  }

  ghost predicate CanDrain(p: Params, sem: Semantics, acts: seq<Action>) {
    exists rest, st :: Continues(p, sem, acts, rest, st) && Drained(st)
  }

  lemma {:induction false} DrainFrom(p: Params, sem: Semantics, acts: seq<Action>, rest: seq<Action>, st: Pipe)
    requires Continues(p, sem, acts, rest, st) && Roomy(p) && Served(p, Stream(st))
    ensures CanDrain(p, sem, acts)
    decreases Rank(st)
  {
    if !Drained(st) {
      var a := NeverStuck(p, sem, acts + rest, st);
      RunPlacedAll(p, sem, acts + rest, st);
      StepLowers(p, sem, st, a);
      StreamStep(p, sem, st, a);
      ContinuesSnoc(p, sem, acts, rest, st, a);
      DrainFrom(p, sem, acts, rest + [a], Act(p, sem, st, a));
    }
  }

  // Only an instruction of a supported type ever executes.
  lemma {:induction false} DoneIsSupported(p: Params, sem: Semantics, acts: seq<Action>, st: Pipe, u: nat)
    requires Driven(p, sem, acts, st) && u < |st.core.done| && st.core.done[u]
    ensures Supported(p, st.core.all[u].inst.fu)
  {
    var acts', a := acts[..|acts| - 1], acts[|acts| - 1];
    var st0 := Drive(p, sem, acts').value;
    OnlyArbitrateFinishes(p, sem, st0, a, u);
    if u < |st0.core.done| && st0.core.done[u] {
      DoneIsSupported(p, sem, acts', st0, u);
    } else {
      RunTyped(p, sem, acts', st0, a.s);
      CountMember(st0.lanes[a.s].wbQueue, 0);
      assert TypedAt(st0.core.all, p.lanes[a.s].supports, st0.lanes[a.s], u);
    }
  }

  // Main result: what has been fetched can be committed exactly when some lane supports the type
  // of each of the fetched instructions.
  lemma {:induction false} DrainsIff(p: Params, sem: Semantics, acts: seq<Action>, st: Pipe)
    requires Driven(p, sem, acts, st) && Roomy(p)
    ensures CanDrain(p, sem, acts) <==> Served(p, Stream(st))
  {
    if CanDrain(p, sem, acts) {
      var rest, st' :| Continues(p, sem, acts, rest, st') && Drained(st');
      StreamKept(p, sem, acts, st, rest, st');
      RetirementInOrder(p, sem, acts + rest, st');
      forall i | 0 <= i < |Stream(st)| ensures Supported(p, Stream(st)[i].fu) {
        DoneIsSupported(p, sem, acts + rest, st', i);
        assert Stream(st')[i] == st'.core.all[i].inst;
      }
    }
    if Served(p, Stream(st)) {
      assert acts + [] == acts;
      DrainFrom(p, sem, acts, [], st);
    }
  }
}
