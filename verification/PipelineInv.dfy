/**
  The invariant of the pipeline, family by family, and the proof that every action keeps it.
 */
module PipelineInv {
  import opened RenameCore
  import opened RenameMachine
  import opened Pipeline
  import opened PipelineLanes

  function Minus(x: nat, y: nat): nat {
    if x >= y then x - y else 0
  }

  // Of `n` renamed instructions: those whose message has left the cycle it was sent in, ...
  function Arrived(n: nat, d: Dispatch): nat { Minus(n, |d.sent|) }

  // ... those that have reached the dispatch queue, ...
  function Dispatched(n: nat, d: Dispatch): nat { Minus(Arrived(n, d), |d.arriving|) }

  // ... those that have reached the reorder buffer, and those that have left it again.
  function Allocated(n: nat, r: Rob): nat { Minus(n, |r.sent| + |r.arriving|) }
  function Popped(n: nat, r: Rob): nat { Minus(Allocated(n, r), |r.entries|) }

  /* ---------- program order ---------- */

  predicate Consecutive(s: seq<nat>, from: nat) {
    forall i | 0 <= i < |s| :: s[i] == from + i
  }

  predicate ConsecutiveEntries(s: seq<RobEntry>, from: nat) {
    forall i | 0 <= i < |s| :: s[i].uid == from + i
  }

  // The dispatch queue is in program order and holds dispatched instructions only.
  predicate QueueOk(d: nat, q: seq<Entry<()>>) {
    && (forall i | 0 <= i < |q| :: q[i].uid < d)
    && (forall i, j | 0 <= i < j < |q| :: q[i].uid < q[j].uid)
  }

  predicate DispatchOrdered(n: nat, d: Dispatch) {
    && |d.sent| + |d.arriving| <= n
    && Consecutive(d.sent, Arrived(n, d))
    && Consecutive(d.arriving, Dispatched(n, d))
    && QueueOk(Dispatched(n, d), d.queue)
  }

  predicate RobOrdered(n: nat, c: nat, r: Rob) {
    && |r.sent| + |r.arriving| + |r.entries| + |r.retiring| + c == n
    && Consecutive(r.sent, n - |r.sent|)
    && Consecutive(r.arriving, Allocated(n, r))
    && ConsecutiveEntries(r.entries, Popped(n, r))
    && Consecutive(r.retiring, c)
  }

  // Every link between renaming and commit carries consecutive instructions in program order.
  predicate OrderOk(st: Pipe) {
    && DispatchOrdered(|st.core.all|, st.disp)
    && RobOrdered(|st.core.all|, st.core.committed, st.rob)
    && |st.rob.sent| == |st.disp.sent|
  }

  lemma {:induction false} RobOrderStep(n: nat, c: nat, r: Rob, re: RobEvent)
    requires RobEnabled(r, re) && RobOrdered(n, c, r)
    ensures RobOrdered(n, c, RobNext(r, re))
  {
  }

  lemma {:induction false} SendOrdered(n: nat, c: nat, d: Dispatch, r: Rob, d': Dispatch, r': Rob)
    requires DispatchOrdered(n, d) && RobOrdered(n, c, r)
    requires d'.sent == d.sent + [n] && d'.arriving == d.arriving && d'.queue == d.queue
    requires r'.sent == r.sent + [n] && r' == r.(sent := r'.sent, credit := r'.credit)
    ensures DispatchOrdered(n + 1, d') && RobOrdered(n + 1, c, r')
  {
  }

  lemma {:induction false} CommitOrdered(n: nat, c: nat, r: Rob)
    requires RobOrdered(n, c, r) && r.retiring != []
    ensures RobOrdered(n, c + 1, r.(retiring := r.retiring[1..]))
  {
  }

  lemma {:induction false} SelectOrdered(n: nat, d: Dispatch, k: nat)
    requires DispatchOrdered(n, d) && k < |d.queue|
    ensures DispatchOrdered(n, d.(queue := d.queue[k := d.queue[k].(issued := true)], msg := d.msg + 1))
  {
  }

  lemma {:induction false} OrderStep(p: Params, sem: Semantics, st: Pipe, a: Action)
    requires WellShaped(p, st) && Allowed(p, st, a) && OrderOk(st)
    ensures OrderOk(Act(p, sem, st, a))
  {
    var n, c, st' := |st.core.all|, st.core.committed, Act(p, sem, st, a);
    match a
    case InDispatch(de) =>
    case InRob(re) => RobOrderStep(n, c, st.rob, re);
    case RenameOne => SendOrdered(n, c, st.disp, st.rob, st'.disp, st'.rob);
    case Select(s) => SelectOrdered(n, st.disp, FirstEligible(st.core.all, p.lanes[s].supports, st.disp.queue));
    case RenameCommit => CommitOrdered(n, c, st.rob);
    case Tick =>
    case _ =>
  }

  /* ---------- results on their way ---------- */

  // The result of `u` has been written back and has left the write-back stage.
  predicate Seen(done: seq<bool>, cast: seq<nat>, u: nat) {
    u < |done| && done[u] && u !in cast
  }

  // Everything in an inbox of results has been seen, once.
  predicate InboxOk(done: seq<bool>, cast: seq<nat>, inbox: seq<nat>) {
    && (forall i | 0 <= i < |inbox| :: Seen(done, cast, inbox[i]))
    && (forall i, j | 0 <= i < j < |inbox| :: inbox[i] != inbox[j])
  }

  // `u` is marked finished or gone from the reorder buffer only after its result arrived there.
  predicate FinishedOk(done: seq<bool>, cast: seq<nat>, inbox: seq<nat>, popped: nat, es: seq<RobEntry>) {
    && (forall u | 0 <= u < popped :: Seen(done, cast, u) && u !in inbox)
    && (forall i | 0 <= i < |es| && es[i].finish :: Seen(done, cast, es[i].uid) && es[i].uid !in inbox)
  }

  predicate ForwardsOk(done: seq<bool>, cast: seq<nat>, lanes: seq<Lane>) {
    forall s | 0 <= s < |lanes| :: InboxOk(done, cast, lanes[s].forwards)
  }

  predicate CastOk(st: Pipe) {
    && InboxOk(st.core.done, [], st.cast)
    && InboxOk(st.core.done, st.cast, st.disp.cast)
    && InboxOk(st.core.done, st.cast, st.rob.cast)
    && ForwardsOk(st.core.done, st.cast, st.lanes)
    && FinishedOk(st.core.done, st.cast, st.rob.cast, Popped(|st.core.all|, st.rob), st.rob.entries)
  }

  lemma {:induction false} RobCastStep(n: nat, c: nat, done: seq<bool>, cast: seq<nat>, r: Rob, re: RobEvent)
    requires RobEnabled(r, re) && RobOrdered(n, c, r)
    requires InboxOk(done, cast, r.cast) && FinishedOk(done, cast, r.cast, Popped(n, r), r.entries)
    ensures var r' := RobNext(r, re);
            InboxOk(done, cast, r'.cast) && FinishedOk(done, cast, r'.cast, Popped(n, r'), r'.entries)
  {
  }

  lemma {:induction false} SeenLater(done: seq<bool>, cast: seq<nat>, done': seq<bool>, cast': seq<nat>,
                                     inbox: seq<nat>)
    requires |done| <= |done'| && forall u | Seen(done, cast, u) :: Seen(done', cast', u)
    requires InboxOk(done, cast, inbox)
    ensures InboxOk(done', cast', inbox)
  {
  }

  lemma {:induction false} CastLater(st: Pipe, st': Pipe)
    requires CastOk(st) && |st.core.done| <= |st'.core.done|
    requires forall u | Seen(st.core.done, st.cast, u) :: Seen(st'.core.done, st'.cast, u)
    requires InboxOk(st'.core.done, [], st'.cast)
    requires st'.disp.cast == st.disp.cast && st'.rob.cast == st.rob.cast && st'.rob.entries == st.rob.entries
    requires Popped(|st'.core.all|, st'.rob) == Popped(|st.core.all|, st.rob)
    requires |st'.lanes| == |st.lanes|
    requires forall s | 0 <= s < |st.lanes| :: st'.lanes[s].forwards == st.lanes[s].forwards
    ensures CastOk(st')
  {
    SeenLater(st.core.done, st.cast, st'.core.done, st'.cast, st.disp.cast);
    SeenLater(st.core.done, st.cast, st'.core.done, st'.cast, st.rob.cast);
    forall s | 0 <= s < |st.lanes| ensures InboxOk(st'.core.done, st'.cast, st'.lanes[s].forwards) {
      SeenLater(st.core.done, st.cast, st'.core.done, st'.cast, st.lanes[s].forwards);
    }
  }

  lemma {:induction false} ForwardsStep(all: seq<Renamed>, done: seq<bool>, cast: seq<nat>, lanes: seq<Lane>, s: nat,
                                        le: LaneEvent)
    requires s < |lanes| && LaneEnabled(all, lanes[s], le) && ForwardsOk(done, cast, lanes)
    ensures ForwardsOk(done, cast, lanes[s := LaneNext(all, lanes[s], le)])
  {
    assert InboxOk(done, cast, lanes[s].forwards);
  }

  lemma {:induction false} CastTick(p: Params, sem: Semantics, st: Pipe)
    requires WellShaped(p, st) && Allowed(p, st, Tick) && CastOk(st) && OrderOk(st)
    ensures CastOk(Act(p, sem, st, Tick))
  {
    var st' := Act(p, sem, st, Tick);
    assert Popped(|st'.core.all|, st'.rob) == Popped(|st.core.all|, st.rob);
    assert InboxOk(st.core.done, [], st.cast);
  }

  lemma {:induction false} CastArbitrate(p: Params, sem: Semantics, st: Pipe, s: nat)
    requires WellShaped(p, st) && Allowed(p, st, Arbitrate(s)) && CastOk(st)
    requires !st.core.done[st.lanes[s].wbQueue[0]]
    ensures CastOk(Act(p, sem, st, Arbitrate(s)))
  {
    CastLater(st, Act(p, sem, st, Arbitrate(s)));
  }

  lemma {:induction false} CastStep(p: Params, sem: Semantics, st: Pipe, a: Action)
    requires WellShaped(p, st) && Allowed(p, st, a) && CastOk(st) && OrderOk(st)
    requires a.Arbitrate? ==> !st.core.done[st.lanes[a.s].wbQueue[0]]
    ensures CastOk(Act(p, sem, st, a))
  {
    match a
    case InRob(re) => RobCastStep(|st.core.all|, st.core.committed, st.core.done, st.cast, st.rob, re);
    case InLane(s, le) => ForwardsStep(st.core.all, st.core.done, st.cast, st.lanes, s, le);
    case RenameOne => CastLater(st, Act(p, sem, st, a));
    case Select(s) => CastLater(st, Act(p, sem, st, a));
    case Arbitrate(s) => CastArbitrate(p, sem, st, s);
    case Tick => CastTick(p, sem, st);
    case _ =>
  }

  /* ---------- reuse of physical registers ---------- */

  // An instruction whose destination is claimed again has been committed.
  predicate ReusePair(all: seq<Renamed>, c: nat, x: nat, y: nat) {
    x < y < |all| && all[x].pd == all[y].pd && all[x].pd != 0 ==> x < c
  }

  ghost predicate ReuseOk(all: seq<Renamed>, c: nat) {
    forall x: nat, y: nat :: ReusePair(all, c, x, y)
  }

  // While the result of `x` is still in an inbox, nothing that claims its register again has
  // left the cycle it was renamed in.
  predicate FreshPair(all: seq<Renamed>, arrived: nat, x: nat, y: nat) {
    x < y < arrived && y < |all| && x < |all| && all[x].pd == all[y].pd ==> all[x].pd == 0
  }

  ghost predicate FreshOk(all: seq<Renamed>, arrived: nat, inbox: seq<nat>) {
    forall x, y: nat | x in inbox :: FreshPair(all, arrived, x, y)
  }

  ghost predicate LanesFresh(all: seq<Renamed>, arrived: nat, lanes: seq<Lane>) {
    forall s | 0 <= s < |lanes| :: FreshOk(all, arrived, lanes[s].forwards)
  }

  ghost predicate RegistersOk(st: Pipe) {
    var arrived := Arrived(|st.core.all|, st.disp);
    && ReuseOk(st.core.all, st.core.committed)
    && FreshOk(st.core.all, arrived, st.disp.cast)
    && LanesFresh(st.core.all, arrived, st.lanes)
  }

  lemma {:induction false} ReuseRename(cfg: Config, m: Machine, i: Inst)
    requires WellFormed(cfg, m) && RegsInv(cfg, m) && Enabled(cfg, m, Rename(i)) && ReuseOk(m.all, m.committed)
    ensures ReuseOk(m.all + [RenameInst(cfg, m.regs, i)], m.committed)
  {
    var r := RenameInst(cfg, m.regs, i);
    var all' := m.all + [r];
    forall x: nat, y: nat ensures ReusePair(all', m.committed, x, y) {
      assert ReusePair(m.all, m.committed, x, y);
      if m.committed <= x < |m.all| == y && m.all[x].pd == r.pd != 0 {
        ClaimIsExclusive(cfg, m.regs, m.all, m.committed, x);
      }
    }
  }

  lemma {:induction false} FreshExtend(all: seq<Renamed>, all': seq<Renamed>, arrived: nat, inbox: seq<nat>)
    requires |all| <= |all'| && arrived <= |all| && forall k | 0 <= k < |all| :: all'[k] == all[k]
    requires FreshOk(all, arrived, inbox)
    ensures FreshOk(all', arrived, inbox)
  {
    forall x, y: nat | x in inbox ensures FreshPair(all', arrived, x, y) {
      assert FreshPair(all, arrived, x, y);
    }
  }

  // Results arriving with the tick belong to instructions that are not committed yet, so nobody
  // has claimed their registers again.
  lemma {:induction false} FreshTick(st: Pipe)
    requires ReuseOk(st.core.all, st.core.committed) && OrderOk(st) && CastOk(st)
    ensures FreshOk(st.core.all, |st.core.all|, st.cast)
  {
    forall x, y: nat | x in st.cast ensures FreshPair(st.core.all, |st.core.all|, x, y) {
      assert ReusePair(st.core.all, st.core.committed, x, y);
      assert x < st.core.committed ==> Seen(st.core.done, st.cast, x);
    }
  }

  lemma {:induction false} LanesFreshStep(all: seq<Renamed>, arrived: nat, lanes: seq<Lane>, s: nat, le: LaneEvent)
    requires s < |lanes| && LaneEnabled(all, lanes[s], le) && LanesFresh(all, arrived, lanes)
    ensures LanesFresh(all, arrived, lanes[s := LaneNext(all, lanes[s], le)])
  {
    assert FreshOk(all, arrived, lanes[s].forwards);
  }

  lemma {:induction false} RegistersRename(p: Params, sem: Semantics, st: Pipe)
    requires WellShaped(p, st) && Allowed(p, st, RenameOne) && RegistersOk(st) && OrderOk(st)
    requires RegsInv(p.regs, st.core)
    ensures RegistersOk(Act(p, sem, st, RenameOne))
  {
    var st' := Act(p, sem, st, RenameOne);
    var arrived := Arrived(|st.core.all|, st.disp);
    ReuseRename(p.regs, st.core, st.front.queue[0]);
    FreshExtend(st.core.all, st'.core.all, arrived, st.disp.cast);
    forall s | 0 <= s < |st.lanes| ensures FreshOk(st'.core.all, arrived, st.lanes[s].forwards) {
      FreshExtend(st.core.all, st'.core.all, arrived, st.lanes[s].forwards);
    }
  }

  lemma {:induction false} RegistersStep(p: Params, sem: Semantics, st: Pipe, a: Action)
    requires WellShaped(p, st) && Allowed(p, st, a)
    requires RegistersOk(st) && OrderOk(st) && CastOk(st) && RegsInv(p.regs, st.core)
    ensures RegistersOk(Act(p, sem, st, a))
  {
    var all, c := st.core.all, st.core.committed;
    match a
    case InLane(s, le) => LanesFreshStep(all, Arrived(|all|, st.disp), st.lanes, s, le);
    case RenameOne => RegistersRename(p, sem, st);
    case RenameCommit =>
      var c' := c + 1;
      forall x: nat, y: nat ensures ReusePair(all, c', x, y) {
        assert ReusePair(all, c, x, y);
      }
    case Tick => FreshTick(st);
    case _ =>
  }

  // Forwarding a result finds no unexecuted writer of its register among the allocated
  // instructions: older ones are committed and younger ones are not allocated yet.
  lemma {:induction false} ForwardIsSafe(st: Pipe, s: nat)
    requires |st.core.all| == |st.core.done| && s < |st.lanes| && st.lanes[s].forwards != []
    requires st.lanes[s].forwards[0] < |st.core.all|
    requires RegistersOk(st) && OrderOk(st) && CastOk(st)
    ensures Settled(st.core.all, st.core.done, Allocated(|st.core.all|, st.rob),
                    st.core.all[st.lanes[s].forwards[0]].pd)
  {
    var all, done, a := st.core.all, st.core.done, st.lanes[s].forwards[0];
    assert InboxOk(done, st.cast, st.lanes[s].forwards);
    assert Seen(done, st.cast, a);
    forall q | 0 <= q < Allocated(|all|, st.rob) && all[q].pd == all[a].pd && all[a].pd != 0 ensures done[q] {
      assert ReusePair(all, st.core.committed, q, a);
      assert q < st.core.committed ==> Seen(done, st.cast, q);
      assert FreshOk(all, Arrived(|all|, st.disp), st.lanes[s].forwards);
      assert FreshPair(all, Arrived(|all|, st.disp), a, q);
    }
  }

  /* ---------- every instruction is in one place ---------- */

  function LanesCount(lanes: seq<Lane>, u: nat): nat {
    if lanes == [] then 0 else LaneCount(lanes[0], u) + LanesCount(lanes[1..], u)
  }

  lemma {:induction false} LanesCountUpdate(lanes: seq<Lane>, s: nat, l: Lane, u: nat)
    requires s < |lanes|
    ensures LanesCount(lanes[s := l], u) + LaneCount(lanes[s], u) == LanesCount(lanes, u) + LaneCount(l, u)
  {
    if s == 0 {
      assert lanes[0 := l][1..] == lanes[1..];
    } else {
      assert lanes[s := l][1..] == lanes[1..][s - 1 := l];
      LanesCountUpdate(lanes[1..], s - 1, l, u);
    }
  }

  lemma {:induction false} LanesCountMember(lanes: seq<Lane>, s: nat, u: nat)
    requires s < |lanes|
    ensures LaneCount(lanes[s], u) <= LanesCount(lanes, u)
  {
    if s > 0 {
      LanesCountMember(lanes[1..], s - 1, u);
    }
  }

  lemma {:induction false} LanesCountSame(a: seq<Lane>, b: seq<Lane>, u: nat)
    requires |a| == |b| && forall s | 0 <= s < |a| :: LaneCount(a[s], u) == LaneCount(b[s], u)
    ensures LanesCount(a, u) == LanesCount(b, u)
  {
    if a != [] {
      assert forall s | 0 <= s < |a| - 1 :: a[1..][s] == a[s + 1] && b[1..][s] == b[s + 1];
      LanesCountSame(a[1..], b[1..], u);
    }
  }

  // How often instruction `u` is between renaming and write-back.
  function Places(d: Dispatch, lanes: seq<Lane>, u: nat): nat {
    Count(d.sent, u) + Count(d.arriving, u) + Count(Unissued(d.queue), u) + LanesCount(lanes, u)
  }

  predicate PlacedAt(d: Dispatch, lanes: seq<Lane>, done: seq<bool>, u: nat) {
    Places(d, lanes, u) == if u < |done| && !done[u] then 1 else 0
  }

  // Every renamed instruction that has not been written back is in exactly one place; every
  // other one is in none.
  ghost predicate PlacedOk(st: Pipe) {
    forall u: nat :: PlacedAt(st.disp, st.lanes, st.core.done, u)
  }

  lemma {:induction false} PlacesDispatch(all: seq<Renamed>, d: Dispatch, de: DispatchEvent, lanes: seq<Lane>, u: nat)
    requires DispatchEnabled(all, d, de)
    ensures Places(DispatchNext(all, d, de), lanes, u) == Places(d, lanes, u)
  {
    if de == DispatchArrive {
      UnissuedSnoc(d.queue, Entry(d.arriving[0], false, ()));
      CountMove(d.arriving, Unissued(d.queue), u);
    }
  }

  lemma {:induction false} LaneSentCount(l: Lane, l': Lane, w: Waiting, u: nat)
    requires l' == l.(credit := l'.credit, sent := l.sent + [w])
    ensures LaneCount(l', u) == LaneCount(l, u) + if w.uid == u then 1 else 0
  {
    assert Uids(l'.sent) == Uids(l.sent) + [w.uid];
    CountSnoc(Uids(l.sent), w.uid, u);
  }

  lemma {:induction false} PlacesSelect(d: Dispatch, d': Dispatch, k: nat, lanes: seq<Lane>, s: nat, l': Lane,
                                        w: Waiting, u: nat)
    requires k < |d.queue| && !d.queue[k].issued && s < |lanes| && w.uid == d.queue[k].uid
    requires d' == d.(msg := d'.msg, queue := d.queue[k := d.queue[k].(issued := true)])
    requires l' == lanes[s].(credit := l'.credit, sent := lanes[s].sent + [w])
    ensures Places(d', lanes[s := l'], u) == Places(d, lanes, u)
  {
    UnissuedIssue(d.queue, k, u);
    LanesCountUpdate(lanes, s, l', u);
    LaneSentCount(lanes[s], l', w, u);
  }

  lemma {:induction false} PlacesLane(all: seq<Renamed>, lanes: seq<Lane>, s: nat, le: LaneEvent, u: nat)
    requires s < |lanes| && LaneEnabled(all, lanes[s], le)
    ensures LanesCount(lanes[s := LaneNext(all, lanes[s], le)], u) == LanesCount(lanes, u)
  {
    LaneCountKeeps(all, lanes[s], le, u);
    LanesCountUpdate(lanes, s, LaneNext(all, lanes[s], le), u);
  }

  lemma {:induction false} LaneTickCount(l: Lane, cast: seq<nat>, u: nat)
    requires LaneQuiet(l)
    ensures LaneCount(LaneTick(l, cast), u) == LaneCount(l, u)
  {
    assert Uids([]) == [];
  }

  lemma {:induction false} PlacesTick(p: Params, st: Pipe, u: nat)
    requires WellShaped(p, st) && Quiet(st)
    ensures Places(AfterTick(p, st).disp, AfterTick(p, st).lanes, u) == Places(st.disp, st.lanes, u)
  {
    var lanes' := AfterTick(p, st).lanes;
    forall s | 0 <= s < |st.lanes| ensures LaneCount(lanes'[s], u) == LaneCount(st.lanes[s], u) {
      LaneTickCount(st.lanes[s], st.cast, u);
    }
    LanesCountSame(st.lanes, lanes', u);
  }

  lemma {:induction false} PlacesArbitrate(lanes: seq<Lane>, s: nat, l': Lane, u: nat)
    requires s < |lanes| && lanes[s].wbQueue != [] && l' == lanes[s].(wbQueue := lanes[s].wbQueue[1..])
    ensures LanesCount(lanes, u) == LanesCount(lanes[s := l'], u) + if u == lanes[s].wbQueue[0] then 1 else 0
  {
    LanesCountUpdate(lanes, s, l', u);
    CountTail(lanes[s].wbQueue, u);
  }

  lemma {:induction false} PlacedSelect(p: Params, sem: Semantics, st: Pipe, s: nat, u: nat)
    requires WellShaped(p, st) && Allowed(p, st, Select(s)) && PlacedAt(st.disp, st.lanes, st.core.done, u)
    ensures var st' := Act(p, sem, st, Select(s)); PlacedAt(st'.disp, st'.lanes, st'.core.done, u)
  {
    var st' := Act(p, sem, st, Select(s));
    var l' := st'.lanes[s];
    PlacesSelect(st.disp, st'.disp, FirstEligible(st.core.all, p.lanes[s].supports, st.disp.queue),
                 st.lanes, s, l', l'.sent[|l'.sent| - 1], u);
  }

  lemma {:induction false} PlacedRename(d: Dispatch, d': Dispatch, lanes: seq<Lane>, done: seq<bool>, u: nat)
    requires PlacedAt(d, lanes, done, u)
    requires d' == d.(credit := d'.credit, sent := d.sent + [|done|])
    ensures PlacedAt(d', lanes, done + [false], u)
  {
    CountSnoc(d.sent, |done|, u);
  }

  lemma {:induction false} PlacedArbitrate(d: Dispatch, lanes: seq<Lane>, s: nat, l': Lane, done: seq<bool>, u: nat)
    requires s < |lanes| && lanes[s].wbQueue != [] && l' == lanes[s].(wbQueue := lanes[s].wbQueue[1..])
    requires lanes[s].wbQueue[0] < |done| && PlacedAt(d, lanes, done, u)
    ensures PlacedAt(d, lanes[s := l'], done[lanes[s].wbQueue[0] := true], u)
  {
    PlacesArbitrate(lanes, s, l', u);
  }

  lemma {:induction false} PlacedStep(p: Params, sem: Semantics, st: Pipe, a: Action, u: nat)
    requires WellShaped(p, st) && Allowed(p, st, a) && PlacedAt(st.disp, st.lanes, st.core.done, u)
    ensures var st' := Act(p, sem, st, a); PlacedAt(st'.disp, st'.lanes, st'.core.done, u)
  {
    var st' := Act(p, sem, st, a);
    match a
    case InDispatch(de) => PlacesDispatch(st.core.all, st.disp, de, st.lanes, u);
    case InLane(s, le) => PlacesLane(st.core.all, st.lanes, s, le, u);
    case RenameOne => PlacedRename(st.disp, st'.disp, st.lanes, st.core.done, u);
    case Select(s) => PlacedSelect(p, sem, st, s, u);
    case Arbitrate(s) => PlacedArbitrate(st.disp, st.lanes, s, st'.lanes[s], st.core.done, u);
    case Tick => PlacesTick(p, st, u);
    case _ =>
  }

  lemma {:induction false} CountMember(s: seq<nat>, i: nat)
    requires i < |s|
    ensures Count(s, s[i]) >= 1
  {
    assert s[i] in s;
  }

  // What is at the head of a write-back queue has not been written back.
  lemma {:induction false} WriteBackIsFirst(st: Pipe, s: nat)
    requires PlacedOk(st) && s < |st.lanes| && st.lanes[s].wbQueue != []
    ensures st.lanes[s].wbQueue[0] < |st.core.done| && !st.core.done[st.lanes[s].wbQueue[0]]
  {
    var u := st.lanes[s].wbQueue[0];
    CountMember(st.lanes[s].wbQueue, 0);
    LanesCountMember(st.lanes, s, u);
    assert PlacedAt(st.disp, st.lanes, st.core.done, u);
  }

  // Nothing that has not reached the dispatch queue has been written back.
  lemma {:induction false} UndispatchedNotDone(st: Pipe, u: nat)
    requires PlacedOk(st) && OrderOk(st) && |st.core.all| == |st.core.done|
    requires Dispatched(|st.core.all|, st.disp) <= u < |st.core.all|
    ensures !st.core.done[u]
  {
    var a := Arrived(|st.core.all|, st.disp);
    if u >= a {
      CountMember(st.disp.sent, u - a);
    } else {
      CountMember(st.disp.arriving, u - Dispatched(|st.core.all|, st.disp));
    }
    assert PlacedAt(st.disp, st.lanes, st.core.done, u);
  }

  lemma {:induction false} UnissuedMember(q: seq<Entry<()>>, k: nat)
    requires k < |q| && !q[k].issued
    ensures Count(Unissued(q), q[k].uid) >= 1
  {
    if k > 0 {
      assert q[1..][k - 1] == q[k];
      UnissuedMember(q[1..], k - 1);
      if !q[0].issued {
        CountTail([q[0].uid] + Unissued(q[1..]), q[k].uid);
        assert ([q[0].uid] + Unissued(q[1..]))[1..] == Unissued(q[1..]);
      }
    } else {
      CountMember(Unissued(q), 0);
    }
  }

  // What dispatch selects has not been written back.
  lemma {:induction false} SelectedNotDone(st: Pipe, k: nat)
    requires PlacedOk(st) && k < |st.disp.queue| && !st.disp.queue[k].issued
    ensures st.disp.queue[k].uid < |st.core.done| && !st.core.done[st.disp.queue[k].uid]
  {
    UnissuedMember(st.disp.queue, k);
    assert PlacedAt(st.disp, st.lanes, st.core.done, st.disp.queue[k].uid);
  }

  /* ---------- busy bits ---------- */

  predicate BusyAt(all: seq<Renamed>, done: seq<bool>, cast: seq<nat>, d: Dispatch, bound: nat, r: nat) {
    r in d.busy <==> r != 0 && HasPendingWriter(all, done, cast, d.cast, bound, r)
  }

  // A register is busy exactly while a dispatched writer's result has not reached dispatch.
  ghost predicate BusyOk(all: seq<Renamed>, done: seq<bool>, cast: seq<nat>, d: Dispatch, bound: nat) {
    forall r: nat :: BusyAt(all, done, cast, d, bound, r)
  }

  lemma {:induction false} PendingLater(all: seq<Renamed>, done: seq<bool>, cast: seq<nat>, inbox: seq<nat>,
                     all': seq<Renamed>, done': seq<bool>, cast': seq<nat>, inbox': seq<nat>, bound: nat, r: nat)
    requires forall q | 0 <= q < bound ::
               PendingWriter(all, done, cast, inbox, q, r) <==> PendingWriter(all', done', cast', inbox', q, r)
    ensures HasPendingWriter(all, done, cast, inbox, bound, r)
            <==> HasPendingWriter(all', done', cast', inbox', bound, r)
  {
  }

  lemma {:induction false} BusyArrive(all: seq<Renamed>, done: seq<bool>, cast: seq<nat>, d: Dispatch, bound: nat)
    requires |all| == |done| && DispatchEnabled(all, d, DispatchArrive)
    requires d.arriving[0] == bound && !done[bound] && BusyOk(all, done, cast, d, bound)
    ensures BusyOk(all, done, cast, DispatchNext(all, d, DispatchArrive), bound + 1)
  {
    var d', bound' := DispatchNext(all, d, DispatchArrive), bound + 1;
    forall r: nat ensures BusyAt(all, done, cast, d', bound', r) {
      assert BusyAt(all, done, cast, d, bound, r);
      if r == all[bound].pd {
        assert PendingWriter(all, done, cast, d.cast, bound, r);
      } else if HasPendingWriter(all, done, cast, d.cast, bound', r) {
        var q :| 0 <= q < bound' && PendingWriter(all, done, cast, d.cast, q, r);
        assert q < bound;
      }
    }
  }

  // Clearing the busy bit is right: nobody else dispatched is about to write that register.
  lemma {:induction false} BusyCast(all: seq<Renamed>, done: seq<bool>, cast: seq<nat>, d: Dispatch, bound: nat)
    requires |all| == |done| && DispatchEnabled(all, d, DispatchCast)
    requires BusyOk(all, done, cast, d, bound)
    requires forall q: nat | q < bound && q < |all| && all[q].pd == all[d.cast[0]].pd && all[q].pd != 0 ::
               Seen(done, cast, q) && q !in d.cast[1..]
    ensures BusyOk(all, done, cast, DispatchNext(all, d, DispatchCast), bound)
  {
    var a, d' := d.cast[0], DispatchNext(all, d, DispatchCast);
    forall r: nat ensures BusyAt(all, done, cast, d', bound, r) {
      assert BusyAt(all, done, cast, d, bound, r);
      if r == all[a].pd {
        assert forall q: nat | q < bound :: r != 0 ==> !PendingWriter(all, done, cast, d'.cast, q, r);
      } else {
        PendingLater(all, done, cast, d.cast, all, done, cast, d'.cast, bound, r);
      }
    }
  }

  lemma {:induction false} CastHeadAlone(st: Pipe, q: nat)
    requires |st.core.all| == |st.core.done| && st.disp.cast != [] && st.disp.cast[0] < |st.core.all|
    requires RegistersOk(st) && OrderOk(st) && CastOk(st) && PlacedOk(st)
    requires q < Dispatched(|st.core.all|, st.disp)
    requires st.core.all[q].pd == st.core.all[st.disp.cast[0]].pd && st.core.all[q].pd != 0
    ensures Seen(st.core.done, st.cast, q) && q !in st.disp.cast[1..]
  {
    var all, done, a := st.core.all, st.core.done, st.disp.cast[0];
    assert Seen(done, st.cast, a);
    if Dispatched(|all|, st.disp) <= a { UndispatchedNotDone(st, a); }
    assert ReusePair(all, st.core.committed, q, a);
    assert q < st.core.committed ==> Seen(done, st.cast, q);
    var arrived := Arrived(|all|, st.disp);
    assert FreshPair(all, arrived, a, q);
    assert q in st.disp.cast ==> FreshPair(all, arrived, q, a);
  }

  lemma {:induction false} BusyLater(st: Pipe, st': Pipe)
    requires |st.core.all| == |st.core.done| <= |st'.core.all| == |st'.core.done|
    requires st'.disp.busy == st.disp.busy
    requires Dispatched(|st'.core.all|, st'.disp) == Dispatched(|st.core.all|, st.disp) <= |st.core.all|
    requires BusyOk(st.core.all, st.core.done, st.cast, st.disp, Dispatched(|st.core.all|, st.disp))
    requires forall q | 0 <= q < |st.core.all| :: st'.core.all[q] == st.core.all[q]
    requires forall q | 0 <= q < |st.core.all| ::
               (!st.core.done[q] || q in st.cast || q in st.disp.cast)
               <==> (!st'.core.done[q] || q in st'.cast || q in st'.disp.cast)
    ensures BusyOk(st'.core.all, st'.core.done, st'.cast, st'.disp, Dispatched(|st'.core.all|, st'.disp))
  {
    var d := Dispatched(|st.core.all|, st.disp);
    forall r: nat ensures BusyAt(st'.core.all, st'.core.done, st'.cast, st'.disp, d, r) {
      assert BusyAt(st.core.all, st.core.done, st.cast, st.disp, d, r);
      PendingLater(st.core.all, st.core.done, st.cast, st.disp.cast,
                   st'.core.all, st'.core.done, st'.cast, st'.disp.cast, d, r);
    }
  }

  lemma {:induction false} BusyDispatch(p: Params, sem: Semantics, st: Pipe, de: DispatchEvent)
    requires WellShaped(p, st) && Allowed(p, st, InDispatch(de))
    requires OrderOk(st) && CastOk(st) && RegistersOk(st) && PlacedOk(st)
    requires BusyOk(st.core.all, st.core.done, st.cast, st.disp, Dispatched(|st.core.all|, st.disp))
    ensures var d' := DispatchNext(st.core.all, st.disp, de);
            BusyOk(st.core.all, st.core.done, st.cast, d', Dispatched(|st.core.all|, d'))
  {
    var all, d := st.core.all, Dispatched(|st.core.all|, st.disp);
    match de
    case DispatchArrive =>
      UndispatchedNotDone(st, d);
      BusyArrive(all, st.core.done, st.cast, st.disp, d);
    case DispatchCast =>
      forall q: nat | q < d && q < |all| && all[q].pd == all[st.disp.cast[0]].pd && all[q].pd != 0
        ensures Seen(st.core.done, st.cast, q) && q !in st.disp.cast[1..]
      {
        CastHeadAlone(st, q);
      }
      BusyCast(all, st.core.done, st.cast, st.disp, d);
    case _ => BusyLater(st, st.(disp := DispatchNext(all, st.disp, de)));
  }

  lemma {:induction false} BusyStep(p: Params, sem: Semantics, st: Pipe, a: Action)
    requires WellShaped(p, st) && Allowed(p, st, a)
    requires OrderOk(st) && CastOk(st) && RegistersOk(st) && PlacedOk(st)
    requires BusyOk(st.core.all, st.core.done, st.cast, st.disp, Dispatched(|st.core.all|, st.disp))
    ensures var st' := Act(p, sem, st, a);
            BusyOk(st'.core.all, st'.core.done, st'.cast, st'.disp, Dispatched(|st'.core.all|, st'.disp))
  {
    match a
    case InDispatch(de) => BusyDispatch(p, sem, st, de);
    case Arbitrate(s) => WriteBackIsFirst(st, s); BusyLater(st, Act(p, sem, st, a));
    case Tick => BusyLater(st, AfterTick(p, st));
    case _ => BusyLater(st, Act(p, sem, st, a));
  }

  /* ---------- the lanes ---------- */

  ghost predicate LanesOk(st: Pipe)
    requires |st.core.all| == |st.core.done|
  {
    forall s | 0 <= s < |st.lanes| ::
      LaneOk(st.core.all, st.core.done, st.cast,
             Dispatched(|st.core.all|, st.disp), Allocated(|st.core.all|, st.rob), st.lanes[s])
  }

  // The mark dispatch puts on a source is right: a busy register has an older pending writer,
  // and a register that is not busy has none.
  lemma {:induction false} SelectMark(p: Params, st: Pipe, u: nat, r: nat)
    requires WellShaped(p, st) && RegsInv(p.regs, st.core) && st.disp.cast == []
    requires BusyOk(st.core.all, st.core.done, st.cast, st.disp, Dispatched(|st.core.all|, st.disp))
    requires st.core.committed <= u < Dispatched(|st.core.all|, st.disp)
    requires r == st.core.all[u].p1 || r == st.core.all[u].p2
    ensures Marked(st.core.all, st.core.done, st.cast, [], u, r, r in st.disp.busy)
  {
    var m, d := st.core, Dispatched(|st.core.all|, st.disp);
    assert BusyAt(m.all, m.done, st.cast, st.disp, d, r);
    if r in st.disp.busy {
      var q :| 0 <= q < d && PendingWriter(m.all, m.done, st.cast, [], q, r);
      if u <= q {
        NoEarlyReuse(p.regs, m.regs, m.all, m.committed, u, q);
      }
    } else if r != 0 {
      forall q | 0 <= q < u && m.all[q].pd == r ensures m.done[q] {
        assert !PendingWriter(m.all, m.done, st.cast, [], q, r);
      }
    }
  }

  lemma {:induction false} LanesSelect(p: Params, sem: Semantics, st: Pipe, s: nat)
    requires WellShaped(p, st) && Allowed(p, st, Select(s)) && LanesOk(st)
    requires OrderOk(st) && PlacedOk(st) && RegsInv(p.regs, st.core)
    requires forall u | 0 <= u < st.core.committed :: st.core.done[u]
    requires BusyOk(st.core.all, st.core.done, st.cast, st.disp, Dispatched(|st.core.all|, st.disp))
    ensures LanesOk(Act(p, sem, st, Select(s)))
  {
    var k := FirstEligible(st.core.all, p.lanes[s].supports, st.disp.queue);
    var u := st.disp.queue[k].uid;
    SelectedNotDone(st, k);
    SelectMark(p, st, u, st.core.all[u].p1);
    SelectMark(p, st, u, st.core.all[u].p2);
    var l, l' := st.lanes[s], AfterSelect(p, st, s).lanes[s];
    SentAppend(st.core.all, st.core.done, st.cast, Dispatched(|st.core.all|, st.disp), l.sent, l'.sent[|l.sent|]);
    assert LaneOk(st.core.all, st.core.done, st.cast,
                  Dispatched(|st.core.all|, st.disp), Allocated(|st.core.all|, st.rob), l);
  }

  lemma {:induction false} SentAppend(all: seq<Renamed>, done: seq<bool>, cast: seq<nat>, d: nat, ws: seq<Waiting>,
                                      w: Waiting)
    requires d <= |all| == |done| && SentOk(all, done, cast, [], d, ws) && WaitingOk(all, done, cast, [], d, w)
    ensures SentOk(all, done, cast, [], d, ws + [w])
  {
  }

  // Renaming, write-back and arrivals change nothing a lane depends on for the worse.
  lemma {:induction false} LanesLater(st: Pipe, st': Pipe)
    requires |st.core.all| == |st.core.done| <= |st'.core.all| == |st'.core.done| && LanesOk(st)
    requires Dispatched(|st.core.all|, st.disp) <= Dispatched(|st'.core.all|, st'.disp)
    requires Allocated(|st.core.all|, st.rob) <= Allocated(|st'.core.all|, st'.rob)
    requires forall k | 0 <= k < |st.core.all| :: st'.core.all[k] == st.core.all[k]
    requires forall k | 0 <= k < |st.core.all| :: st.core.done[k] ==> st'.core.done[k]
    requires forall k | 0 <= k < |st.core.all| ::
               !st.core.done[k] || k in st.cast ==> !st'.core.done[k] || k in st'.cast
    requires st'.lanes == st.lanes
    ensures LanesOk(st')
  {
    forall s | 0 <= s < |st.lanes|
      ensures LaneOk(st'.core.all, st'.core.done, st'.cast,
                     Dispatched(|st'.core.all|, st'.disp), Allocated(|st'.core.all|, st'.rob), st'.lanes[s])
    {
      LaneLater(st.core.all, st.core.done, st.cast,
                Dispatched(|st.core.all|, st.disp), Allocated(|st.core.all|, st.rob),
                st'.core.all, st'.core.done, st'.cast,
                Dispatched(|st'.core.all|, st'.disp), Allocated(|st'.core.all|, st'.rob), st.lanes[s]);
    }
  }

  lemma {:induction false} LanesArbitrate(p: Params, sem: Semantics, st: Pipe, s: nat)
    requires WellShaped(p, st) && Allowed(p, st, Arbitrate(s)) && LanesOk(st)
    ensures LanesOk(Act(p, sem, st, Arbitrate(s)))
  {
    var st' := Act(p, sem, st, Arbitrate(s));
    var mid := st'.(lanes := st.lanes);
    LanesLater(st, mid);
    assert LaneOk(mid.core.all, mid.core.done, mid.cast,
                  Dispatched(|mid.core.all|, mid.disp), Allocated(|mid.core.all|, mid.rob), st.lanes[s]);
  }

  lemma {:induction false} LanesTick(p: Params, sem: Semantics, st: Pipe)
    requires WellShaped(p, st) && Quiet(st) && LanesOk(st) && OrderOk(st)
    ensures LanesOk(AfterTick(p, st))
  {
    var st', d := AfterTick(p, st), Dispatched(|st.core.all|, st.disp);
    assert Allocated(|st.core.all|, st.rob) == d;
    forall s | 0 <= s < |st.lanes|
      ensures LaneOk(st.core.all, st.core.done, [],
                     Dispatched(|st'.core.all|, st'.disp), Allocated(|st'.core.all|, st'.rob), st'.lanes[s])
    {
      LaneAcrossTick(st.core.all, st.core.done, st.cast, d, st.lanes[s]);
    }
  }

  lemma {:induction false} LanesLocal(st: Pipe, s: nat, le: LaneEvent)
    requires |st.core.all| == |st.core.done| && s < |st.lanes| && LaneEnabled(st.core.all, st.lanes[s], le)
    requires LanesOk(st) && RegistersOk(st) && OrderOk(st) && CastOk(st)
    ensures LanesOk(st.(lanes := st.lanes[s := LaneNext(st.core.all, st.lanes[s], le)]))
  {
    if le == Forward {
      ForwardIsSafe(st, s);
    }
    LaneKeeps(st.core.all, st.core.done, st.cast,
              Dispatched(|st.core.all|, st.disp), Allocated(|st.core.all|, st.rob), st.lanes[s], le);
  }

  lemma {:induction false} LanesStep(p: Params, sem: Semantics, st: Pipe, a: Action)
    requires WellShaped(p, st) && Allowed(p, st, a) && LanesOk(st)
    requires OrderOk(st) && CastOk(st) && RegistersOk(st) && PlacedOk(st) && RegsInv(p.regs, st.core)
    requires forall u | 0 <= u < st.core.committed :: st.core.done[u]
    requires BusyOk(st.core.all, st.core.done, st.cast, st.disp, Dispatched(|st.core.all|, st.disp))
    ensures LanesOk(Act(p, sem, st, a))
  {
    match a
    case InLane(s, le) => LanesLocal(st, s, le);
    case Select(s) => LanesSelect(p, sem, st, s);
    case Arbitrate(s) => LanesArbitrate(p, sem, st, s);
    case Tick => LanesTick(p, sem, st);
    case _ => LanesLater(st, Act(p, sem, st, a));
  }

  /* ---------- credits and function types ---------- */

  // On every link: credit held, credit on its way, and instructions sent or still occupying an
  // entry add up to the depth of the receiver.
  predicate FrontCredits(depth: nat, f: Front) {
    f.credit + f.msg + |f.sent| + |f.arriving| + |f.queue| == depth
  }

  predicate DispatchCredits(depth: nat, d: Dispatch) {
    d.credit + d.msg + |d.sent| + |d.arriving| + |Unissued(d.queue)| == depth
  }

  predicate RobCredits(depth: nat, r: Rob) {
    r.credit + r.msg + |r.sent| + |r.arriving| + |r.entries| == depth
  }

  predicate CreditsOk(p: Params, st: Pipe)
    requires |st.lanes| == |p.lanes|
  {
    && FrontCredits(p.frontDepth, st.front)
    && DispatchCredits(p.dispDepth, st.disp)
    && RobCredits(p.robDepth, st.rob)
    && forall s | 0 <= s < |st.lanes| :: LaneCredits(p.lanes[s], st.lanes[s])
  }

  lemma {:induction false} CreditsDispatch(depth: nat, all: seq<Renamed>, d: Dispatch, de: DispatchEvent)
    requires DispatchEnabled(all, d, de) && DispatchCredits(depth, d)
    ensures DispatchCredits(depth, DispatchNext(all, d, de))
  {
    if de == DispatchArrive {
      UnissuedSnoc(d.queue, Entry(d.arriving[0], false, ()));
    }
  }

  lemma {:induction false} CreditsSelect(p: Params, st: Pipe, s: nat)
    requires WellShaped(p, st) && Allowed(p, st, Select(s)) && CreditsOk(p, st)
    ensures CreditsOk(p, AfterSelect(p, st, s))
  {
    UnissuedIssue(st.disp.queue, FirstEligible(st.core.all, p.lanes[s].supports, st.disp.queue), 0);
    assert LaneCredits(p.lanes[s], st.lanes[s]);
  }

  lemma {:induction false} CreditsTick(p: Params, st: Pipe)
    requires WellShaped(p, st) && Quiet(st) && CreditsOk(p, st)
    ensures CreditsOk(p, AfterTick(p, st))
  {
    var st' := AfterTick(p, st);
    forall s | 0 <= s < |st.lanes| ensures LaneCredits(p.lanes[s], st'.lanes[s]) {
      assert LaneQuiet(st.lanes[s]) && LaneCredits(p.lanes[s], st.lanes[s]);
    }
  }

  lemma {:induction false} CreditsStep(p: Params, sem: Semantics, st: Pipe, a: Action)
    requires WellShaped(p, st) && Allowed(p, st, a) && CreditsOk(p, st)
    ensures CreditsOk(p, Act(p, sem, st, a))
  {
    match a
    case InDispatch(de) => CreditsDispatch(p.dispDepth, st.core.all, st.disp, de);
    case InLane(s, le) => LaneCreditsKeep(st.core.all, p.lanes[s], st.lanes[s], le);
    case Select(s) => CreditsSelect(p, st, s);
    case Arbitrate(s) => assert LaneCredits(p.lanes[s], st.lanes[s]);
    case Tick => CreditsTick(p, st);
    case _ =>
  }

  // A lane only ever holds instructions of a type it supports.
  predicate TypedAt(all: seq<Renamed>, supports: set<nat>, l: Lane, u: nat) {
    LaneCount(l, u) > 0 ==> u < |all| && all[u].inst.fu in supports
  }

  ghost predicate TypedOk(p: Params, st: Pipe, s: nat)
    requires s < |p.lanes| && s < |st.lanes|
  {
    forall u: nat :: TypedAt(st.core.all, p.lanes[s].supports, st.lanes[s], u)
  }

  lemma {:induction false} SelectCountAfter(p: Params, st: Pipe, s: nat, u: nat)
    requires WellShaped(p, st) && Allowed(p, st, Select(s))
    ensures LaneCount(AfterSelect(p, st, s).lanes[s], u) <= LaneCount(st.lanes[s], u)
         || (u < |st.core.all| && st.core.all[u].inst.fu in p.lanes[s].supports)
  {
    var l' := AfterSelect(p, st, s).lanes[s];
    LaneSentCount(st.lanes[s], l', l'.sent[|l'.sent| - 1], u);
  }

  lemma {:induction false} WriteBackCount(l: Lane, u: nat)
    requires l.wbQueue != []
    ensures LaneCount(l.(wbQueue := l.wbQueue[1..]), u) <= LaneCount(l, u)
  {
    CountTail(l.wbQueue, u);
  }

  lemma {:induction false} LaneCountAfter(p: Params, sem: Semantics, st: Pipe, a: Action, s: nat, u: nat)
    requires WellShaped(p, st) && Allowed(p, st, a) && s < |st.lanes|
    ensures LaneCount(Act(p, sem, st, a).lanes[s], u) <= LaneCount(st.lanes[s], u)
         || (a == Select(s) && u < |st.core.all| && st.core.all[u].inst.fu in p.lanes[s].supports)
  {
    match a
    case InLane(s', le) => if s' == s { LaneCountKeeps(st.core.all, st.lanes[s], le, u); }
    case Select(s') => if s' == s { SelectCountAfter(p, st, s, u); }
    case Arbitrate(s') => if s' == s { WriteBackCount(st.lanes[s], u); }
    case Tick => LaneTickCount(st.lanes[s], st.cast, u);
    case _ =>
  }

  lemma {:induction false} TypedStep(p: Params, sem: Semantics, st: Pipe, a: Action, s: nat)
    requires WellShaped(p, st) && Allowed(p, st, a) && s < |st.lanes| && TypedOk(p, st, s)
    ensures TypedOk(p, Act(p, sem, st, a), s)
  {
    var st' := Act(p, sem, st, a);
    forall u: nat ensures TypedAt(st'.core.all, p.lanes[s].supports, st'.lanes[s], u) {
      assert TypedAt(st.core.all, p.lanes[s].supports, st.lanes[s], u);
      LaneCountAfter(p, sem, st, a, s, u);
    }
  }
}
