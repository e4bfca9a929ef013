/**
  A wakeup that is lost is lost for good. From a state in which an operand waits for a register all of
  whose writers have been seen, no continuation validates the operand, so its instruction never
  executes and nothing from it on is ever committed. Both ordering edges prevent such a state.
 */
module LostWakeup {
  import opened Prelude
  import opened RenameCore
  import opened RenameMachine
  import opened Pipeline
  import opened PipelineLanes
  import opened PipelineInv
  import opened PipelineRun

  /* ---------- what holds even without the ordering edges ---------- */

  ghost predicate Sound(p: Params, st: Pipe) {
    WellShaped(p, st) && OrderOk(st) && CastOk(st) && PlacedOk(st) && RegsInv(p.regs, st.core)
  }

  lemma {:induction false} RegsKept(p: Params, sem: Semantics, st: Pipe, a: Action)
    requires Sound(p, st) && Allowed(p, st, a)
    ensures RegsInv(p.regs, Act(p, sem, st, a).core)
  {
    match a
    case RenameOne => RenameKeepsInv(p.regs, st.core.regs, st.core.all, st.core.committed, st.front.queue[0]);
    case RenameCommit => CommitKeepsInv(p.regs, st.core.regs, st.core.all, st.core.committed);
    case Arbitrate(s) =>
      var m := Act(p, sem, st, a).core;
      assert m.regs == st.core.regs && m.all == st.core.all;
    case _ => assert Act(p, sem, st, a).core == st.core;
  }

  lemma {:induction false} SoundStep(p: Params, sem: Semantics, st: Pipe, a: Action)
    requires Sound(p, st) && Allowed(p, st, a)
    ensures Sound(p, Act(p, sem, st, a))
  {
    var st' := Act(p, sem, st, a);
    OrderStep(p, sem, st, a);
    if a.Arbitrate? {
      WriteBackIsFirst(st, a.s);
    }
    CastStep(p, sem, st, a);
    RegsKept(p, sem, st, a);
    forall u: nat ensures PlacedAt(st'.disp, st'.lanes, st'.core.done, u) {
      assert PlacedAt(st.disp, st.lanes, st.core.done, u);
      PlacedStep(p, sem, st, a, u);
    }
  }

  lemma {:induction false} DrivenIsSound(p: Params, sem: Semantics, acts: seq<Action>, st: Pipe)
    requires Driven(p, sem, acts, st)
    ensures Sound(p, st)
  {
    RunOrder(p, sem, acts, st);
    RunCast(p, sem, acts, st);
    RunPlacedAll(p, sem, acts, st);
    PipelineRefinesRenaming(p, sem, acts, st);
    RunRegs(p.regs, sem, Project(p, sem, acts));
  }

  lemma {:induction false} UndoneIsUncommitted(p: Params, st: Pipe, u: nat)
    requires Sound(p, st) && u < |st.core.done| && !st.core.done[u]
    ensures st.core.committed <= u
  {
    assert u < st.core.committed ==> Seen(st.core.done, st.cast, u);
  }

  /* ---------- an operand that waits for nobody ---------- */

  datatype Place = OnTheWay | AtTheDoor | InStation

  // The first or the second source of an instruction on its way, of a station entry, of a lane.
  function Mark(w: Waiting, first: bool): bool { if first then w.f1 else w.f2 }
  function Validity(e: Entry<Operands>, first: bool): bool { if first then e.operands.v1 else e.operands.v2 }
  function Tab(l: Lane, first: bool): Table { if first then l.tab1 else l.tab2 }

  // Instruction `u` waits on that source, at position `i` of the place.
  predicate Waits(l: Lane, first: bool, u: nat, where: Place, i: nat) {
    match where
    case OnTheWay => i < |l.sent| && l.sent[i].uid == u && Mark(l.sent[i], first)
    case AtTheDoor => i < |l.arriving| && l.arriving[i].uid == u && Mark(l.arriving[i], first)
    case InStation =>
      i < |l.entries| && l.entries[i].uid == u && !l.entries[i].issued && !Validity(l.entries[i], first)
  }

  // The results that could still reach it in this cycle.
  function Inbox(l: Lane, where: Place): seq<nat> {
    if where == OnTheWay then [] else l.forwards
  }

  // If `q` writes register `r`, its result has passed.
  predicate Past(all: seq<Renamed>, done: seq<bool>, cast: seq<nat>, inbox: seq<nat>, r: nat, q: nat) {
    q < |all| && all[q].pd == r ==> Seen(done, cast, q) && q !in inbox
  }

  ghost predicate AllPast(all: seq<Renamed>, done: seq<bool>, cast: seq<nat>, inbox: seq<nat>, r: nat) {
    forall q: nat :: Past(all, done, cast, inbox, r, q)
  }

  ghost predicate Lost(st: Pipe, s: nat, first: bool, u: nat, where: Place, i: nat) {
    && s < |st.lanes| && u < |st.core.all| == |st.core.done| && Source(st.core.all[u], first) != 0
    && TableOk(st.core.all, |st.core.all|, Tab(st.lanes[s], first), first)
    && Waits(st.lanes[s], first, u, where, i)
    && AllPast(st.core.all, st.core.done, st.cast, Inbox(st.lanes[s], where), Source(st.core.all[u], first))
  }

  lemma {:induction false} LostIsUndone(p: Params, st: Pipe, s: nat, first: bool, u: nat, where: Place, i: nat)
    requires Sound(p, st) && Lost(st, s, first, u, where, i)
    ensures !st.core.done[u] && st.core.committed <= u
  {
    var l := st.lanes[s];
    match where {
      case OnTheWay => assert Uids(l.sent)[i] == u; CountMember(Uids(l.sent), i);
      case AtTheDoor => assert Uids(l.arriving)[i] == u; CountMember(Uids(l.arriving), i);
      case InStation => UnissuedHere(l.entries, i);
    }
    LanesCountMember(st.lanes, s, u);
    assert PlacedAt(st.disp, st.lanes, st.core.done, u);
    UndoneIsUncommitted(p, st, u);
  }

  lemma {:induction false} UnissuedHere(es: seq<Entry<Operands>>, i: nat)
    requires i < |es| && !es[i].issued
    ensures Count(Unissued(es), es[i].uid) >= 1
  {
    if i > 0 {
      assert es[1..][i - 1] == es[i];
      UnissuedHere(es[1..], i - 1);
      if !es[0].issued {
        assert Unissued(es)[1..] == Unissued(es[1..]);
        CountTail(Unissued(es), es[i].uid);
      }
    } else {
      CountMember(Unissued(es), 0);
    }
  }

  lemma {:induction false} TableStep(all: seq<Renamed>, l: Lane, le: LaneEvent, first: bool)
    requires LaneEnabled(all, l, le) && TableOk(all, |all|, Tab(l, first), first)
    ensures TableOk(all, |all|, Tab(LaneNext(all, l, le), first), first)
  {
    match le
    case Arrive =>
      var w := l.arriving[0];
      RegisterKeeps(Tab(l, first), Mark(w, first), Source(all[w.uid], first), w.uid);
    case Forward => ClearKeeps(all, |all|, Tab(l, first), first, all[l.forwards[0]].pd);
    case _ =>
  }

  lemma {:induction false} NotRegistered(all: seq<Renamed>, tab: Table, first: bool, u: nat, r: nat)
    requires TableOk(all, |all|, tab, first) && u < |all| && Source(all[u], first) != r
    ensures !InBucket(tab, r, u)
  {
  }

  // No step of the lane validates the operand: the results it forwards are for other registers.
  lemma {:induction false} StillWaits(all: seq<Renamed>, l: Lane, le: LaneEvent, first: bool, u: nat, where: Place,
                                      i: nat)
    returns (where': Place, i': nat)
    requires LaneEnabled(all, l, le) && u < |all| && Waits(l, first, u, where, i)
    requires TableOk(all, |all|, Tab(l, first), first)
    requires forall j | 0 <= j < |Inbox(l, where)| ::
               Inbox(l, where)[j] < |all| ==> all[Inbox(l, where)[j]].pd != Source(all[u], first)
    ensures Waits(LaneNext(all, l, le), first, u, where', i')
    ensures where' == OnTheWay <==> where == OnTheWay
  {
    where', i' := where, i;
    var l' := LaneNext(all, l, le);
    if le == Arrive && where == AtTheDoor {
      if i == 0 {
        where', i' := InStation, |l.entries|;
      } else {
        i' := i - 1;
        assert l'.arriving[i'] == l.arriving[i];
      }
    } else if le == Pop && where == InStation {
      i' := i - 1;
      assert l'.entries[i'] == l.entries[i];
    } else if le == Forward && where == InStation {
      assert Inbox(l, where)[0] == l.forwards[0];
      NotRegistered(all, Tab(l, first), first, u, all[l.forwards[0]].pd);
    }
  }

  lemma {:induction false} PastLater(all: seq<Renamed>, done: seq<bool>, cast: seq<nat>, inbox: seq<nat>,
                                     done': seq<bool>, cast': seq<nat>, inbox': seq<nat>, r: nat)
    requires AllPast(all, done, cast, inbox, r)
    requires forall q: nat | Seen(done, cast, q) && q !in inbox :: Seen(done', cast', q) && q !in inbox'
    ensures AllPast(all, done', cast', inbox', r)
  {
    forall q: nat ensures Past(all, done', cast', inbox', r, q) {
      assert Past(all, done, cast, inbox, r, q);
    }
  }

  lemma {:induction false} LostInLane(st: Pipe, s: nat, le: LaneEvent, first: bool, u: nat, where: Place, i: nat)
    returns (where': Place, i': nat)
    requires Lost(st, s, first, u, where, i) && LaneEnabled(st.core.all, st.lanes[s], le)
    ensures Lost(st.(lanes := st.lanes[s := LaneNext(st.core.all, st.lanes[s], le)]), s, first, u, where', i')
  {
    var all, l := st.core.all, st.lanes[s];
    var l' := LaneNext(all, l, le);
    forall j | 0 <= j < |Inbox(l, where)| && Inbox(l, where)[j] < |all|
      ensures all[Inbox(l, where)[j]].pd != Source(all[u], first)
    {
      assert Past(all, st.core.done, st.cast, Inbox(l, where), Source(all[u], first), Inbox(l, where)[j]);
    }
    where', i' := StillWaits(all, l, le, first, u, where, i);
    TableStep(all, l, le, first);
    PastLater(all, st.core.done, st.cast, Inbox(l, where),
              st.core.done, st.cast, Inbox(l', where'), Source(all[u], first));
  }

  // Nothing renamed later claims the register: it is a source of an instruction still in flight.
  lemma {:induction false} LostRename(p: Params, sem: Semantics, st: Pipe, s: nat, first: bool, u: nat, where: Place,
                                      i: nat)
    requires Sound(p, st) && Allowed(p, st, RenameOne) && Lost(st, s, first, u, where, i)
    ensures Lost(Act(p, sem, st, RenameOne), s, first, u, where, i)
  {
    var st', n := Act(p, sem, st, RenameOne), |st.core.all|;
    SoundStep(p, sem, st, RenameOne);
    LostIsUndone(p, st, s, first, u, where, i);
    NoEarlyReuse(p.regs, st'.core.regs, st'.core.all, st'.core.committed, u, n);
    var inbox, r := Inbox(st.lanes[s], where), Source(st.core.all[u], first);
    forall q: nat ensures Past(st'.core.all, st'.core.done, st'.cast, inbox, r, q) {
      assert Past(st.core.all, st.core.done, st.cast, inbox, r, q);
    }
    assert TableOk(st.core.all, n, Tab(st.lanes[s], first), first);
  }

  lemma {:induction false} LostTick(p: Params, sem: Semantics, st: Pipe, s: nat, first: bool, u: nat, where: Place,
                                    i: nat)
    returns (where': Place)
    requires WellShaped(p, st) && Quiet(st) && Lost(st, s, first, u, where, i)
    ensures Lost(Act(p, sem, st, Tick), s, first, u, where', i)
  {
    assert LaneQuiet(st.lanes[s]);
    where' := if where == OnTheWay then AtTheDoor else where;
    PastLater(st.core.all, st.core.done, st.cast, Inbox(st.lanes[s], where),
              st.core.done, [], st.cast, Source(st.core.all[u], first));
  }

  lemma {:induction false} LostSelect(p: Params, sem: Semantics, st: Pipe, t: nat, s: nat, first: bool, u: nat,
                                      where: Place, i: nat)
    requires WellShaped(p, st) && Allowed(p, st, Select(t)) && Lost(st, s, first, u, where, i)
    ensures Lost(Act(p, sem, st, Select(t)), s, first, u, where, i)
  {
  }

  lemma {:induction false} LostArbitrate(p: Params, sem: Semantics, st: Pipe, t: nat, s: nat, first: bool, u: nat,
                                         where: Place, i: nat)
    requires Sound(p, st) && Allowed(p, st, Arbitrate(t)) && Lost(st, s, first, u, where, i)
    ensures Lost(Act(p, sem, st, Arbitrate(t)), s, first, u, where, i)
  {
    var st' := Act(p, sem, st, Arbitrate(t));
    WriteBackIsFirst(st, t);
    PastLater(st.core.all, st.core.done, st.cast, Inbox(st.lanes[s], where),
              st'.core.done, st'.cast, Inbox(st.lanes[s], where), Source(st.core.all[u], first));
  }

  lemma {:induction false} LostStep(p: Params, sem: Semantics, st: Pipe, a: Action, s: nat, first: bool, u: nat,
                                    where: Place, i: nat)
    returns (where': Place, i': nat)
    requires Sound(p, st) && Allowed(p, st, a) && Lost(st, s, first, u, where, i)
    ensures Lost(Act(p, sem, st, a), s, first, u, where', i')
  {
    where', i' := where, i;
    match a
    case InLane(t, le) => if t == s { where', i' := LostInLane(st, s, le, first, u, where, i); }
    case RenameOne => LostRename(p, sem, st, s, first, u, where, i);
    case Select(t) => LostSelect(p, sem, st, t, s, first, u, where, i);
    case Arbitrate(t) => LostArbitrate(p, sem, st, t, s, first, u, where, i);
    case Tick => where' := LostTick(p, sem, st, s, first, u, where, i);
    case _ =>
  }

  /* ---------- for good ---------- */

  // The state after `acts` from `st`, or None if one of them was not possible.
  function DriveFrom(p: Params, sem: Semantics, st: Pipe, acts: seq<Action>): (r: Option<Pipe>)
    requires WellShaped(p, st)
    ensures r.Some? ==> WellShaped(p, r.value)
  {
    if acts == [] then Some(st)
    else
      var r := DriveFrom(p, sem, st, acts[..|acts| - 1]);
      if r.None? || !Allowed(p, r.value, acts[|acts| - 1]) then None
      else Some(Act(p, sem, r.value, acts[|acts| - 1]))
  }

  lemma {:induction false} LostAlong(p: Params, sem: Semantics, st: Pipe, s: nat, first: bool, u: nat, where: Place,
                                     i: nat, acts: seq<Action>, st': Pipe)
    returns (where': Place, i': nat)
    requires Sound(p, st) && Lost(st, s, first, u, where, i) && DriveFrom(p, sem, st, acts) == Some(st')
    ensures Sound(p, st') && Lost(st', s, first, u, where', i')
  {
    if acts == [] {
      where', i' := where, i;
    } else {
      var acts0, a := acts[..|acts| - 1], acts[|acts| - 1];
      var st0 := DriveFrom(p, sem, st, acts0).value;
      where', i' := LostAlong(p, sem, st, s, first, u, where, i, acts0, st0);
      SoundStep(p, sem, st0, a);
      where', i' := LostStep(p, sem, st0, a, s, first, u, where', i');
    }
  }

  // Nothing the pipeline does from `st` on executes or commits instruction `u`.
  ghost predicate NeverCommits(p: Params, sem: Semantics, st: Pipe, u: nat)
    requires WellShaped(p, st)
  {
    forall acts, st' :: DriveFrom(p, sem, st, acts) == Some(st') ==>
      u < |st'.core.done| && !st'.core.done[u] && st'.core.committed <= u
  }

  // Main result: an operand that waits for nobody waits for ever.
  lemma {:induction false} LostForGood(p: Params, sem: Semantics, st: Pipe, s: nat, first: bool, u: nat,
                                       where: Place, i: nat)
    requires Sound(p, st) && Lost(st, s, first, u, where, i)
    ensures NeverCommits(p, sem, st, u)
  {
    forall acts, st' | DriveFrom(p, sem, st, acts) == Some(st')
      ensures u < |st'.core.done| && !st'.core.done[u] && st'.core.committed <= u
    {
      var where', i' := LostAlong(p, sem, st, s, first, u, where, i, acts, st');
      LostIsUndone(p, st', s, first, u, where', i');
    }
  }

  /* ---------- the allocation-first edge ---------- */

  // The only result an operand arriving at the station waits for is due for forwarding in this cycle.
  predicate Crosses(st: Pipe, l: Lane, first: bool) {
    && l.arriving != [] && l.forwards != [] && l.forwards[0] < |st.core.all| && l.arriving[0].uid < |st.core.all|
    && Mark(l.arriving[0], first) && Source(st.core.all[l.arriving[0].uid], first) == st.core.all[l.forwards[0]].pd
    && forall q | 0 <= q < l.arriving[0].uid && q != l.forwards[0] ::
         !PendingWriter(st.core.all, st.core.done, st.cast, l.forwards, q, st.core.all[l.forwards[0]].pd)
  }

  // The lane if the result is forwarded first and the instruction allocated after it.
  function ForwardedFirst(all: seq<Renamed>, l: Lane): Lane
    requires l.arriving != [] && l.forwards != [] && l.forwards[0] < |all| && l.arriving[0].uid < |all|
  {
    LaneNext(all, Resolve(l, all[l.forwards[0]].pd).(forwards := l.forwards[1..]), Arrive)
  }

  lemma {:induction false} ForwardedCount(all: seq<Renamed>, l: Lane, u: nat)
    requires l.arriving != [] && l.forwards != [] && l.forwards[0] < |all| && l.arriving[0].uid < |all|
    ensures LaneCount(ForwardedFirst(all, l), u) == LaneCount(l, u)
  {
    var l1 := Resolve(l, all[l.forwards[0]].pd).(forwards := l.forwards[1..]);
    UnissuedSame(l.entries, l1.entries);
    LaneCountKeeps(all, l1, Arrive, u);
  }

  lemma {:induction false} ForwardedSound(p: Params, st: Pipe, s: nat, l': Lane)
    requires Sound(p, st) && s < |st.lanes| && st.lanes[s].forwards != [] && l'.forwards == st.lanes[s].forwards[1..]
    requires forall u: nat :: LaneCount(l', u) == LaneCount(st.lanes[s], u)
    ensures Sound(p, st.(lanes := st.lanes[s := l']))
  {
    var lanes' := st.lanes[s := l'];
    assert InboxOk(st.core.done, st.cast, st.lanes[s].forwards);
    forall u: nat ensures PlacedAt(st.disp, lanes', st.core.done, u) {
      assert PlacedAt(st.disp, st.lanes, st.core.done, u);
      LanesCountUpdate(st.lanes, s, l', u);
    }
  }

  // No writer of a source of an in-flight instruction is younger than it.
  lemma {:induction false} OnlyOlderWriters(p: Params, st: Pipe, first: bool, u: nat, q: nat)
    requires Sound(p, st) && u < |st.core.all| && Source(st.core.all[u], first) != 0 && !st.core.done[u]
    requires q < |st.core.all| && st.core.all[q].pd == Source(st.core.all[u], first)
    ensures q < u
  {
    UndoneIsUncommitted(p, st, u);
    if u <= q {
      NoEarlyReuse(p.regs, st.core.regs, st.core.all, st.core.committed, u, q);
    }
  }

  // What a driven state says about the head of the inbox.
  lemma {:induction false} AtTheDoorOk(p: Params, sem: Semantics, acts: seq<Action>, st: Pipe, s: nat, first: bool)
    requires Driven(p, sem, acts, st) && s < |st.lanes| && st.lanes[s].arriving != []
    requires Mark(st.lanes[s].arriving[0], first)
    ensures var l, all := st.lanes[s], st.core.all;
            && l.arriving[0].uid < |all| && Source(all[l.arriving[0].uid], first) != 0
            && !st.core.done[l.arriving[0].uid]
            && TableOk(all, |all|, Tab(l, first), first)
  {
    RunLanes(p, sem, acts, st);
    var l, b := st.lanes[s], Allocated(|st.core.all|, st.rob);
    assert LaneOk(st.core.all, st.core.done, st.cast, Dispatched(|st.core.all|, st.disp), b, l);
    assert WaitingOk(st.core.all, st.core.done, st.cast, l.forwards, b, l.arriving[0]);
    assert Uids(l.arriving)[0] == l.arriving[0].uid;
    CountMember(Uids(l.arriving), 0);
    LanesCountMember(st.lanes, s, l.arriving[0].uid);
    RunPlaced(p, sem, acts, st, l.arriving[0].uid);
    assert TableOk(st.core.all, b, Tab(l, first), first);
  }

  lemma {:induction false} ForwardedTable(all: seq<Renamed>, l: Lane, first: bool)
    requires l.arriving != [] && l.forwards != [] && l.forwards[0] < |all| && l.arriving[0].uid < |all|
    requires TableOk(all, |all|, Tab(l, first), first)
    ensures TableOk(all, |all|, Tab(ForwardedFirst(all, l), first), first)
  {
    ClearKeeps(all, |all|, Tab(l, first), first, all[l.forwards[0]].pd);
    TableStep(all, Resolve(l, all[l.forwards[0]].pd).(forwards := l.forwards[1..]), Arrive, first);
  }

  lemma {:induction false} ForwardedPast(p: Params, st: Pipe, s: nat, first: bool)
    requires Sound(p, st) && s < |st.lanes| && Crosses(st, st.lanes[s], first)
    requires var u := st.lanes[s].arriving[0].uid; Source(st.core.all[u], first) != 0 && !st.core.done[u]
    ensures AllPast(st.core.all, st.core.done, st.cast, st.lanes[s].forwards[1..],
                    Source(st.core.all[st.lanes[s].arriving[0].uid], first))
  {
    var l, all, done := st.lanes[s], st.core.all, st.core.done;
    var u, a, r := l.arriving[0].uid, l.forwards[0], all[l.forwards[0]].pd;
    assert InboxOk(done, st.cast, l.forwards);
    assert Seen(done, st.cast, a);
    forall q: nat ensures Past(all, done, st.cast, l.forwards[1..], r, q) {
      if q < |all| && all[q].pd == r {
        OnlyOlderWriters(p, st, first, u, q);
        assert q != a ==> !PendingWriter(all, done, st.cast, l.forwards, q, r);
      }
    }
  }

  // Main result: without the allocation-first edge of the station, where a result and an operand that
  // waits for it alone cross, the instruction and everything after it is never committed.
  lemma {:induction false} ForwardFirstBlocks(p: Params, sem: Semantics, acts: seq<Action>, st: Pipe, s: nat,
                                              first: bool)
    requires Driven(p, sem, acts, st) && s < |st.lanes| && Crosses(st, st.lanes[s], first)
    ensures var late := st.(lanes := st.lanes[s := ForwardedFirst(st.core.all, st.lanes[s])]);
            NeverCommits(p, sem, late, st.lanes[s].arriving[0].uid)
  {
    var l, l' := st.lanes[s], ForwardedFirst(st.core.all, st.lanes[s]);
    DrivenIsSound(p, sem, acts, st);
    AtTheDoorOk(p, sem, acts, st, s, first);
    forall u: nat ensures LaneCount(l', u) == LaneCount(l, u) {
      ForwardedCount(st.core.all, l, u);
    }
    ForwardedSound(p, st, s, l');
    ForwardedTable(st.core.all, l, first);
    ForwardedPast(p, st, s, first);
    LostForGood(p, sem, st.(lanes := st.lanes[s := l']), s, first, l.arriving[0].uid, InStation, |l.entries|);
  }

  /* ---------- the write-back-first edge ---------- */

  // The only result a source of the next instruction for lane `s` waits for is due at dispatch in
  // this cycle.
  predicate SelectsTooEarly(p: Params, st: Pipe, s: nat, first: bool)
    requires WellShaped(p, st)
  {
    && st.disp.cast != [] && st.disp.cast[0] < |st.core.all| && Allowed(p, Unhandled(st), Select(s))
    && var u := st.disp.queue[FirstEligible(st.core.all, p.lanes[s].supports, st.disp.queue)].uid;
       var r := st.core.all[st.disp.cast[0]].pd;
       && Source(st.core.all[u], first) == r && r in st.disp.busy
       && forall w | 0 <= w < u && w != st.disp.cast[0] :: !PendingWriter(st.core.all, st.core.done, st.cast, [], w, r)
  }

  // The state if lane `s` selects first and the results due at dispatch are handled after it.
  function SelectedFirst(p: Params, st: Pipe, s: nat): (st': Pipe)
    requires WellShaped(p, st) && Allowed(p, Unhandled(st), Select(s))
    ensures WellShaped(p, st')
  {
    var st1 := AfterSelect(p, Unhandled(st), s);
    st1.(disp := st1.disp.(cast := st.disp.cast))
  }

  lemma {:induction false} SelectedCast(p: Params, st: Pipe, s: nat)
    requires WellShaped(p, st) && CastOk(st) && Allowed(p, Unhandled(st), Select(s))
    ensures CastOk(SelectedFirst(p, st, s))
  {
    CastLater(st, SelectedFirst(p, st, s));
  }

  lemma {:induction false} SelectedSound(p: Params, sem: Semantics, st: Pipe, s: nat)
    requires Sound(p, st) && Allowed(p, Unhandled(st), Select(s))
    ensures Sound(p, SelectedFirst(p, st, s))
  {
    var st1, st' := Unhandled(st), SelectedFirst(p, st, s);
    SelectOrdered(|st.core.all|, st.disp, FirstEligible(st.core.all, p.lanes[s].supports, st.disp.queue));
    SelectedCast(p, st, s);
    forall u: nat ensures PlacedAt(st'.disp, st'.lanes, st'.core.done, u) {
      assert PlacedAt(st.disp, st.lanes, st.core.done, u);
      PlacedSelect(p, sem, st1, s, u);
    }
  }

  lemma {:induction false} SelectedPast(p: Params, st: Pipe, s: nat, first: bool)
    requires Sound(p, st) && SelectsTooEarly(p, st, s, first)
    requires var u := st.disp.queue[FirstEligible(st.core.all, p.lanes[s].supports, st.disp.queue)].uid;
             Source(st.core.all[u], first) != 0 && !st.core.done[u]
    ensures var u := st.disp.queue[FirstEligible(st.core.all, p.lanes[s].supports, st.disp.queue)].uid;
            AllPast(st.core.all, st.core.done, st.cast, [], Source(st.core.all[u], first))
  {
    var u := st.disp.queue[FirstEligible(st.core.all, p.lanes[s].supports, st.disp.queue)].uid;
    var a, r := st.disp.cast[0], Source(st.core.all[u], first);
    assert Seen(st.core.done, st.cast, a);
    forall q: nat ensures Past(st.core.all, st.core.done, st.cast, [], r, q) {
      if q < |st.core.all| && st.core.all[q].pd == r {
        OnlyOlderWriters(p, st, first, u, q);
        assert q != a ==> !PendingWriter(st.core.all, st.core.done, st.cast, [], q, r);
      }
    }
  }

  // Main result: without the write-back-first edge of dispatch, where the only result a source waits
  // for is due, the instruction and everything after it is never committed.
  lemma {:induction false} SelectFirstBlocks(p: Params, sem: Semantics, acts: seq<Action>, st: Pipe, s: nat,
                                             first: bool)
    requires Driven(p, sem, acts, st) && SelectsTooEarly(p, st, s, first)
    ensures var u := st.disp.queue[FirstEligible(st.core.all, p.lanes[s].supports, st.disp.queue)].uid;
            NeverCommits(p, sem, SelectedFirst(p, st, s), u)
  {
    var k := FirstEligible(st.core.all, p.lanes[s].supports, st.disp.queue);
    var u, st' := st.disp.queue[k].uid, SelectedFirst(p, st, s);
    DrivenIsSound(p, sem, acts, st);
    SelectedNotDone(st, k);
    RunBusy(p, sem, acts, st);
    assert BusyAt(st.core.all, st.core.done, st.cast, st.disp, Dispatched(|st.core.all|, st.disp),
                  Source(st.core.all[u], first));
    SelectedPast(p, st, s, first);
    SelectedSound(p, sem, st, s);
    RunLanes(p, sem, acts, st);
    var b := Allocated(|st.core.all|, st.rob);
    assert LaneOk(st.core.all, st.core.done, st.cast, Dispatched(|st.core.all|, st.disp), b, st.lanes[s]);
    assert TableOk(st.core.all, b, Tab(st.lanes[s], first), first);
    LostForGood(p, sem, st', s, first, u, OnTheWay, |st.lanes[s].sent|);
  }
}
