/**
  What one lane keeps: every operand still waiting has an older writer whose result has not
  reached the lane, every operand taken as valid has all its writers executed, and no instruction
  is lost, duplicated or passed on without credit.
 */
module PipelineLanes {
  import opened RenameCore
  import opened RenameMachine
  import opened Pipeline

  /* ---------- waiting and readiness ---------- */

  // `q` writes register `r` and its result has not been seen yet by whoever reads `inbox`.
  predicate PendingWriter(all: seq<Renamed>, done: seq<bool>, cast: seq<nat>, inbox: seq<nat>, q: nat, r: nat) {
    q < |all| && q < |done| && all[q].pd == r && (!done[q] || q in cast || q in inbox)
  }

  predicate HasPendingWriter(all: seq<Renamed>, done: seq<bool>, cast: seq<nat>, inbox: seq<nat>, bound: nat, r: nat) {
    exists q :: 0 <= q < bound && PendingWriter(all, done, cast, inbox, q, r)
  }

  // The mark of a source of instruction `u` is right: if it waits, an older writer is pending;
  // if it does not, every older writer has executed.
  predicate Marked(all: seq<Renamed>, done: seq<bool>, cast: seq<nat>, inbox: seq<nat>, u: nat, r: nat, wait: bool)
    requires u <= |all| == |done|
  {
    if wait then r != 0 && HasPendingWriter(all, done, cast, inbox, u, r) else Settled(all, done, u, r)
  }

  predicate WaitingOk(all: seq<Renamed>, done: seq<bool>, cast: seq<nat>, inbox: seq<nat>, bound: nat, w: Waiting)
    requires bound <= |all| == |done|
  {
    && w.uid < bound
    && Marked(all, done, cast, inbox, w.uid, all[w.uid].p1, w.f1)
    && Marked(all, done, cast, inbox, w.uid, all[w.uid].p2, w.f2)
  }

  predicate EntryOk(all: seq<Renamed>, done: seq<bool>, cast: seq<nat>, inbox: seq<nat>, bound: nat,
                    tab1: Table, tab2: Table, e: Entry<Operands>)
    requires bound <= |all| == |done|
  {
    && WaitingOk(all, done, cast, inbox, bound, Waiting(e.uid, !e.operands.v1, !e.operands.v2))
    && (!e.operands.v1 ==> InBucket(tab1, all[e.uid].p1, e.uid))
    && (!e.operands.v2 ==> InBucket(tab2, all[e.uid].p2, e.uid))
    && (e.issued ==> e.operands == Operands(true, true))
  }

  predicate InBucket(tab: Table, r: nat, u: nat) {
    u in Bucket(tab, r)
  }

  function Source(r: Renamed, first: bool): nat {
    if first then r.p1 else r.p2
  }

  // Buckets hold instructions under the register they wait for.
  ghost predicate TableOk(all: seq<Renamed>, bound: nat, tab: Table, first: bool)
    requires bound <= |all|
  {
    forall r: nat, u: nat :: InBucket(tab, r, u) ==> u < bound && Source(all[u], first) == r
  }

  predicate UidReady(all: seq<Renamed>, done: seq<bool>, bound: nat, u: nat)
    requires bound <= |all| == |done|
  {
    u < bound && SourcesSettled(all, done, u)
  }

  predicate AllReady(all: seq<Renamed>, done: seq<bool>, bound: nat, us: seq<nat>)
    requires bound <= |all| == |done|
  {
    forall i | 0 <= i < |us| :: UidReady(all, done, bound, us[i])
  }

  predicate SentOk(all: seq<Renamed>, done: seq<bool>, cast: seq<nat>, inbox: seq<nat>, bound: nat, ws: seq<Waiting>)
    requires bound <= |all| == |done|
  {
    forall i | 0 <= i < |ws| :: WaitingOk(all, done, cast, inbox, bound, ws[i])
  }

  predicate EntriesOk(all: seq<Renamed>, done: seq<bool>, cast: seq<nat>, inbox: seq<nat>, bound: nat,
                      tab1: Table, tab2: Table, es: seq<Entry<Operands>>)
    requires bound <= |all| == |done|
  {
    forall i | 0 <= i < |es| :: EntryOk(all, done, cast, inbox, bound, tab1, tab2, es[i])
  }

  ghost predicate StationOk(all: seq<Renamed>, done: seq<bool>, cast: seq<nat>, bound: nat, l: Lane)
    requires bound <= |all| == |done|
  {
    && EntriesOk(all, done, cast, l.forwards, bound, l.tab1, l.tab2, l.entries)
    && TableOk(all, bound, l.tab1, true)
    && TableOk(all, bound, l.tab2, false)
  }

  predicate UnitsOk(all: seq<Renamed>, done: seq<bool>, bound: nat, l: Lane)
    requires bound <= |all| == |done|
  {
    && AllReady(all, done, bound, l.fuSent) && AllReady(all, done, bound, l.fuArriving)
    && AllReady(all, done, bound, l.fuQueue)
    && AllReady(all, done, bound, l.wbArriving) && AllReady(all, done, bound, l.wbQueue)
  }

  // `d` instructions have reached the dispatch queue and `b` the reorder buffer.
  ghost predicate LaneOk(all: seq<Renamed>, done: seq<bool>, cast: seq<nat>, d: nat, b: nat, l: Lane)
    requires d <= |all| == |done| && b <= |all|
  {
    && SentOk(all, done, cast, [], d, l.sent)
    && SentOk(all, done, cast, l.forwards, b, l.arriving)
    && StationOk(all, done, cast, b, l)
    && UnitsOk(all, done, b, l)
  }

  lemma {:induction false} ArriveKeeps(all: seq<Renamed>, done: seq<bool>, cast: seq<nat>, b: nat, l: Lane)
    requires b <= |all| == |done| && LaneEnabled(all, l, Arrive)
    requires SentOk(all, done, cast, l.forwards, b, l.arriving) && StationOk(all, done, cast, b, l)
    ensures StationOk(all, done, cast, b, LaneNext(all, l, Arrive))
  {
    var w := l.arriving[0];
    var l' := LaneNext(all, l, Arrive);
    assert WaitingOk(all, done, cast, l.forwards, b, w);
    RegisterKeeps(l.tab1, w.f1, all[w.uid].p1, w.uid);
    RegisterKeeps(l.tab2, w.f2, all[w.uid].p2, w.uid);
    forall i | 0 <= i < |l'.entries|
      ensures EntryOk(all, done, cast, l.forwards, b, l'.tab1, l'.tab2, l'.entries[i])
    {
      if i < |l.entries| {
        assert EntryOk(all, done, cast, l.forwards, b, l.tab1, l.tab2, l.entries[i]);
      } else {
        assert Waiting(w.uid, !!w.f1, !!w.f2) == w;
      }
    }
  }

  lemma {:induction false} RegisterKeeps(tab: Table, wait: bool, r: nat, u: nat)
    ensures wait ==> InBucket(Register(tab, wait, r, u), r, u)
    ensures forall r': nat, u': nat :: InBucket(Register(tab, wait, r, u), r', u') <==>
              InBucket(tab, r', u') || (wait && r' == r && u' == u)
  {
  }

  // Forwarding a result whose register has no unexecuted writer among the allocated instructions
  // wakes only operands that are ready, and leaves no operand waiting for that result.
  lemma {:induction false} ForwardKeeps(all: seq<Renamed>, done: seq<bool>, cast: seq<nat>, b: nat, l: Lane)
    requires b <= |all| == |done| && LaneEnabled(all, l, Forward)
    requires StationOk(all, done, cast, b, l)
    requires Settled(all, done, b, all[l.forwards[0]].pd)
    ensures StationOk(all, done, cast, b, LaneNext(all, l, Forward))
  {
    var l' := LaneNext(all, l, Forward);
    var r := all[l.forwards[0]].pd;
    forall i | 0 <= i < |l'.entries|
      ensures EntryOk(all, done, cast, l'.forwards, b, l'.tab1, l'.tab2, l'.entries[i])
    {
      var e := l.entries[i];
      assert EntryOk(all, done, cast, l.forwards, b, l.tab1, l.tab2, e);
      WakeMark(all, done, cast, l.forwards, b, l.tab1, true, e.uid, e.operands.v1);
      WakeMark(all, done, cast, l.forwards, b, l.tab2, false, e.uid, e.operands.v2);
    }
    ClearKeeps(all, b, l.tab1, true, r);
    ClearKeeps(all, b, l.tab2, false, r);
  }

  lemma {:induction false} ClearKeeps(all: seq<Renamed>, b: nat, tab: Table, first: bool, r: nat)
    requires b <= |all| && TableOk(all, b, tab, first)
    ensures TableOk(all, b, tab[r := []], first)
  {
    var tab' := tab[r := []];
    forall r': nat, u: nat | InBucket(tab', r', u) ensures u < b && Source(all[u], first) == r' {
      assert InBucket(tab, r', u);
    }
  }

  lemma {:induction false} WakeMark(all: seq<Renamed>, done: seq<bool>, cast: seq<nat>, inbox: seq<nat>, b: nat,
                 tab: Table, first: bool, u: nat, v: bool)
    requires u < b <= |all| == |done| && inbox != [] && inbox[0] < |all|
    requires Settled(all, done, b, all[inbox[0]].pd) && TableOk(all, b, tab, first)
    requires Marked(all, done, cast, inbox, u, Source(all[u], first), !v)
    requires !v ==> InBucket(tab, Source(all[u], first), u)
    ensures var r := all[inbox[0]].pd;
            var v' := v || u in Bucket(tab, r);
            && Marked(all, done, cast, inbox[1..], u, Source(all[u], first), !v')
            && (!v' ==> InBucket(tab[r := []], Source(all[u], first), u))
  {
    var r, p := all[inbox[0]].pd, Source(all[u], first);
    if !v {
      if InBucket(tab, r, u) {
        assert p == r;
      } else {
        var q :| 0 <= q < u && PendingWriter(all, done, cast, inbox, q, p);
        assert PendingWriter(all, done, cast, inbox[1..], q, p);
      }
    }
  }

  lemma {:induction false} LaneKeeps(all: seq<Renamed>, done: seq<bool>, cast: seq<nat>, d: nat, b: nat, l: Lane,
                                     le: LaneEvent)
    requires d <= |all| == |done| && b <= |all| && LaneEnabled(all, l, le)
    requires LaneOk(all, done, cast, d, b, l)
    requires le == Forward ==> Settled(all, done, b, all[l.forwards[0]].pd)
    ensures LaneOk(all, done, cast, d, b, LaneNext(all, l, le))
  {
    match le
    case Arrive => ArriveKeeps(all, done, cast, b, l);
    case Forward => ForwardKeeps(all, done, cast, b, l);
    case Pass =>
    case _ =>
  }

  /* ---------- what the rest of the pipeline may change under a lane ---------- */

  // More instructions renamed, more executed, and no result lost on its way to the lane.
  predicate StillPending(done: seq<bool>, cast: seq<nat>, inbox: seq<nat>,
                         done': seq<bool>, cast': seq<nat>, inbox': seq<nat>, q: nat)
    requires q < |done| <= |done'|
  {
    && (done[q] ==> done'[q])
    && (!done[q] || q in cast || q in inbox ==> !done'[q] || q in cast' || q in inbox')
  }

  ghost predicate Later(all: seq<Renamed>, done: seq<bool>, cast: seq<nat>, inbox: seq<nat>,
                        all': seq<Renamed>, done': seq<bool>, cast': seq<nat>, inbox': seq<nat>) {
    && |all| == |done| <= |all'| == |done'|
    && (forall k | 0 <= k < |all| :: all'[k] == all[k])
    && (forall q | 0 <= q < |done| :: StillPending(done, cast, inbox, done', cast', inbox', q))
  }

  lemma {:induction false} MarkedLater(all: seq<Renamed>, done: seq<bool>, cast: seq<nat>, inbox: seq<nat>,
                    all': seq<Renamed>, done': seq<bool>, cast': seq<nat>, inbox': seq<nat>,
                    u: nat, r: nat, wait: bool)
    requires Later(all, done, cast, inbox, all', done', cast', inbox') && u <= |all|
    requires Marked(all, done, cast, inbox, u, r, wait)
    ensures Marked(all', done', cast', inbox', u, r, wait)
  {
    if wait {
      var q :| 0 <= q < u && PendingWriter(all, done, cast, inbox, q, r);
      assert StillPending(done, cast, inbox, done', cast', inbox', q);
      assert PendingWriter(all', done', cast', inbox', q, r);
    } else {
      LaterDone(all, done, cast, inbox, all', done', cast', inbox');
    }
  }

  lemma {:induction false} WaitingLater(all: seq<Renamed>, done: seq<bool>, cast: seq<nat>, inbox: seq<nat>, bound: nat,
                     all': seq<Renamed>, done': seq<bool>, cast': seq<nat>, inbox': seq<nat>, bound': nat,
                     w: Waiting)
    requires Later(all, done, cast, inbox, all', done', cast', inbox')
    requires bound <= |all| && bound <= bound' <= |all'|
    requires WaitingOk(all, done, cast, inbox, bound, w)
    ensures WaitingOk(all', done', cast', inbox', bound', w)
  {
    MarkedLater(all, done, cast, inbox, all', done', cast', inbox', w.uid, all[w.uid].p1, w.f1);
    MarkedLater(all, done, cast, inbox, all', done', cast', inbox', w.uid, all[w.uid].p2, w.f2);
  }

  lemma {:induction false} SentLater(all: seq<Renamed>, done: seq<bool>, cast: seq<nat>, inbox: seq<nat>, bound: nat,
                  all': seq<Renamed>, done': seq<bool>, cast': seq<nat>, inbox': seq<nat>, bound': nat,
                  ws: seq<Waiting>)
    requires Later(all, done, cast, inbox, all', done', cast', inbox')
    requires bound <= |all| && bound <= bound' <= |all'|
    requires SentOk(all, done, cast, inbox, bound, ws)
    ensures SentOk(all', done', cast', inbox', bound', ws)
  {
    forall i | 0 <= i < |ws| ensures WaitingOk(all', done', cast', inbox', bound', ws[i]) {
      WaitingLater(all, done, cast, inbox, bound, all', done', cast', inbox', bound', ws[i]);
    }
  }

  lemma {:induction false} EntriesLater(all: seq<Renamed>, done: seq<bool>, cast: seq<nat>, inbox: seq<nat>, bound: nat,
                     all': seq<Renamed>, done': seq<bool>, cast': seq<nat>, inbox': seq<nat>, bound': nat,
                     tab1: Table, tab2: Table, es: seq<Entry<Operands>>)
    requires Later(all, done, cast, inbox, all', done', cast', inbox')
    requires bound <= |all| && bound <= bound' <= |all'|
    requires EntriesOk(all, done, cast, inbox, bound, tab1, tab2, es)
    ensures EntriesOk(all', done', cast', inbox', bound', tab1, tab2, es)
  {
    forall i | 0 <= i < |es| ensures EntryOk(all', done', cast', inbox', bound', tab1, tab2, es[i]) {
      var e := es[i];
      assert EntryOk(all, done, cast, inbox, bound, tab1, tab2, e);
      WaitingLater(all, done, cast, inbox, bound, all', done', cast', inbox', bound',
                   Waiting(e.uid, !e.operands.v1, !e.operands.v2));
    }
  }

  lemma {:induction false} LaterDone(all: seq<Renamed>, done: seq<bool>, cast: seq<nat>, inbox: seq<nat>,
                  all': seq<Renamed>, done': seq<bool>, cast': seq<nat>, inbox': seq<nat>)
    requires Later(all, done, cast, inbox, all', done', cast', inbox')
    ensures forall k | 0 <= k < |all| :: done[k] ==> done'[k]
  {
    forall k | 0 <= k < |all| ensures done[k] ==> done'[k] {
      assert StillPending(done, cast, inbox, done', cast', inbox', k);
    }
  }

  // Within a cycle: renaming, write-back and arrivals elsewhere keep the lane right.
  lemma {:induction false} LaneLater(all: seq<Renamed>, done: seq<bool>, cast: seq<nat>, d: nat, b: nat,
                  all': seq<Renamed>, done': seq<bool>, cast': seq<nat>, d': nat, b': nat, l: Lane)
    requires d <= |all| == |done| && b <= |all| && d <= d' <= |all'| && b <= b' <= |all'|
    requires Later(all, done, cast, [], all', done', cast', [])
    requires Later(all, done, cast, l.forwards, all', done', cast', l.forwards)
    requires LaneOk(all, done, cast, d, b, l)
    ensures LaneOk(all', done', cast', d', b', l)
  {
    LaterDone(all, done, cast, [], all', done', cast', []);
    SentLater(all, done, cast, [], d, all', done', cast', [], d', l.sent);
    SentLater(all, done, cast, l.forwards, b, all', done', cast', l.forwards, b', l.arriving);
    EntriesLater(all, done, cast, l.forwards, b, all', done', cast', l.forwards, b', l.tab1, l.tab2, l.entries);
  }

  // Across a clock tick: what was sent arrives together with the results written back.
  lemma {:induction false} LaneAcrossTick(all: seq<Renamed>, done: seq<bool>, cast: seq<nat>, d: nat, l: Lane)
    requires d <= |all| == |done| && LaneQuiet(l) && LaneOk(all, done, cast, d, d, l)
    ensures LaneOk(all, done, [], d, d, LaneTick(l, cast))
  {
    assert Later(all, done, cast, [], all, done, [], cast);
    SentLater(all, done, cast, [], d, all, done, [], cast, d, l.sent);
    EntriesLater(all, done, cast, [], d, all, done, [], cast, d, l.tab1, l.tab2, l.entries);
  }

  /* ---------- counting ---------- */

  function Count(s: seq<nat>, u: nat): nat {
    multiset(s)[u]
  }

  lemma {:induction false} CountSnoc(s: seq<nat>, x: nat, u: nat)
    ensures Count(s + [x], u) == Count(s, u) + if x == u then 1 else 0
  {
  }

  lemma {:induction false} CountTail(s: seq<nat>, u: nat)
    requires s != []
    ensures Count(s, u) == Count(s[1..], u) + if s[0] == u then 1 else 0
  {
    assert s == [s[0]] + s[1..];
  }

  // Moving the head of one queue to the end of another.
  lemma {:induction false} CountMove(a: seq<nat>, b: seq<nat>, u: nat)
    requires a != []
    ensures Count(a[1..], u) + Count(b + [a[0]], u) == Count(a, u) + Count(b, u)
  {
    CountTail(a, u);
    CountSnoc(b, a[0], u);
  }

  function Uids(ws: seq<Waiting>): seq<nat> {
    seq(|ws|, i requires 0 <= i < |ws| => ws[i].uid)
  }

  // The entries not yet passed on, in order.
  function Unissued<T>(es: seq<Entry<T>>): seq<nat> {
    if es == [] then []
    else if es[0].issued then Unissued(es[1..])
    else [es[0].uid] + Unissued(es[1..])
  }

  lemma {:induction false} UnissuedSnoc<T>(es: seq<Entry<T>>, e: Entry<T>)
    ensures Unissued(es + [e]) == Unissued(es) + if e.issued then [] else [e.uid]
  {
    if es == [] {
      assert es + [e] == [e] && [e][1..] == [];
    } else {
      assert (es + [e])[1..] == es[1..] + [e];
      UnissuedSnoc(es[1..], e);
    }
  }

  lemma {:induction false} UnissuedIssue<T>(es: seq<Entry<T>>, k: nat, u: nat)
    requires k < |es| && !es[k].issued
    ensures var es' := es[k := es[k].(issued := true)];
            && |Unissued(es')| + 1 == |Unissued(es)|
            && Count(Unissued(es'), u) + (if es[k].uid == u then 1 else 0) == Count(Unissued(es), u)
  {
    var es' := es[k := es[k].(issued := true)];
    if k == 0 {
      assert es'[1..] == es[1..];
    } else {
      assert es'[1..] == es[1..][k - 1 := es[1..][k - 1].(issued := true)];
      UnissuedIssue(es[1..], k - 1, u);
    }
  }

  lemma {:induction false} UnissuedSame<T>(a: seq<Entry<T>>, b: seq<Entry<T>>)
    requires |a| == |b| && forall i | 0 <= i < |a| :: a[i].uid == b[i].uid && a[i].issued == b[i].issued
    ensures Unissued(a) == Unissued(b)
  {
    if a != [] {
      assert forall i | 0 <= i < |a| - 1 :: a[1..][i] == a[i + 1] && b[1..][i] == b[i + 1];
      UnissuedSame(a[1..], b[1..]);
    }
  }

  // How often instruction `u` is somewhere in the lane.
  function LaneCount(l: Lane, u: nat): nat {
    Count(Uids(l.sent), u) + Count(Uids(l.arriving), u) + Count(Unissued(l.entries), u)
    + Count(l.fuSent, u) + Count(l.fuArriving, u) + Count(l.fuQueue, u)
    + Count(l.wbArriving, u) + Count(l.wbQueue, u)
  }

  // Credit a sender holds or is about to get, plus what it has in the receiver, is the depth.
  predicate LaneCredits(lp: LaneParams, l: Lane) {
    && l.credit + l.creditMsg + |l.sent| + |l.arriving| + |Unissued(l.entries)| == lp.depth
    && l.fuCredit + l.fuCreditMsg + |l.fuSent| + |l.fuArriving| + |l.fuQueue| == lp.fuDepth
  }

  lemma {:induction false} ArriveCount(ws: seq<Waiting>, es: seq<Entry<Operands>>, e: Entry<Operands>, u: nat)
    requires ws != [] && e.uid == ws[0].uid && !e.issued
    ensures Count(Uids(ws[1..]), u) + Count(Unissued(es + [e]), u) == Count(Uids(ws), u) + Count(Unissued(es), u)
  {
    UnissuedSnoc(es, e);
    assert Uids(ws)[1..] == Uids(ws[1..]);
    CountMove(Uids(ws), Unissued(es), u);
  }

  // A lane neither loses nor duplicates an instruction.
  lemma {:induction false} LaneCountKeeps(all: seq<Renamed>, l: Lane, le: LaneEvent, u: nat)
    requires LaneEnabled(all, l, le)
    ensures LaneCount(LaneNext(all, l, le), u) == LaneCount(l, u)
  {
    var l' := LaneNext(all, l, le);
    match le
    case Arrive => ArriveCount(l.arriving, l.entries, l'.entries[|l.entries|], u);
    case Forward => UnissuedSame(l.entries, l'.entries);
    case Pass =>
      var k := FirstReady(l.entries);
      UnissuedIssue(l.entries, k, u);
      CountSnoc(l.fuSent, l.entries[k].uid, u);
    case FuArrive => CountMove(l.fuArriving, l.fuQueue, u);
    case FuFinish => CountMove(l.fuQueue, l.wbArriving, u);
    case WbArrive => CountMove(l.wbArriving, l.wbQueue, u);
    case _ =>
  }

  lemma {:induction false} LaneCreditsKeep(all: seq<Renamed>, lp: LaneParams, l: Lane, le: LaneEvent)
    requires LaneEnabled(all, l, le) && LaneCredits(lp, l)
    ensures LaneCredits(lp, LaneNext(all, l, le))
  {
    var l' := LaneNext(all, l, le);
    match le
    case Arrive => UnissuedSnoc(l.entries, l'.entries[|l.entries|]);
    case Forward => UnissuedSame(l.entries, l'.entries);
    case Pass => UnissuedIssue(l.entries, FirstReady(l.entries), 0);
    case _ =>
  }
}
