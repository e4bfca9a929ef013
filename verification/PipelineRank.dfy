/**
  A measure of the work left in the pipeline. Fetching apart, every action either changes nothing
  or lowers it, whatever the order the handlers run in.
 */
module PipelineRank {
  import opened RenameCore
  import opened RenameMachine
  import opened Pipeline
  import opened PipelineLanes
  import opened PipelineInv

  // Each message and each buffered instruction weighs more than what handling it leaves behind.
  function FrontRank(f: Front): nat {
    f.msg + 28 * |f.sent| + 27 * |f.arriving| + 26 * |f.queue|
  }

  function DispatchRank(d: Dispatch): nat {
    d.msg + 19 * |d.sent| + 18 * |d.arriving| + |d.queue| + 16 * |Unissued(d.queue)| + |d.cast|
  }

  function RobRank(r: Rob): nat {
    r.msg + 5 * |r.sent| + 4 * |r.arriving| + 3 * |r.entries| + |r.cast| + |r.retiring|
  }

  function LaneRank(l: Lane): nat {
    l.creditMsg + 14 * |l.sent| + 13 * |l.arriving| + |l.entries| + 11 * |Unissued(l.entries)| + |l.forwards|
    + l.fuCreditMsg + 9 * |l.fuSent| + 8 * |l.fuArriving| + 7 * |l.fuQueue| + 5 * |l.wbArriving| + 4 * |l.wbQueue|
  }

  // Every lane still has `n` results to be told of.
  function LanesRank(lanes: seq<Lane>, n: nat): nat {
    if lanes == [] then 0 else LaneRank(lanes[0]) + n + LanesRank(lanes[1..], n)
  }

  function Undone(done: seq<bool>): nat {
    multiset(done)[false]
  }

  // Fetched instructions whose results have not left the write-back stage.
  function ResultsToCome(st: Pipe): nat {
    |st.front.sent| + |st.front.arriving| + |st.front.queue| + Undone(st.core.done) + |st.cast|
  }

  function Rank(st: Pipe): nat {
    FrontRank(st.front) + DispatchRank(st.disp) + RobRank(st.rob) + 3 * |st.cast|
    + LanesRank(st.lanes, ResultsToCome(st))
  }

  predicate Fetches(a: Action) {
    a.InFront? && a.fe.Fetch?
  }

  /* ---------- the parts ---------- */

  lemma {:induction false} FrontLowers(cfg: Config, f: Front, fe: FrontEvent)
    requires FrontEnabled(cfg, f, fe) && !fe.Fetch?
    ensures FrontNext(cfg, f, fe) == f || FrontRank(FrontNext(cfg, f, fe)) < FrontRank(f)
  {
  }

  lemma {:induction false} DispatchLowers(all: seq<Renamed>, d: Dispatch, de: DispatchEvent)
    requires DispatchEnabled(all, d, de)
    ensures DispatchNext(all, d, de) == d || DispatchRank(DispatchNext(all, d, de)) < DispatchRank(d)
  {
    if de == DispatchArrive {
      UnissuedSnoc(d.queue, Entry(d.arriving[0], false, ()));
    }
  }

  lemma {:induction false} RobLowers(r: Rob, re: RobEvent)
    requires RobEnabled(r, re)
    ensures RobNext(r, re) == r || RobRank(RobNext(r, re)) < RobRank(r)
  {
  }

  lemma {:induction false} LaneLowers(all: seq<Renamed>, l: Lane, le: LaneEvent)
    requires LaneEnabled(all, l, le)
    ensures LaneNext(all, l, le) == l || LaneRank(LaneNext(all, l, le)) < LaneRank(l)
  {
    var l' := LaneNext(all, l, le);
    match le
    case Arrive => UnissuedSnoc(l.entries, l'.entries[|l.entries|]);
    case Forward => UnissuedSame(l.entries, l'.entries);
    case Pass => UnissuedIssue(l.entries, FirstReady(l.entries), 0);
    case _ =>
  }

  lemma {:induction false} LanesRankUpdate(lanes: seq<Lane>, s: nat, l: Lane, n: nat)
    requires s < |lanes|
    ensures LanesRank(lanes[s := l], n) + LaneRank(lanes[s]) == LanesRank(lanes, n) + LaneRank(l)
  {
    if s == 0 {
      assert lanes[0 := l][1..] == lanes[1..];
    } else {
      assert lanes[s := l][1..] == lanes[1..][s - 1 := l];
      LanesRankUpdate(lanes[1..], s - 1, l, n);
    }
  }

  /* ---------- actions that touch several units ---------- */

  lemma {:induction false} RenameLowers(p: Params, sem: Semantics, st: Pipe)
    requires WellShaped(p, st) && Allowed(p, st, RenameOne)
    ensures Rank(Act(p, sem, st, RenameOne)) < Rank(st)
  {
    var st' := AfterRenameOne(p, sem, st);
    assert ResultsToCome(st') == ResultsToCome(st) by {
      assert st'.core.done == st.core.done + [false];
    }
  }

  lemma {:induction false} SelectDispatchRank(d: Dispatch, k: nat)
    requires k < |d.queue| && !d.queue[k].issued
    ensures var q' := d.queue[k := d.queue[k].(issued := true)];
            DispatchRank(d.(queue := q', msg := d.msg + 1)) + 15 == DispatchRank(d)
  {
    UnissuedIssue(d.queue, k, 0);
  }

  lemma {:induction false} SelectLowers(p: Params, sem: Semantics, st: Pipe, s: nat)
    requires WellShaped(p, st) && Allowed(p, st, Select(s))
    ensures Rank(Act(p, sem, st, Select(s))) < Rank(st)
  {
    var st' := AfterSelect(p, st, s);
    SelectDispatchRank(st.disp, FirstEligible(st.core.all, p.lanes[s].supports, st.disp.queue));
    LanesRankUpdate(st.lanes, s, st'.lanes[s], ResultsToCome(st));
    assert LaneRank(st'.lanes[s]) == LaneRank(st.lanes[s]) + 14;
    assert ResultsToCome(st') == ResultsToCome(st);
  }

  lemma {:induction false} ArbitrateLowers(p: Params, sem: Semantics, st: Pipe, s: nat)
    requires WellShaped(p, st) && Allowed(p, st, Arbitrate(s)) && PlacedOk(st)
    ensures Rank(Act(p, sem, st, Arbitrate(s))) < Rank(st)
  {
    var st' := AfterArbitrate(p, sem, st, s);
    WriteBackIsFirst(st, s);
    assert ResultsToCome(st') == ResultsToCome(st) by {
      assert st'.core.done == st.core.done[st.lanes[s].wbQueue[0] := true];
    }
    LanesRankUpdate(st.lanes, s, st'.lanes[s], ResultsToCome(st));
  }

  // What the lanes sent in this cycle.
  function Moves(lanes: seq<Lane>): nat {
    if lanes == [] then 0 else |lanes[0].sent| + |lanes[0].fuSent| + Moves(lanes[1..])
  }

  lemma {:induction false} LaneRankTick(l: Lane, cast: seq<nat>)
    requires LaneQuiet(l)
    ensures LaneRank(LaneTick(l, cast)) + |l.sent| + |l.fuSent| == LaneRank(l) + |cast|
    ensures l.sent == [] && l.fuSent == [] && cast == [] ==> LaneTick(l, cast) == l
  {
  }

  // A tick tells every lane of the results just cast, which are then no longer to come.
  lemma {:induction false} LanesRankTick(lanes: seq<Lane>, lanes': seq<Lane>, cast: seq<nat>, n: nat)
    requires |lanes'| == |lanes| && |cast| <= n
    requires forall s | 0 <= s < |lanes| :: LaneQuiet(lanes[s]) && lanes'[s] == LaneTick(lanes[s], cast)
    ensures LanesRank(lanes', n - |cast|) + Moves(lanes) == LanesRank(lanes, n)
    ensures Moves(lanes) == 0 && cast == [] ==> lanes' == lanes
  {
    if lanes != [] {
      assert forall s | 0 <= s < |lanes| - 1 :: lanes[1..][s] == lanes[s + 1] && lanes'[1..][s] == lanes'[s + 1];
      LanesRankTick(lanes[1..], lanes'[1..], cast, n);
      LaneRankTick(lanes[0], cast);
      if Moves(lanes) == 0 && cast == [] {
        assert lanes' == [lanes'[0]] + lanes'[1..] && lanes == [lanes[0]] + lanes[1..];
      }
    }
  }

  lemma {:induction false} TickLowers(p: Params, sem: Semantics, st: Pipe)
    requires WellShaped(p, st) && Quiet(st)
    ensures Act(p, sem, st, Tick) == st || Rank(Act(p, sem, st, Tick)) < Rank(st)
  {
    var st' := AfterTick(p, st);
    LanesRankTick(st.lanes, st'.lanes, st.cast, ResultsToCome(st));
    assert ResultsToCome(st') == ResultsToCome(st) - |st.cast|;
    assert FrontRank(st'.front) + |st.front.sent| == FrontRank(st.front);
    assert DispatchRank(st'.disp) + |st.disp.sent| == DispatchRank(st.disp) + |st.cast|;
    assert RobRank(st'.rob) + |st.rob.sent| == RobRank(st.rob) + |st.cast|;
  }

  lemma {:induction false} LaneChangeLowers(st: Pipe, s: nat, l: Lane)
    requires s < |st.lanes| && (l == st.lanes[s] || LaneRank(l) < LaneRank(st.lanes[s]))
    ensures var st' := st.(lanes := st.lanes[s := l]); st' == st || Rank(st') < Rank(st)
  {
    LanesRankUpdate(st.lanes, s, l, ResultsToCome(st));
    assert st.lanes[s := st.lanes[s]] == st.lanes;
  }

  lemma {:induction false} InLaneLowers(p: Params, sem: Semantics, st: Pipe, s: nat, le: LaneEvent)
    requires WellShaped(p, st) && Allowed(p, st, InLane(s, le))
    ensures Act(p, sem, st, InLane(s, le)) == st || Rank(Act(p, sem, st, InLane(s, le))) < Rank(st)
  {
    LaneLowers(st.core.all, st.lanes[s], le);
    LaneChangeLowers(st, s, LaneNext(st.core.all, st.lanes[s], le));
  }

  lemma {:induction false} StepLowers(p: Params, sem: Semantics, st: Pipe, a: Action)
    requires WellShaped(p, st) && Allowed(p, st, a) && PlacedOk(st) && !Fetches(a)
    ensures Act(p, sem, st, a) == st || Rank(Act(p, sem, st, a)) < Rank(st)
  {
    match a
    case InFront(fe) => FrontLowers(p.regs, st.front, fe);
    case InDispatch(de) => DispatchLowers(st.core.all, st.disp, de);
    case InRob(re) => RobLowers(st.rob, re);
    case InLane(s, le) => InLaneLowers(p, sem, st, s, le);
    case RenameOne => RenameLowers(p, sem, st);
    case Select(s) => SelectLowers(p, sem, st, s);
    case Arbitrate(s) => ArbitrateLowers(p, sem, st, s);
    case RenameCommit =>
    case Tick => TickLowers(p, sem, st);
  }
}
