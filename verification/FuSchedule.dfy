/**
  The function unit on its own schedule. Its write-back event is set off by the arrival of a group
  and by nothing else: it takes at most the unit's width and does not ask to run again. What it
  leaves behind stays until another group arrives.
 */
module FuSchedule {
  import opened Prelude
  import opened RenameCore
  import opened Pipeline
  import opened PipelineLanes

  // What a station may pass, and what a unit may write back, in one cycle.
  datatype Widths = Widths(pass: nat, finish: nat)

  // A lane with what the write-back event of its unit may still take in this cycle.
  datatype Paced = Paced(lane: Lane, budget: nat)

  // The moves of a lane: dispatch sends, a step inside, a result is handed over, the clock ticks.
  datatype Move = Send(w: Waiting) | Inside(le: LaneEvent) | Hand | Cycle(cast: seq<nat>)

  predicate MoveAllowed(all: seq<Renamed>, w: Widths, x: Paced, e: Move) {
    match e
    case Send(_) => x.lane.credit > 0
    case Inside(le) =>
      && LaneEnabled(all, x.lane, le)
      && (le == Pass ==> |x.lane.fuSent| < w.pass)
      && (le == FuFinish ==> x.lane.fuArriving == [] && x.budget > 0)
    case Hand => x.lane.wbQueue != []
    case Cycle(_) => LaneQuiet(x.lane) && (x.lane.fuQueue == [] || x.budget == 0)
  }

  function BudgetAfter(w: Widths, budget: nat, le: LaneEvent): nat {
    if le == FuArrive then w.finish else if le == FuFinish && budget > 0 then budget - 1 else budget
  }

  function MoveNext(all: seq<Renamed>, w: Widths, x: Paced, e: Move): Paced
    requires MoveAllowed(all, w, x, e)
  {
    match e
    case Send(i) => x.(lane := x.lane.(credit := x.lane.credit - 1, sent := x.lane.sent + [i]))
    case Inside(le) => Paced(LaneNext(all, x.lane, le), BudgetAfter(w, x.budget, le))
    case Hand => x.(lane := x.lane.(wbQueue := x.lane.wbQueue[1..]))
    case Cycle(cast) => Paced(LaneTick(x.lane, cast), 0)
  }

  function PacedRun(all: seq<Renamed>, lp: LaneParams, w: Widths, es: seq<Move>, n: nat): Option<Paced>
    requires n <= |es|
  {
    if n == 0 then Some(Paced(StartLane(lp), 0))
    else
      var r := PacedRun(all, lp, w, es, n - 1);
      if r.None? || !MoveAllowed(all, w, r.value, es[n - 1]) then None else Some(MoveNext(all, w, r.value, es[n - 1]))
  }

  /* ---------- what can arrive in one cycle ---------- */

  // The most a unit can receive in one cycle.
  function Burst(lp: LaneParams, w: Widths): nat {
    Min(Min(w.pass, lp.depth), lp.fuDepth)
  }

  // What was passed in this cycle was in the station, or arriving there, when the cycle began.
  predicate PassedOk(lp: LaneParams, w: Widths, l: Lane) {
    |l.fuSent| <= w.pass && |l.fuSent| + |l.arriving| + |Unissued(l.entries)| <= lp.depth
  }

  // The event can take everything that is in the unit.
  predicate KeepsUp(lp: LaneParams, w: Widths, x: Paced) {
    && PassedOk(lp, w, x.lane)
    && (x.lane.fuArriving != [] ==> |x.lane.fuArriving| + |x.lane.fuQueue| <= Burst(lp, w))
    && |x.lane.fuQueue| <= x.budget
  }

  lemma {:induction false} PassedStep(all: seq<Renamed>, lp: LaneParams, w: Widths, l: Lane, le: LaneEvent)
    requires LaneEnabled(all, l, le) && PassedOk(lp, w, l) && (le == Pass ==> |l.fuSent| < w.pass)
    ensures PassedOk(lp, w, LaneNext(all, l, le))
  {
    var l' := LaneNext(all, l, le);
    match le
    case Arrive => UnissuedSnoc(l.entries, l'.entries[|l.entries|]);
    case Forward => UnissuedSame(l.entries, l'.entries);
    case Pass => UnissuedIssue(l.entries, FirstReady(l.entries), 0);
    case _ =>
  }

  lemma {:induction false} MoveKeepsCredits(all: seq<Renamed>, lp: LaneParams, w: Widths, x: Paced, e: Move)
    requires MoveAllowed(all, w, x, e) && LaneCredits(lp, x.lane)
    ensures LaneCredits(lp, MoveNext(all, w, x, e).lane)
  {
    if e.Inside? {
      LaneCreditsKeep(all, lp, x.lane, e.le);
    }
  }

  // Where the unit is at least as wide as what can arrive in one cycle, it keeps up.
  lemma {:induction false} MoveKeepsUp(all: seq<Renamed>, lp: LaneParams, w: Widths, x: Paced, e: Move)
    requires MoveAllowed(all, w, x, e) && LaneCredits(lp, x.lane) && KeepsUp(lp, w, x)
    requires Burst(lp, w) <= w.finish
    ensures KeepsUp(lp, w, MoveNext(all, w, x, e))
  {
    match e
    case Inside(le) => PassedStep(all, lp, w, x.lane, le);
    case _ =>
  }

  lemma {:induction false} PacedKeepsUp(all: seq<Renamed>, lp: LaneParams, w: Widths, es: seq<Move>, n: nat, x: Paced)
    requires n <= |es| && PacedRun(all, lp, w, es, n) == Some(x) && Burst(lp, w) <= w.finish
    ensures LaneCredits(lp, x.lane) && KeepsUp(lp, w, x)
  {
    if n > 0 {
      var x0 := PacedRun(all, lp, w, es, n - 1).value;
      PacedKeepsUp(all, lp, w, es, n - 1, x0);
      MoveKeepsCredits(all, lp, w, x0, es[n - 1]);
      MoveKeepsUp(all, lp, w, x0, es[n - 1]);
    }
  }

  /* ---------- exactly when nothing is left behind ---------- */

  // Whenever the clock may tick, the unit is empty.
  ghost predicate NeverLeftBehind(lp: LaneParams, w: Widths) {
    forall all, es, x ::
      PacedRun(all, lp, w, es, |es|) == Some(x) && MoveAllowed(all, w, x, Cycle([])) ==> x.lane.fuQueue == []
  }

  lemma {:induction false} PacedPrefix(all: seq<Renamed>, lp: LaneParams, w: Widths, es: seq<Move>, e: Move, n: nat)
    requires n <= |es|
    ensures PacedRun(all, lp, w, es + [e], n) == PacedRun(all, lp, w, es, n)
  {
    if n > 0 {
      PacedPrefix(all, lp, w, es, e, n - 1);
      assert (es + [e])[n - 1] == es[n - 1];
    }
  }

  ghost predicate Reached(all: seq<Renamed>, lp: LaneParams, w: Widths, es: seq<Move>, x: Paced) {
    PacedRun(all, lp, w, es, |es|) == Some(x)
  }

  // Move `e` leads from `x` to `x'`.
  predicate Leads(all: seq<Renamed>, w: Widths, x: Paced, e: Move, x': Paced) {
    MoveAllowed(all, w, x, e) && MoveNext(all, w, x, e) == x'
  }

  lemma {:induction false} Go(all: seq<Renamed>, lp: LaneParams, w: Widths, es: seq<Move>, x: Paced, e: Move, x': Paced)
    returns (es': seq<Move>)
    requires Reached(all, lp, w, es, x) && Leads(all, w, x, e, x')
    ensures Reached(all, lp, w, es', x')
  {
    PacedPrefix(all, lp, w, es, e, |es|);
    es' := es + [e];
    assert es'[|es|] == e;
  }

  function Numbers(n: nat): seq<nat> {
    seq(n, i requires 0 <= i < n => i)
  }

  function Sends(n: nat): seq<Waiting> {
    seq(n, i requires 0 <= i < n => Waiting(i, false, false))
  }

  function Gone(n: nat): seq<Entry<Operands>> {
    seq(n, i requires 0 <= i < n => Entry(i, true, Operands(true, true)))
  }

  // Independent instructions.
  function Program(n: nat): seq<Renamed> {
    seq(n, i requires 0 <= i < n => Renamed(Inst(0, 0, 0, 0, 0), 0, 0, 0, 0))
  }

  // Dispatch has sent `i` instructions in this cycle.
  function Sending(lp: LaneParams, i: nat): Paced
    requires i <= lp.depth
  {
    Paced(Lane(lp.depth - i, 0, Sends(i), [], [], map[], map[], [], lp.fuDepth, 0, [], [], [], [], []), 0)
  }

  // Of `n` that arrived, `i` have been passed to the unit in the same cycle.
  function Passing(lp: LaneParams, n: nat, i: nat): Paced
    requires i <= n <= lp.depth && n <= lp.fuDepth
  {
    Paced(Lane(lp.depth - n, i, [], Sends(n)[i..], Gone(i), map[], map[], [],
               lp.fuDepth - i, 0, Numbers(i), [], [], [], []), 0)
  }

  // Of `n` that arrived together, `i` are in the unit.
  function Entering(lp: LaneParams, w: Widths, n: nat, i: nat): Paced
    requires i <= n <= lp.depth && n <= lp.fuDepth
  {
    Paced(Lane(lp.depth, 0, [], [], Gone(n), map[], map[], [],
               lp.fuDepth - n, 0, [], Numbers(n)[i..], Numbers(i), [], []), if i == 0 then 0 else w.finish)
  }

  // The event has taken `i` of the `n`.
  function Leaving(lp: LaneParams, w: Widths, n: nat, i: nat): Paced
    requires i <= n <= lp.depth && n <= lp.fuDepth && i <= w.finish
  {
    Paced(Lane(lp.depth, 0, [], [], Gone(n), map[], map[], [],
               lp.fuDepth - n, i, [], [], Numbers(n)[i..], [], Numbers(i)), w.finish - i)
  }

  lemma {:induction false} ToSending(lp: LaneParams, w: Widths, n: nat, i: nat) returns (es: seq<Move>)
    requires i <= lp.depth
    ensures Reached(Program(n), lp, w, es, Sending(lp, i))
  {
    if i == 0 {
      var x := Paced(StartLane(lp), 0);
      var x1 := MoveNext(Program(n), w, x, Inside(TakeCredit));
      es := Go(Program(n), lp, w, [], x, Inside(TakeCredit), x1);
      es := Go(Program(n), lp, w, es, x1, Inside(TakeFuCredit), Sending(lp, 0));
    } else {
      es := ToSending(lp, w, n, i - 1);
      assert Sends(i) == Sends(i - 1) + [Waiting(i - 1, false, false)];
      es := Go(Program(n), lp, w, es, Sending(lp, i - 1), Send(Waiting(i - 1, false, false)), Sending(lp, i));
    }
  }

  // Instruction `i` of the `n` has just entered the station.
  function Arrived(lp: LaneParams, n: nat, i: nat): Paced
    requires i < n <= lp.depth && n <= lp.fuDepth
  {
    var x := Passing(lp, n, i);
    x.(lane := x.lane.(arriving := Sends(n)[i + 1..], entries := Gone(i) + [Entry(i, false, Operands(true, true))]))
  }

  lemma {:induction false} ArriveStep(lp: LaneParams, w: Widths, n: nat, i: nat)
    requires i < n <= lp.depth && n <= lp.fuDepth
    ensures Leads(Program(n), w, Passing(lp, n, i), Inside(Arrive), Arrived(lp, n, i))
  {
    assert Sends(n)[i..][0] == Waiting(i, false, false) && Sends(n)[i..][1..] == Sends(n)[i + 1..];
  }

  lemma {:induction false} PassStep(lp: LaneParams, w: Widths, n: nat, i: nat)
    requires i < n <= lp.depth && n <= lp.fuDepth && n <= w.pass
    ensures Leads(Program(n), w, Arrived(lp, n, i), Inside(Pass), Passing(lp, n, i + 1))
  {
    var entries := Arrived(lp, n, i).lane.entries;
    assert Ready(entries[i]) && FirstReady(entries) == i;
    assert entries[i := entries[i].(issued := true)] == Gone(i + 1);
    assert Numbers(i + 1) == Numbers(i) + [i];
  }

  lemma {:induction false} ToPassing(lp: LaneParams, w: Widths, n: nat, i: nat) returns (es: seq<Move>)
    requires i <= n <= lp.depth && n <= lp.fuDepth && n <= w.pass
    ensures Reached(Program(n), lp, w, es, Passing(lp, n, i))
  {
    if i == 0 {
      es := ToSending(lp, w, n, n);
      assert Sends(n)[0..] == Sends(n) && Gone(0) == [] && Numbers(0) == [];
      es := Go(Program(n), lp, w, es, Sending(lp, n), Cycle([]), Passing(lp, n, 0));
    } else {
      es := ToPassing(lp, w, n, i - 1);
      ArriveStep(lp, w, n, i - 1);
      es := Go(Program(n), lp, w, es, Passing(lp, n, i - 1), Inside(Arrive), Arrived(lp, n, i - 1));
      PassStep(lp, w, n, i - 1);
      es := Go(Program(n), lp, w, es, Arrived(lp, n, i - 1), Inside(Pass), Passing(lp, n, i));
    }
  }

  lemma {:induction false} EnterStep(lp: LaneParams, w: Widths, n: nat, i: nat)
    requires i < n <= lp.depth && n <= lp.fuDepth
    ensures Leads(Program(n), w, Entering(lp, w, n, i), Inside(FuArrive), Entering(lp, w, n, i + 1))
  {
    assert Numbers(n)[i..][0] == i && Numbers(n)[i..][1..] == Numbers(n)[i + 1..];
    assert Numbers(i + 1) == Numbers(i) + [i];
  }

  lemma {:induction false} ToEntering(lp: LaneParams, w: Widths, n: nat, i: nat) returns (es: seq<Move>)
    requires i <= n <= lp.depth && n <= lp.fuDepth && n <= w.pass
    ensures Reached(Program(n), lp, w, es, Entering(lp, w, n, i))
  {
    if i == 0 {
      es := ToPassing(lp, w, n, n);
      var x := Passing(lp, n, n);
      var x1 := x.(lane := x.lane.(credit := lp.depth, creditMsg := 0));
      assert Sends(n)[n..] == [] && Numbers(0) == [] && Numbers(n)[0..] == Numbers(n);
      es := Go(Program(n), lp, w, es, x, Inside(TakeCredit), x1);
      es := Go(Program(n), lp, w, es, x1, Cycle([]), Entering(lp, w, n, 0));
    } else {
      es := ToEntering(lp, w, n, i - 1);
      EnterStep(lp, w, n, i - 1);
      es := Go(Program(n), lp, w, es, Entering(lp, w, n, i - 1), Inside(FuArrive), Entering(lp, w, n, i));
    }
  }

  // Instruction `i` of the `n` has just left the unit.
  function Left(lp: LaneParams, w: Widths, n: nat, i: nat): Paced
    requires i < n <= lp.depth && n <= lp.fuDepth && i < w.finish
  {
    var x := Leaving(lp, w, n, i);
    Paced(x.lane.(fuQueue := Numbers(n)[i + 1..], wbArriving := [i], fuCreditMsg := i + 1), w.finish - i - 1)
  }

  lemma {:induction false} LeaveStep(lp: LaneParams, w: Widths, n: nat, i: nat)
    requires i < n <= lp.depth && n <= lp.fuDepth && i < w.finish
    ensures Leads(Program(n), w, Leaving(lp, w, n, i), Inside(FuFinish), Left(lp, w, n, i))
    ensures Leads(Program(n), w, Left(lp, w, n, i), Inside(WbArrive), Leaving(lp, w, n, i + 1))
  {
    assert Numbers(n)[i..][0] == i && Numbers(n)[i..][1..] == Numbers(n)[i + 1..];
    assert Numbers(i + 1) == Numbers(i) + [i];
  }

  lemma {:induction false} ToLeaving(lp: LaneParams, w: Widths, n: nat, i: nat) returns (es: seq<Move>)
    requires 0 < n <= lp.depth && n <= lp.fuDepth && n <= w.pass && i <= n && i <= w.finish
    ensures Reached(Program(n), lp, w, es, Leaving(lp, w, n, i))
  {
    if i == 0 {
      es := ToEntering(lp, w, n, n);
      assert Numbers(n)[n..] == [] && Numbers(n)[0..] == Numbers(n) && Numbers(0) == [];
    } else {
      es := ToLeaving(lp, w, n, i - 1);
      LeaveStep(lp, w, n, i - 1);
      es := Go(Program(n), lp, w, es, Leaving(lp, w, n, i - 1), Inside(FuFinish), Left(lp, w, n, i - 1));
      es := Go(Program(n), lp, w, es, Left(lp, w, n, i - 1), Inside(WbArrive), Leaving(lp, w, n, i));
    }
  }

  // The failing run: where more can arrive than the unit takes, so many arrive at once, and one stays.
  lemma {:induction false} OneStays(lp: LaneParams, w: Widths) returns (all: seq<Renamed>, es: seq<Move>, x: Paced)
    requires w.finish < Burst(lp, w)
    ensures Reached(all, lp, w, es, x) && MoveAllowed(all, w, x, Cycle([])) && x.lane.fuQueue == [w.finish]
  {
    var n := w.finish + 1;
    all := Program(n);
    es := ToLeaving(lp, w, n, w.finish);
    var y := Leaving(lp, w, n, w.finish);
    x := MoveNext(all, w, y, Inside(TakeFuCredit));
    es := Go(all, lp, w, es, y, Inside(TakeFuCredit), x);
    assert Numbers(n)[w.finish..] == [w.finish];
  }

  // Main result: nothing is ever left behind in the unit if and only if no more can arrive in one
  // cycle than the unit takes: the least of what the station may pass, what it holds and what the
  // unit holds is at most the unit's width.
  lemma {:induction false} NeverLeftBehindIff(lp: LaneParams, w: Widths)
    ensures NeverLeftBehind(lp, w) <==> Burst(lp, w) <= w.finish
  {
    if Burst(lp, w) <= w.finish {
      forall all, es, x | PacedRun(all, lp, w, es, |es|) == Some(x) && MoveAllowed(all, w, x, Cycle([]))
        ensures x.lane.fuQueue == []
      {
        PacedKeepsUp(all, lp, w, es, |es|, x);
      }
    } else {
      var all, es, x := OneStays(lp, w);
    }
  }

  // What is left behind stays as it is until something arrives: no other move takes it.
  lemma {:induction false} LeftStays(all: seq<Renamed>, w: Widths, x: Paced, e: Move)
    requires MoveAllowed(all, w, x, e) && x.budget == 0 && e != Inside(FuArrive)
    ensures MoveNext(all, w, x, e).budget == 0 && MoveNext(all, w, x, e).lane.fuQueue == x.lane.fuQueue
  {
  }
}
