/**
  The scoreboard and the dispatch stage as objects. Each handler of the source works on a group; it
  is proved to be so many single steps of the dispatch part of the pipeline model.
 */
module DispatchUnit {
  import opened Prelude
  import opened RenameCore
  import opened Pipeline

  /* ---------- the scoreboard ---------- */

  class Scoreboard {
    const board: array<bool>

    constructor (phyRegs: nat)
      ensures fresh(board) && board.Length == phyRegs && Busy() == {}
    {
      board := new bool[phyRegs](_ => false);
    }

    ghost function Busy(): set<nat>
      reads board
    {
      set r: nat | r < board.Length && board[r]
    }

    method Flush()
      modifies board
      ensures Busy() == {}
    {
      for i := 0 to board.Length
        invariant forall r | 0 <= r < i :: !board[r]
      {
        board[i] := false;
      }
    }

    // The range assertion of the source lets the index equal the size; the access does not.
    method GetBusyBit(r: nat) returns (busy: bool)
      requires r < board.Length
      ensures busy <==> r in Busy()
    {
      busy := board[r];
    }

    method SetBusyBit(r: nat)
      requires r < board.Length
      modifies board
      ensures Busy() == old(Busy()) + ({r} - {0})
    {
      if r != 0 {
        board[r] := true;
      }
    }

    method ClearBusyBit(r: nat)
      requires r < board.Length
      modifies board
      ensures Busy() == old(Busy()) - ({r} - {0})
    {
      if r != 0 {
        board[r] := false;
      }
    }
  }

  /* ---------- the dispatch stage ---------- */

  // The dispatch state after `n` steps of one kind, or None if one of them was not possible.
  function RepeatDispatch(all: seq<Renamed>, d: Dispatch, de: DispatchEvent, n: nat): Option<Dispatch> {
    if n == 0 then Some(d)
    else
      var r := RepeatDispatch(all, d, de, n - 1);
      if r.None? || !DispatchEnabled(all, r.value, de) then None else Some(DispatchNext(all, r.value, de))
  }

  lemma {:induction false} OneMoreDispatch(all: seq<Renamed>, d: Dispatch, de: DispatchEvent, n: nat, d': Dispatch)
    requires RepeatDispatch(all, d, de, n) == Some(d') && DispatchEnabled(all, d', de)
    ensures RepeatDispatch(all, d, de, n + 1) == Some(DispatchNext(all, d', de))
  {
  }

  // Registers of instruction `u` exist in a file of `n` registers.
  predicate InFile(all: seq<Renamed>, n: nat, u: nat) {
    u < |all| && all[u].p1 < n && all[u].p2 < n && all[u].pd < n
  }

  predicate QueueInFile(all: seq<Renamed>, n: nat, q: seq<Entry<()>>) {
    forall i | 0 <= i < |q| :: InFile(all, n, q[i].uid)
  }

  lemma {:induction false} FirstEligibleIs(all: seq<Renamed>, supports: set<nat>, q: seq<Entry<()>>, k: nat)
    requires k <= |q| && (k < |q| ==> Eligible(all, supports, q[k]))
    requires forall j | 0 <= j < k :: !Eligible(all, supports, q[j])
    ensures FirstEligible(all, supports, q) == k
  {
    var k' := FirstEligible(all, supports, q);
    assert !(k' < k);
  }

  lemma {:induction false} NextEligible(all: seq<Renamed>, supports: set<nat>, q: seq<Entry<()>>, k: nat)
    requires k == FirstEligible(all, supports, q) < |q|
    ensures FirstEligible(all, supports, q[k := q[k].(issued := true)]) > k
  {
    var q' := q[k := q[k].(issued := true)];
    var k' := FirstEligible(all, supports, q');
    assert k' < |q'| ==> Eligible(all, supports, q'[k']);
  }

  class DispatchStage {
    const scoreboard: Scoreboard
    const supports: seq<set<nat>>
    const widths: seq<nat>
    var instQueue: seq<Entry<()>>
    var credits: seq<nat>
    var pending: seq<seq<Waiting>>

    constructor (phyRegs: nat, supports: seq<set<nat>>, widths: seq<nat>)
      requires |widths| == |supports|
      ensures fresh(scoreboard) && fresh(scoreboard.board) && scoreboard.board.Length == phyRegs
      ensures this.supports == supports && this.widths == widths && scoreboard.Busy() == {}
      ensures instQueue == [] && credits == seq(|supports|, _ => 0) && pending == seq(|supports|, _ => [])
    {
      this.supports, this.widths := supports, widths;
      scoreboard := new Scoreboard(phyRegs);
      instQueue := [];
      credits, pending := seq(|supports|, _ => 0), seq(|supports|, _ => []);
    }

    ghost function Value(): Board
      reads this
    {
      Board(instQueue, credits, pending)
    }

    ghost predicate Valid()
      reads this
    {
      |supports| == |widths| == |credits| == |pending|
    }

    // The stage's part of the dispatch state: its queue and its busy bits.
    ghost predicate Matches(d: Dispatch)
      reads this, scoreboard.board
    {
      instQueue == d.queue && scoreboard.Busy() == d.busy
    }

    // The credit step of lane `s`, which is all the stage knows of the lane's room.
    method AcceptCredit(all: seq<Renamed>, s: nat, credit: nat, ghost l: Lane)
      requires Valid() && s < |credits| && LaneView(l, Value(), s) && l.creditMsg == credit
      modifies this`credits
      ensures Valid() && LaneView(LaneNext(all, l, TakeCredit), Value(), s)
      ensures forall t | 0 <= t < |credits| && t != s :: credits[t] == old(credits)[t]
    {
      credits := credits[s := credits[s] + credit];
    }

    // A destination becomes busy when its instruction enters the queue.
    method AllocateInst(all: seq<Renamed>, group: seq<nat>, ghost d: Dispatch) returns (ghost d': Dispatch)
      requires Matches(d) && d.arriving == group
      requires forall i | 0 <= i < |group| :: InFile(all, scoreboard.board.Length, group[i])
      modifies this`instQueue, scoreboard.board
      ensures RepeatDispatch(all, d, DispatchArrive, |group|) == Some(d') && Matches(d') && d'.arriving == []
    {
      d' := d;
      for i := 0 to |group|
        invariant RepeatDispatch(all, d, DispatchArrive, i) == Some(d') && Matches(d') && d'.arriving == group[i..]
      {
        assert InFile(all, scoreboard.board.Length, group[i]);
        OneMoreDispatch(all, d, DispatchArrive, i, d');
        scoreboard.SetBusyBit(all[group[i]].pd);
        instQueue := instQueue + [Entry(group[i], false, ())];
        d' := DispatchNext(all, d', DispatchArrive);
      }
    }

    method FuncUnitBack(all: seq<Renamed>, group: seq<nat>, ghost d: Dispatch) returns (ghost d': Dispatch)
      requires Matches(d) && d.cast == group && 0 !in d.busy
      requires forall i | 0 <= i < |group| :: InFile(all, scoreboard.board.Length, group[i])
      modifies scoreboard.board
      ensures RepeatDispatch(all, d, DispatchCast, |group|) == Some(d') && Matches(d') && d'.cast == []
    {
      d' := d;
      for i := 0 to |group|
        invariant RepeatDispatch(all, d, DispatchCast, i) == Some(d') && Matches(d')
        invariant d'.cast == group[i..] && 0 !in d'.busy
      {
        assert InFile(all, scoreboard.board.Length, group[i]);
        OneMoreDispatch(all, d, DispatchCast, i, d');
        if all[group[i]].pd != 0 {
          scoreboard.ClearBusyBit(all[group[i]].pd);
        }
        d' := DispatchNext(all, d', DispatchCast);
      }
    }

    // Only issued entries leave, and all of them at the front do.
    method PopIssueQueue(all: seq<Renamed>, ghost d: Dispatch) returns (ghost n: nat, ghost d': Dispatch)
      requires Matches(d)
      modifies this`instQueue
      ensures RepeatDispatch(all, d, DispatchPop, n) == Some(d') && Matches(d')
      ensures n <= |old(instQueue)| && instQueue == old(instQueue)[n..]
      ensures forall j | 0 <= j < n :: old(instQueue)[j].issued
      ensures n < |old(instQueue)| ==> !old(instQueue)[n].issued
    {
      n, d' := 0, d;
      ghost var q := instQueue;
      while instQueue != [] && instQueue[0].issued
        invariant n <= |q| && instQueue == q[n..] && forall j | 0 <= j < n :: q[j].issued
        invariant RepeatDispatch(all, d, DispatchPop, n) == Some(d') && Matches(d')
        decreases |instQueue|
      {
        OneMoreDispatch(all, d, DispatchPop, n, d');
        assert q[n] == instQueue[0];
        instQueue := instQueue[1..];
        d' := DispatchNext(all, d', DispatchPop);
        n := n + 1;
      }
    }

    // Send entry `k`, the first this lane can take, to lane `s`, with the sources found busy. Here it
    // is the selection after the first `n`, which led from `b` to this state.
    method SelectOne(all: seq<Renamed>, s: nat, k: nat, ghost busy: set<nat>, ghost b: Board, ghost n: nat)
      requires Valid() && s < |credits| && busy == scoreboard.Busy()
      requires SelectTimes(all, supports[s], busy, b, s, n) == Some(Value())
      requires credits[s] > 0
      requires k == FirstEligible(all, supports[s], instQueue) < |instQueue|
      requires InFile(all, scoreboard.board.Length, instQueue[k].uid)
      modifies this
      ensures Valid() && FirstEligible(all, supports[s], instQueue) > k
      ensures SelectTimes(all, supports[s], busy, b, s, n + 1) == Some(Value())
      ensures |instQueue| == |old(instQueue)|
    {
      OneMoreSelect(all, supports[s], busy, b, s, n, Value());
      NextEligible(all, supports[s], instQueue, k);
      var u := instQueue[k].uid;
      var f1 := scoreboard.GetBusyBit(all[u].p1);
      var f2 := scoreboard.GetBusyBit(all[u].p2);
      pending := pending[s := pending[s] + [Waiting(u, f1, f2)]];
      credits := credits[s := credits[s] - 1];
      instQueue := instQueue[k := instQueue[k].(issued := true)];
    }

    // One lane takes its oldest eligible instructions, as many as its width and credit allow.
    method SelectFor(all: seq<Renamed>, s: nat) returns (n: nat)
      requires Valid() && s < |credits| && QueueInFile(all, scoreboard.board.Length, instQueue)
      modifies this
      ensures Valid() && SelectTimes(all, supports[s], scoreboard.Busy(), old(Value()), s, n) == Some(Value())
      ensures n <= old(credits)[s] && credits == old(credits)[s := old(credits)[s] - n]
      ensures Greedy(all, supports[s], Min(widths[s], old(credits)[s]), n, instQueue)
      ensures IssuedMore(old(instQueue), instQueue)
    {
      n := 0;
      ghost var b, busy := Value(), scoreboard.Busy();
      var widthLeft := widths[s];
      var i := 0;
      while i < |instQueue|
        invariant 0 <= i <= |instQueue| && Valid()
        invariant SelectTimes(all, supports[s], busy, b, s, n) == Some(Value())
        invariant n + widthLeft == widths[s]
        invariant FirstEligible(all, supports[s], instQueue) >= i
      {
        TimesKeep(all, supports[s], busy, b, s, n, Value());
        if credits[s] == 0 || widthLeft == 0 {
          return;
        }
        assert InFile(all, scoreboard.board.Length, b.queue[i].uid);
        if Eligible(all, supports[s], instQueue[i]) {
          SelectOne(all, s, i, busy, b, n);
          widthLeft := widthLeft - 1;
          n := n + 1;
        }
        i := i + 1;
      }
      TimesKeep(all, supports[s], busy, b, s, n, Value());
    }

    // Every lane in turn takes its oldest eligible instructions within its width and credit; no
    // lane leaves behind one it could have taken. The total is not bounded by the stage's own width.
    method SelectInst(all: seq<Renamed>) returns (produced: nat, counts: seq<nat>)
      requires Valid() && QueueInFile(all, scoreboard.board.Length, instQueue)
      modifies this
      ensures Valid() && |counts| == |supports| && produced == Sum(counts, |counts|)
      ensures SelectLanes(all, supports, scoreboard.Busy(), old(Value()), counts, |counts|) == Some(Value())
      ensures forall s | 0 <= s < |counts| ::
                Greedy(all, supports[s], Min(widths[s], old(credits)[s]), counts[s], instQueue)
      ensures IssuedMore(old(instQueue), instQueue)
    {
      produced, counts := 0, [];
      ghost var b := Value();
      var s := 0;
      while s < |widths|
        invariant 0 <= s <= |widths| && |counts| == s && Valid() && produced == Sum(counts, s)
        invariant SelectLanes(all, supports, scoreboard.Busy(), b, counts, s) == Some(Value())
        invariant IssuedMore(b.queue, instQueue)
        invariant |b.credits| == |credits| && forall t | s <= t < |credits| :: credits[t] == b.credits[t]
        invariant forall t | 0 <= t < s :: Greedy(all, supports[t], Min(widths[t], b.credits[t]), counts[t], instQueue)
      {
        ghost var before := instQueue;
        StillInFile(all, scoreboard.board.Length, b.queue, instQueue);
        var n := SelectFor(all, s);
        forall t | 0 <= t < s ensures Greedy(all, supports[t], Min(widths[t], b.credits[t]), counts[t], instQueue) {
          StillGreedy(all, supports[t], Min(widths[t], b.credits[t]), counts[t], before, instQueue);
        }
        SelectMore(all, supports, scoreboard.Busy(), b, counts, n);
        SumMore(counts, n);
        produced := produced + n;
        counts := counts + [n];
        s := s + 1;
      }
    }

    // What was selected goes out, one group per lane: each lane finds its group in its inbox after
    // the tick, and the stage starts the next cycle with nothing pending.
    method IssueInst(cast: seq<nat>, ghost lanes: seq<Lane>) returns (groups: seq<seq<Waiting>>)
      requires Valid() && |lanes| == |pending| && forall s | 0 <= s < |lanes| :: LaneView(lanes[s], Value(), s)
      modifies this`pending
      ensures Valid() && |groups| == |lanes|
      ensures forall s | 0 <= s < |lanes| ::
                && groups[s] == LaneTick(lanes[s], cast).arriving
                && LaneView(LaneTick(lanes[s], cast), Value(), s)
    {
      groups := pending;
      ghost var b := Value();
      pending := seq(|supports|, _ => []);
      forall s | 0 <= s < |lanes|
        ensures groups[s] == LaneTick(lanes[s], cast).arriving && LaneView(LaneTick(lanes[s], cast), Value(), s)
      {
        assert LaneView(lanes[s], b, s);
      }
    }
  }

  /* ---------- selection ---------- */

  // What selection works on: the queue, and per lane the credit and the group to be sent.
  datatype Board = Board(queue: seq<Entry<()>>, credits: seq<nat>, pending: seq<seq<Waiting>>)

  // The stage's part of lane `s`: the credit it knows of and the group it is about to send.
  predicate LaneView(l: Lane, b: Board, s: nat) {
    s < |b.credits| == |b.pending| && b.credits[s] == l.credit && b.pending[s] == l.sent
  }

  predicate CanSelect(all: seq<Renamed>, supports: set<nat>, b: Board, s: nat) {
    && s < |b.credits| && s < |b.pending| && b.credits[s] > 0
    && FirstEligible(all, supports, b.queue) < |b.queue|
  }

  function SelectNext(all: seq<Renamed>, supports: set<nat>, busy: set<nat>, b: Board, s: nat): Board
    requires CanSelect(all, supports, b, s)
  {
    var k := FirstEligible(all, supports, b.queue);
    var u := b.queue[k].uid;
    Board(b.queue[k := b.queue[k].(issued := true)],
          b.credits[s := b.credits[s] - 1],
          b.pending[s := b.pending[s] + [Waiting(u, all[u].p1 in busy, all[u].p2 in busy)]])
  }

  function SelectTimes(all: seq<Renamed>, supports: set<nat>, busy: set<nat>, b: Board, s: nat, n: nat): Option<Board> {
    if n == 0 then Some(b)
    else
      var r := SelectTimes(all, supports, busy, b, s, n - 1);
      if r.None? || !CanSelect(all, supports, r.value, s) then None
      else Some(SelectNext(all, supports, busy, r.value, s))
  }

  lemma {:induction false} OneMoreSelect(all: seq<Renamed>, supports: set<nat>, busy: set<nat>, b: Board, s: nat,
                                         n: nat, b': Board)
    requires SelectTimes(all, supports, busy, b, s, n) == Some(b') && CanSelect(all, supports, b', s)
    ensures SelectTimes(all, supports, busy, b, s, n + 1) == Some(SelectNext(all, supports, busy, b', s))
  {
  }

  // Each selection uses one credit of the lane and issues one entry; nothing else changes.
  lemma {:induction false} TimesKeep(all: seq<Renamed>, supports: set<nat>, busy: set<nat>, b: Board, s: nat, n: nat,
                                     b': Board)
    requires s < |b.credits| && SelectTimes(all, supports, busy, b, s, n) == Some(b')
    ensures n <= b.credits[s] && b'.credits == b.credits[s := b.credits[s] - n]
    ensures IssuedMore(b.queue, b'.queue)
  {
    if n > 0 {
      TimesKeep(all, supports, busy, b, s, n - 1, SelectTimes(all, supports, busy, b, s, n - 1).value);
    }
  }

  // After each of the first `n` lanes has selected as often as `counts` says.
  function SelectLanes(all: seq<Renamed>, supports: seq<set<nat>>, busy: set<nat>, b: Board, counts: seq<nat>,
                       n: nat): Option<Board>
    requires n <= |counts| && n <= |supports|
  {
    if n == 0 then Some(b)
    else
      var r := SelectLanes(all, supports, busy, b, counts, n - 1);
      if r.None? then None else SelectTimes(all, supports[n - 1], busy, r.value, n - 1, counts[n - 1])
  }

  lemma {:induction false} SelectPrefix(all: seq<Renamed>, supports: seq<set<nat>>, busy: set<nat>, b: Board,
                                        counts: seq<nat>, x: nat, n: nat)
    requires n <= |counts| && n <= |supports|
    ensures SelectLanes(all, supports, busy, b, counts + [x], n) == SelectLanes(all, supports, busy, b, counts, n)
  {
    if n > 0 {
      SelectPrefix(all, supports, busy, b, counts, x, n - 1);
    }
  }

  lemma {:induction false} SelectMore(all: seq<Renamed>, supports: seq<set<nat>>, busy: set<nat>, b: Board,
                                      counts: seq<nat>, x: nat)
    requires |counts| < |supports| && SelectLanes(all, supports, busy, b, counts, |counts|).Some?
    ensures SelectLanes(all, supports, busy, b, counts + [x], |counts| + 1) ==
            SelectTimes(all, supports[|counts|], busy,
                        SelectLanes(all, supports, busy, b, counts, |counts|).value, |counts|, x)
  {
    SelectPrefix(all, supports, busy, b, counts, x, |counts|);
  }

  // The same queue with possibly more entries issued.
  predicate IssuedMore(q: seq<Entry<()>>, q': seq<Entry<()>>) {
    |q'| == |q| && forall i | 0 <= i < |q| :: q'[i].uid == q[i].uid && (q[i].issued ==> q'[i].issued)
  }

  lemma {:induction false} StillInFile(all: seq<Renamed>, n: nat, q: seq<Entry<()>>, q': seq<Entry<()>>)
    requires QueueInFile(all, n, q) && IssuedMore(q, q')
    ensures QueueInFile(all, n, q')
  {
    forall i | 0 <= i < |q'| ensures InFile(all, n, q'[i].uid) {
      assert InFile(all, n, q[i].uid);
    }
  }

  // `n` of at most `limit` were taken from what is now `q`, and fewer only because none was left.
  predicate Greedy(all: seq<Renamed>, supports: set<nat>, limit: nat, n: nat, q: seq<Entry<()>>) {
    n <= limit && (n < limit ==> FirstEligible(all, supports, q) == |q|)
  }

  lemma {:induction false} StillGreedy(all: seq<Renamed>, supports: set<nat>, limit: nat, n: nat, q: seq<Entry<()>>,
                                       q': seq<Entry<()>>)
    requires Greedy(all, supports, limit, n, q) && IssuedMore(q, q')
    ensures Greedy(all, supports, limit, n, q')
  {
    if n < limit {
      forall j | 0 <= j < |q'| ensures !Eligible(all, supports, q'[j]) {
        assert !Eligible(all, supports, q[j]);
      }
      FirstEligibleIs(all, supports, q', |q'|);
    }
  }

  function Sum(counts: seq<nat>, n: nat): nat
    requires n <= |counts|
  {
    if n == 0 then 0 else Sum(counts, n - 1) + counts[n - 1]
  }

  lemma {:induction false} SumPrefix(counts: seq<nat>, x: nat, n: nat)
    requires n <= |counts|
    ensures Sum(counts + [x], n) == Sum(counts, n)
  {
    if n > 0 {
      SumPrefix(counts, x, n - 1);
    }
  }

  lemma {:induction false} SumMore(counts: seq<nat>, x: nat)
    ensures Sum(counts + [x], |counts| + 1) == Sum(counts, |counts|) + x
  {
    SumPrefix(counts, x, |counts|);
  }
}
