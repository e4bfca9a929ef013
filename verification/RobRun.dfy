/**
  Every run of the reorder buffer. Instructions are numbered in allocation order; `tags` are the
  ring indices they were given. A run may flush at any time, and a result may arrive for any
  instruction ever allocated, also for one that was flushed: the source marks whatever is in the slot.
 */
module RobRun {
  import opened Prelude
  import opened FuncTypes
  import opened LoopQueues
  import opened RobUnit

  // A ring of `depth` slots whose first entry is at `head`; `done` says whose result has been
  // marked, `sent` lists what was sent for commit and `woken` the stores told that they are in front.
  datatype State = State(depth: nat, head: nat, entries: seq<Entry>,
                         all: seq<RobInst>, tags: seq<nat>, done: seq<bool>, sent: seq<nat>, woken: seq<nat>)

  datatype Event = Allocate(fu: nat, missed: bool) | Finish(uid: nat) | Commit(width: nat) | Flush

  function Initial(depth: nat): State {
    State(depth, 0, [], [], [], [], [], [])
  }

  // The oldest instruction still in the buffer.
  function Oldest(s: State): nat {
    if |s.entries| <= |s.all| then |s.all| - |s.entries| else 0
  }

  function Iota(from: nat, n: nat): (s: seq<nat>)
    ensures |s| == n
    ensures forall i | 0 <= i < n :: s[i] == from + i
  {
    if n == 0 then [] else Iota(from, n - 1) + [from + n - 1]
  }

  predicate Enabled(s: State, e: Event) {
    match e
    case Allocate(_, _) => |s.entries| < s.depth
    case Finish(u) => u < |s.all| && u < |s.tags| && u < |s.done|
    case Commit(_) => true
    case Flush => true
  }

  function AfterAllocate(s: State, i: RobInst): State {
    s.(entries := s.entries + [Fresh(i)], all := s.all + [i],
       tags := s.tags + [Slot(s.depth, s.head, |s.entries|)], done := s.done + [false])
  }

  function AfterFinish(s: State, u: nat): State
    requires u < |s.tags| && u < |s.done|
  {
    s.(entries := MarkTag(s.entries, s.depth, s.head, s.tags[u]), done := s.done[u := true])
  }

  function AfterCommit(s: State, width: nat): State {
    var k := PopCount(s.entries, width);
    s.(head := Slot(s.depth, s.head, k),
       entries := WakeFirst(s.entries[k..]),
       sent := s.sent + Iota(Oldest(s), SentCount(s.entries, width)),
       woken := s.woken + if WakesStore(s.entries[k..]) then [Oldest(s) + k] else [])
  }

  function Next(s: State, e: Event): State
    requires Enabled(s, e)
  {
    match e
    case Allocate(fu, missed) => AfterAllocate(s, RobInst(|s.all|, fu, missed))
    case Finish(u) => AfterFinish(s, u)
    case Commit(w) => AfterCommit(s, w)
    case Flush => s.(head := 0, entries := [])
  }

  function Run(depth: nat, es: seq<Event>, n: nat): Option<State>
    requires n <= |es|
  {
    if n == 0 then Some(Initial(depth))
    else
      var r := Run(depth, es, n - 1);
      if r.None? || !Enabled(r.value, es[n - 1]) then None else Some(Next(r.value, es[n - 1]))
  }

  /* ---------- the window ---------- */

  // With `f` the oldest, entry `i` is instruction `f + i`, in the slot it was told.
  predicate Occupies(s: State, f: nat, i: nat)
    requires i < |s.entries|
  {
    var u := f + i;
    && u < |s.all| && u < |s.tags| && u < |s.done|
    && Slot(s.depth, s.head, i) == s.tags[u]
    && s.entries[i].inst == s.all[u]
  }

  predicate Window(s: State) {
    && |s.entries| <= s.depth && |s.entries| <= |s.all| == |s.tags| == |s.done|
    && (s.depth > 0 ==> s.head < s.depth)
    && (forall u | 0 <= u < |s.all| :: s.all[u].uid == u)
    && (forall i | 0 <= i < |s.entries| :: Occupies(s, Oldest(s), i))
  }

  lemma {:induction false} AllocateKeepsWindow(s: State, x: RobInst)
    requires Window(s) && |s.entries| < s.depth && x.uid == |s.all|
    ensures Window(AfterAllocate(s, x))
  {
    var s', f := AfterAllocate(s, x), Oldest(s);
    forall i | 0 <= i < |s'.entries| ensures Occupies(s', f, i) {
      assert i < |s.entries| ==> Occupies(s, f, i);
    }
  }

  lemma {:induction false} FinishKeepsWindow(s: State, u: nat)
    requires Window(s) && Enabled(s, Finish(u))
    ensures Window(AfterFinish(s, u))
  {
    var s', f := AfterFinish(s, u), Oldest(s);
    forall i | 0 <= i < |s'.entries| ensures Occupies(s', f, i) {
      assert Occupies(s, f, i);
    }
  }

  lemma {:induction false} CommitKeepsWindow(s: State, w: nat)
    requires Window(s)
    ensures Window(AfterCommit(s, w)) && Oldest(AfterCommit(s, w)) == Oldest(s) + PopCount(s.entries, w)
  {
    var s', k := AfterCommit(s, w), PopCount(s.entries, w);
    var f, f' := Oldest(s), Oldest(s) + k;
    forall i | 0 <= i < |s'.entries| ensures Occupies(s', f', i) {
      assert Occupies(s, f, k + i);
    }
  }

  lemma {:induction false} WindowStep(s: State, e: Event)
    requires Window(s) && Enabled(s, e)
    ensures Window(Next(s, e))
  {
    match e
    case Allocate(fu, missed) => AllocateKeepsWindow(s, RobInst(|s.all|, fu, missed));
    case Finish(u) => FinishKeepsWindow(s, u);
    case Commit(w) => CommitKeepsWindow(s, w);
    case Flush =>
  }

  /* ---------- what has been sent ---------- */

  // With `f` the oldest in the buffer, instruction `u`, which was sent, has left the buffer unless it
  // is a mispredicted branch at the front.
  predicate SentOk(all: seq<RobInst>, f: nat, u: nat) {
    u < |all| && (u < f || (u == f && all[u].missed))
  }

  // `a` was sent before `b`.
  predicate InOrder(all: seq<RobInst>, a: nat, b: nat) {
    a < b || (a == b && a < |all| && all[a].missed)
  }

  predicate Ordered(s: State) {
    && (forall j | 0 <= j < |s.sent| :: SentOk(s.all, Oldest(s), s.sent[j]))
    && (forall i, j | 0 <= i < j < |s.sent| :: InOrder(s.all, s.sent[i], s.sent[j]))
  }

  // What one commit sends: finished entries, from the oldest on.
  lemma {:induction false} CommitSends(s: State, w: nat, j: nat)
    requires Window(s) && j < SentCount(s.entries, w)
    ensures SentOk(s.all, Oldest(s) + PopCount(s.entries, w), Oldest(s) + j)
    ensures s.entries[j].finish && (j < PopCount(s.entries, w) ==> !s.all[Oldest(s) + j].missed)
  {
    StopIs(s.entries, w, 0);
    assert Occupies(s, Oldest(s), j);
    assert Retirable(s.entries[j]) || j == PopCount(s.entries, w);
  }

  lemma {:induction false} CommitKeepsOrdered(s: State, w: nat)
    requires Window(s) && Ordered(s)
    ensures Ordered(AfterCommit(s, w))
  {
    CommitKeepsWindow(s, w);
    var s', f, n := AfterCommit(s, w), Oldest(s), SentCount(s.entries, w);
    forall j | 0 <= j < |s'.sent| ensures SentOk(s'.all, Oldest(s'), s'.sent[j]) {
      if j < |s.sent| {
        assert SentOk(s.all, f, s.sent[j]);
      } else {
        CommitSends(s, w, j - |s.sent|);
      }
    }
    forall i, j | 0 <= i < j < |s'.sent| ensures InOrder(s'.all, s'.sent[i], s'.sent[j]) {
    }
  }

  lemma {:induction false} OrderedStep(s: State, e: Event)
    requires Window(s) && Ordered(s) && Enabled(s, e)
    ensures Ordered(Next(s, e))
  {
    match e
    case Commit(w) => CommitKeepsOrdered(s, w);
    case _ =>
      var s' := Next(s, e);
      forall j | 0 <= j < |s'.sent| ensures SentOk(s'.all, Oldest(s'), s'.sent[j]) {
        assert SentOk(s.all, Oldest(s), s.sent[j]);
      }
      forall i, j | 0 <= i < j < |s'.sent| ensures InOrder(s'.all, s'.sent[i], s'.sent[j]) {
        assert InOrder(s.all, s.sent[i], s.sent[j]) && SentOk(s.all, Oldest(s), s.sent[i]);
      }
  }

  lemma {:induction false} RunOk(depth: nat, es: seq<Event>, n: nat, s: State)
    requires n <= |es| && Run(depth, es, n) == Some(s)
    ensures Window(s) && Ordered(s)
  {
    if n > 0 {
      var s0 := Run(depth, es, n - 1).value;
      RunOk(depth, es, n - 1, s0);
      WindowStep(s0, es[n - 1]);
      OrderedStep(s0, es[n - 1]);
    }
  }

  // Main result: in every run, flushes and late results included, instructions are sent for commit
  // in allocation order, and none twice except a mispredicted branch waiting at the front for its
  // flush.
  lemma {:induction false} CommitsInOrder(depth: nat, es: seq<Event>, s: State)
    requires Run(depth, es, |es|) == Some(s)
    ensures forall j | 0 <= j < |s.sent| :: SentOk(s.all, Oldest(s), s.sent[j])
    ensures forall i, j | 0 <= i < j < |s.sent| :: InOrder(s.all, s.sent[i], s.sent[j])
  {
    RunOk(depth, es, |es|, s);
  }

  // In every run an entry is in the slot its own instruction was told, however often that was reused.
  lemma {:induction false} SlotIsItsOwn(depth: nat, es: seq<Event>, s: State, i: nat)
    requires Run(depth, es, |es|) == Some(s) && i < |s.entries|
    ensures Oldest(s) + i < |s.all| == |s.tags|
    ensures s.tags[Oldest(s) + i] == Slot(s.depth, s.head, i) && s.entries[i].inst.uid == Oldest(s) + i
  {
    RunOk(depth, es, |es|, s);
    assert Occupies(s, Oldest(s), i);
  }

  // A commit sends all it can: it stops only at the width, at the end, at an unfinished entry, or at a
  // mispredicted branch, which is the last it sends and stays in front.
  lemma {:induction false} CommitSendsAll(depth: nat, es: seq<Event>, s: State, w: nat)
    requires Run(depth, es, |es|) == Some(s)
    ensures var s' := Next(s, Commit(w));
            var n: int := |s'.sent| - |s.sent|;
            && 0 <= n <= w && s.sent <= s'.sent
            && (forall j | |s.sent| <= j < |s'.sent| :: s'.sent[j] == Oldest(s) + j - |s.sent|)
            && (|| n == w || s'.entries == [] || !s'.entries[0].finish
                || (n > 0 && s'.entries[0].inst.missed && s'.sent[|s'.sent| - 1] == Oldest(s')))
  {
    RunOk(depth, es, |es|, s);
    StopIs(s.entries, w, 0);
    CommitKeepsWindow(s, w);
  }

  /* ---------- stores told that they are in front ---------- */

  // An entry's flag says whether its instruction has been told.
  predicate FlagTells(s: State, i: nat)
    requires i < |s.entries|
  {
    s.entries[i].wakedUp <==> Oldest(s) + i in s.woken
  }

  predicate WokenAt(s: State, j: nat)
    requires j < |s.woken|
  {
    s.woken[j] <= Oldest(s) && s.woken[j] < |s.all|
  }

  predicate Increasing(us: seq<nat>) {
    forall i, j | 0 <= i < j < |us| :: us[i] < us[j]
  }

  predicate WokenOk(s: State) {
    && Increasing(s.woken)
    && (forall j | 0 <= j < |s.woken| :: WokenAt(s, j))
    && (forall i | 0 <= i < |s.entries| :: FlagTells(s, i))
  }

  lemma {:induction false} FlagAfterCommit(s: State, w: nat, i: nat)
    requires Window(s) && WokenOk(s) && i < |AfterCommit(s, w).entries|
    requires Oldest(AfterCommit(s, w)) == Oldest(s) + PopCount(s.entries, w)
    ensures FlagTells(AfterCommit(s, w), i)
  {
    var s', k := AfterCommit(s, w), PopCount(s.entries, w);
    var rest := s.entries[k..];
    var u := Oldest(s) + k + i;
    assert FlagTells(s, k + i) && rest[i] == s.entries[k + i];
    if WakesStore(rest) {
      assert s'.woken == s.woken + [Oldest(s) + k];
      assert u in s'.woken <==> u in s.woken || i == 0;
    } else {
      assert s'.woken == s.woken && s'.entries == rest;
    }
  }

  lemma {:induction false} CommitKeepsWoken(s: State, w: nat)
    requires Window(s) && WokenOk(s)
    ensures WokenOk(AfterCommit(s, w))
  {
    var s', k := AfterCommit(s, w), PopCount(s.entries, w);
    CommitKeepsWindow(s, w);
    forall j | 0 <= j < |s.woken| ensures s.woken[j] <= Oldest(s) && s.woken[j] < |s.all| {
      assert WokenAt(s, j);
    }
    if k < |s.entries| {
      assert FlagTells(s, k);
    }
    forall j | 0 <= j < |s'.woken| ensures WokenAt(s', j) {
    }
    forall i | 0 <= i < |s'.entries| ensures FlagTells(s', i) {
      FlagAfterCommit(s, w, i);
    }
  }

  lemma {:induction false} NotYetWoken(s: State)
    requires WokenOk(s)
    ensures |s.all| !in s.woken
  {
    forall j | 0 <= j < |s.woken| ensures s.woken[j] < |s.all| {
      assert WokenAt(s, j);
    }
  }

  lemma {:induction false} WokenStep(s: State, e: Event)
    requires Window(s) && WokenOk(s) && Enabled(s, e)
    ensures WokenOk(Next(s, e))
  {
    var s' := Next(s, e);
    match e
    case Commit(w) => CommitKeepsWoken(s, w);
    case Flush =>
      forall j | 0 <= j < |s'.woken| ensures WokenAt(s', j) {
        assert WokenAt(s, j);
      }
    case _ =>
      forall j | 0 <= j < |s'.woken| ensures WokenAt(s', j) {
        assert WokenAt(s, j);
      }
      NotYetWoken(s);
      forall i | 0 <= i < |s'.entries| ensures FlagTells(s', i) {
        assert i < |s.entries| ==> FlagTells(s, i);
      }
  }

  lemma {:induction false} RunWoken(depth: nat, es: seq<Event>, n: nat, s: State)
    requires n <= |es| && Run(depth, es, n) == Some(s)
    ensures WokenOk(s)
  {
    if n > 0 {
      var s0 := Run(depth, es, n - 1).value;
      RunWoken(depth, es, n - 1, s0);
      RunOk(depth, es, n - 1, s0);
      WokenStep(s0, es[n - 1]);
    }
  }

  // Event `k` was a commit that left the store `u` in front.
  predicate LeftInFront(depth: nat, es: seq<Event>, k: nat, u: nat) {
    && k < |es| && es[k].Commit? && Run(depth, es, k + 1).Some?
    && var s := Run(depth, es, k + 1).value;
       s.entries != [] && Oldest(s) == u && u < |s.all| && s.all[u].fu == STU
  }

  predicate EverInFront(depth: nat, es: seq<Event>, n: nat, u: nat) {
    exists k :: 0 <= k < n && LeftInFront(depth, es, k, u)
  }

  lemma {:induction false} EverMore(depth: nat, es: seq<Event>, n: nat, u: nat)
    ensures EverInFront(depth, es, n + 1, u) <==> EverInFront(depth, es, n, u) || LeftInFront(depth, es, n, u)
  {
    if EverInFront(depth, es, n + 1, u) {
      var k :| 0 <= k < n + 1 && LeftInFront(depth, es, k, u);
    }
  }

  lemma {:induction false} WokenGrows(depth: nat, es: seq<Event>, n: nat, s: State, u: nat)
    requires n < |es| && Run(depth, es, n) == Some(s) && Enabled(s, es[n])
    ensures u in Next(s, es[n]).woken <==> u in s.woken || LeftInFront(depth, es, n, u)
  {
    RunOk(depth, es, n, s);
    RunWoken(depth, es, n, s);
    if es[n].Commit? {
      var k, w := PopCount(s.entries, es[n].width), es[n].width;
      CommitKeepsWindow(s, w);
      assert Run(depth, es, n + 1) == Some(AfterCommit(s, w));
      if k < |s.entries| {
        assert FlagTells(s, k) && Occupies(s, Oldest(s), k);
      }
    }
  }

  // Main result: over every run, exactly the stores that some commit left in front have been told so,
  // each once and in order.
  lemma {:induction false} StoresWokenIff(depth: nat, es: seq<Event>, n: nat, s: State, u: nat)
    requires n <= |es| && Run(depth, es, n) == Some(s)
    ensures u in s.woken <==> EverInFront(depth, es, n, u)
    ensures Increasing(s.woken)
  {
    RunWoken(depth, es, n, s);
    if n > 0 {
      var s0 := Run(depth, es, n - 1).value;
      StoresWokenIff(depth, es, n - 1, s0, u);
      WokenGrows(depth, es, n - 1, s0, u);
      EverMore(depth, es, n - 1, u);
    }
  }

  /* ---------- results that outlive their instruction ---------- */

  predicate OwnFlag(s: State, i: nat)
    requires i < |s.entries|
  {
    Oldest(s) + i < |s.done| && s.entries[i].finish == s.done[Oldest(s) + i]
  }

  predicate HadResult(s: State, j: nat)
    requires j < |s.sent|
  {
    s.sent[j] < |s.done| && s.done[s.sent[j]]
  }

  // Every entry carries the finish flag of its own instruction, and nothing was sent before its own
  // result arrived.
  predicate Truthful(s: State) {
    && (forall i | 0 <= i < |s.entries| :: OwnFlag(s, i))
    && (forall j | 0 <= j < |s.sent| :: HadResult(s, j))
  }

  // The slot named by `tag` holds an entry that is not finished.
  predicate Unfinished(s: State, tag: nat) {
    exists i :: 0 <= i < |s.entries| && Slot(s.depth, s.head, i) == tag && !s.entries[i].finish
  }

  // A result for an instruction that has left the buffer, whose slot now waits for another result.
  predicate Stray(s: State, e: Event) {
    e.Finish? && e.uid < Oldest(s) && e.uid < |s.tags| && Unfinished(s, s.tags[e.uid])
  }

  predicate NoStray(depth: nat, es: seq<Event>, n: nat)
    requires n <= |es|
  {
    n == 0
    || (&& NoStray(depth, es, n - 1)
        && (Run(depth, es, n - 1).Some? ==> !Stray(Run(depth, es, n - 1).value, es[n - 1])))
  }

  lemma {:induction false} FinishTruthful(s: State, u: nat)
    requires Window(s) && Truthful(s) && Enabled(s, Finish(u)) && !Stray(s, Finish(u))
    ensures Truthful(AfterFinish(s, u))
  {
    var s', f := AfterFinish(s, u), Oldest(s);
    assert u >= f ==> Occupies(s, f, u - f);
    forall i | 0 <= i < |s'.entries| ensures OwnFlag(s', i) {
      assert OwnFlag(s, i) && Occupies(s, f, i);
    }
    forall j | 0 <= j < |s'.sent| ensures HadResult(s', j) {
      assert HadResult(s, j);
    }
  }

  lemma {:induction false} CommitTruthful(s: State, w: nat)
    requires Window(s) && Truthful(s)
    ensures Truthful(AfterCommit(s, w))
  {
    CommitKeepsWindow(s, w);
    var s', k := AfterCommit(s, w), PopCount(s.entries, w);
    forall i | 0 <= i < |s'.entries| ensures OwnFlag(s', i) {
      assert OwnFlag(s, k + i);
    }
    forall j | 0 <= j < |s'.sent| ensures HadResult(s', j) {
      if j < |s.sent| {
        assert HadResult(s, j);
      } else {
        CommitSends(s, w, j - |s.sent|);
        assert OwnFlag(s, j - |s.sent|);
      }
    }
  }

  lemma {:induction false} AllocateTruthful(s: State, x: RobInst)
    requires Window(s) && Truthful(s) && |s.entries| < s.depth
    ensures Truthful(AfterAllocate(s, x))
  {
    var s' := AfterAllocate(s, x);
    forall i | 0 <= i < |s'.entries| ensures OwnFlag(s', i) {
      assert i < |s.entries| ==> OwnFlag(s, i);
    }
    forall j | 0 <= j < |s'.sent| ensures HadResult(s', j) {
      assert HadResult(s, j);
    }
  }

  lemma {:induction false} TruthfulStep(s: State, e: Event)
    requires Window(s) && Truthful(s) && Enabled(s, e)
    ensures Truthful(Next(s, e)) <==> !Stray(s, e)
  {
    match e
    case Allocate(fu, missed) => AllocateTruthful(s, RobInst(|s.all|, fu, missed));
    case Finish(u) =>
      if Stray(s, e) {
        StrayLies(s, u);
      } else {
        FinishTruthful(s, u);
      }
    case Commit(w) => CommitTruthful(s, w);
    case Flush =>
      forall j | 0 <= j < |s.sent| ensures HadResult(Next(s, e), j) {
        assert HadResult(s, j);
      }
  }

  // A stray result gives its finish flag to somebody else.
  lemma {:induction false} StrayLies(s: State, u: nat)
    requires Window(s) && Truthful(s) && Enabled(s, Finish(u)) && Stray(s, Finish(u))
    ensures !Truthful(AfterFinish(s, u))
  {
    var i :| 0 <= i < |s.entries| && Slot(s.depth, s.head, i) == s.tags[u] && !s.entries[i].finish;
    assert OwnFlag(s, i);
    assert !OwnFlag(AfterFinish(s, u), i);
  }

  predicate AlwaysTruthful(depth: nat, es: seq<Event>, n: nat)
    requires n <= |es|
  {
    && Run(depth, es, n).Some? && Truthful(Run(depth, es, n).value)
    && (n > 0 ==> AlwaysTruthful(depth, es, n - 1))
  }

  // Main result: all along a run every entry carries its own finish flag and nothing is sent before
  // its own result, if and only if no result arrives for an instruction that has left the buffer
  // while its slot waits for another result.
  lemma {:induction false} OwnResultsIff(depth: nat, es: seq<Event>, n: nat)
    requires n <= |es| && Run(depth, es, n).Some?
    ensures AlwaysTruthful(depth, es, n) <==> NoStray(depth, es, n)
  {
    if n > 0 {
      var s := Run(depth, es, n - 1).value;
      OwnResultsIff(depth, es, n - 1);
      if NoStray(depth, es, n - 1) {
        RunOk(depth, es, n - 1, s);
        TruthfulStep(s, es[n - 1]);
      }
    }
  }

  // No result for an instruction outside the buffer, which is what the pipeline guarantees without
  // flushes, is enough.
  predicate LiveResults(depth: nat, es: seq<Event>, n: nat)
    requires n <= |es|
  {
    n == 0 || (LiveResults(depth, es, n - 1)
               && (Run(depth, es, n - 1).Some? && es[n - 1].Finish? ==>
                     Oldest(Run(depth, es, n - 1).value) <= es[n - 1].uid))
  }

  lemma {:induction false} LiveResultsAreOwn(depth: nat, es: seq<Event>, n: nat)
    requires n <= |es| && Run(depth, es, n).Some? && LiveResults(depth, es, n)
    ensures NoStray(depth, es, n) && AlwaysTruthful(depth, es, n)
  {
    LiveIsNoStray(depth, es, n);
    OwnResultsIff(depth, es, n);
  }

  lemma {:induction false} LiveIsNoStray(depth: nat, es: seq<Event>, n: nat)
    requires n <= |es| && LiveResults(depth, es, n)
    ensures NoStray(depth, es, n)
  {
    if n > 0 {
      LiveIsNoStray(depth, es, n - 1);
    }
  }

  // Two instructions were given slot 0; the second is in it.
  function Reallocated(depth: nat, i0: RobInst, i1: RobInst): State {
    State(depth, 0, [Fresh(i1)], [i0, i1], [0, 0], [false, false], [], [])
  }

  lemma {:induction false} SlotIsReused(depth: nat, es: seq<Event>)
    requires depth > 0 && |es| >= 3
    requires es[0] == Allocate(0, false) && es[1] == Flush && es[2] == Allocate(0, false)
    ensures Run(depth, es, 3) == Some(Reallocated(depth, RobInst(0, 0, false), RobInst(1, 0, false)))
  {
    var i0, i1 := RobInst(0, 0, false), RobInst(1, 0, false);
    var s1 := State(depth, 0, [Fresh(i0)], [i0], [0], [false], [], []);
    var s2, s3 := s1.(entries := []), Reallocated(depth, i0, i1);
    assert Slot(depth, 0, 0) == 0;
    assert Next(Initial(depth), es[0]).entries == s1.entries;
    assert Next(Initial(depth), es[0]).all == s1.all && Next(Initial(depth), es[0]).tags == s1.tags;
    assert Next(Initial(depth), es[0]).done == s1.done;
    assert Run(depth, es, 1) == Some(s1) by { assert Run(depth, es, 0) == Some(Initial(depth)); }
    assert Run(depth, es, 2) == Some(s2);
    assert Next(s2, es[2]).entries == s3.entries && Next(s2, es[2]).all == s3.all;
    assert Next(s2, es[2]).tags == s3.tags && Next(s2, es[2]).done == s3.done;
  }

  // The failing input: a result that outlives a flush finishes the instruction that was given the
  // same slot, which is then sent for commit although its own result never came.
  lemma {:induction false} LateResultIsTaken(depth: nat) returns (es: seq<Event>, s: State)
    requires depth > 0
    ensures Run(depth, es, |es|) == Some(s) && !NoStray(depth, es, |es|)
    ensures s.sent == [1] && |s.done| == 2 && !s.done[1]
  {
    es := [Allocate(0, false), Flush, Allocate(0, false), Finish(0), Commit(1)];
    var i0, i1 := RobInst(0, 0, false), RobInst(1, 0, false);
    var s3 := Reallocated(depth, i0, i1);
    SlotIsReused(depth, es);
    var s4 := s3.(entries := [Fresh(i1).(finish := true)], done := [true, false]);
    assert AfterFinish(s3, 0).entries == s4.entries && AfterFinish(s3, 0).done == s4.done;
    assert Run(depth, es, 4) == Some(s4);
    assert Stray(s3, Finish(0));
    assert !NoStray(depth, es, 4);
    assert PopCount(s4.entries, 1) == 1;
    assert Iota(1, 1) == [1];
    s := AfterCommit(s4, 1);
    assert Run(depth, es, 5) == Some(s);
  }

  /* ---------- without flushes ---------- */

  // Sent so far: everything that has left the buffer, once each and in order, then only the front.
  predicate Gapless(sent: seq<nat>, f: nat) {
    f <= |sent| && forall j | 0 <= j < |sent| :: GaplessAt(sent, f, j)
  }

  predicate GaplessAt(sent: seq<nat>, f: nat, j: nat)
    requires j < |sent|
  {
    sent[j] == if j < f then j else f
  }

  lemma {:induction false} GaplessStep(s: State, e: Event, s': State)
    requires Window(s) && Ordered(s) && Gapless(s.sent, Oldest(s)) && Enabled(s, e) && e != Flush && s' == Next(s, e)
    ensures Gapless(s'.sent, Oldest(s'))
  {
    match e
    case Allocate(_, _) =>
    case Finish(_) =>
    case Commit(w) =>
      CommitKeepsWindow(s, w);
      var f, n := Oldest(s), SentCount(s.entries, w);
      if |s.sent| > f && n > 0 {
        assert GaplessAt(s.sent, f, f) && SentOk(s.all, f, s.sent[f]);
        CommitSends(s, w, 0);
      }
      MoreGapless(s.sent, f, PopCount(s.entries, w), n);
  }

  lemma {:induction false} MoreGapless(sent: seq<nat>, f: nat, k: nat, n: nat)
    requires Gapless(sent, f) && k <= n <= k + 1 && (|sent| > f ==> k == 0)
    ensures Gapless(sent + Iota(f, n), f + k)
  {
    var sent', f' := sent + Iota(f, n), f + k;
    forall j | 0 <= j < |sent'| ensures GaplessAt(sent', f', j) {
      assert j < |sent| ==> GaplessAt(sent, f, j);
    }
  }

  predicate FlushFree(es: seq<Event>, n: nat)
    requires n <= |es|
  {
    n == 0 || (es[n - 1] != Flush && FlushFree(es, n - 1))
  }

  lemma {:induction false} RunGaplessStep(depth: nat, es: seq<Event>, n: nat, s: State, e: Event, s': State)
    requires n <= |es| && Run(depth, es, n) == Some(s) && Gapless(s.sent, Oldest(s))
    requires Enabled(s, e) && s' == Next(s, e) && e != Flush
    ensures Gapless(s'.sent, Oldest(s'))
  {
    RunOk(depth, es, n, s);
    GaplessStep(s, e, s');
  }

  // Main result: in a flush-free run what was sent is exactly the allocation order up to the oldest
  // instruction still in the buffer, followed by nothing but that one again.
  lemma {:induction false} CommitsAreAPrefix(depth: nat, es: seq<Event>, n: nat, s: State)
    requires n <= |es| && FlushFree(es, n) && Run(depth, es, n) == Some(s)
    ensures Gapless(s.sent, Oldest(s))
  {
    if n > 0 {
      var s0 := Run(depth, es, n - 1).value;
      CommitsAreAPrefix(depth, es, n - 1, s0);
      RunGaplessStep(depth, es, n - 1, s0, es[n - 1], s);
    }
  }
}
