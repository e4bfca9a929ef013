/**
  The reorder buffer object makes the steps of the reorder-buffer machine: what every run of the
  machine guarantees holds of the object.
 */
module RobSteps {
  import opened Prelude
  import opened LoopQueues
  import opened RobUnit
  import opened RobRun

  // The object's part of a state of the machine.
  ghost predicate Matches(r: Rob, s: State)
    reads r, r.rob, r.rob.dataList
  {
    r.Valid() && r.rob.depth == s.depth && r.rob.head == s.head && r.rob.Items() == s.entries
  }

  // The machine after the first `n` of `es` from `s`, or None if one of them was not possible.
  function RunFrom(s: State, es: seq<Event>, n: nat): Option<State>
    requires n <= |es|
  {
    if n == 0 then Some(s)
    else
      var r := RunFrom(s, es, n - 1);
      if r.None? || !Enabled(r.value, es[n - 1]) then None else Some(Next(r.value, es[n - 1]))
  }

  lemma {:induction false} RunOneMore(depth: nat, es: seq<Event>, k: nat, s: State, e: Event, s': State)
    requires 0 < k <= |es| && es[k - 1] == e && Run(depth, es, k - 1) == Some(s) && Enabled(s, e) && s' == Next(s, e)
    ensures Run(depth, es, k) == Some(s')
  {
  }

  lemma {:induction false} LastStep(s: State, es: seq<Event>, n: nat, s': State) returns (s0: State)
    requires 0 < n <= |es| && RunFrom(s, es, n) == Some(s')
    ensures RunFrom(s, es, n - 1) == Some(s0) && Enabled(s0, es[n - 1]) && s' == Next(s0, es[n - 1])
  {
    s0 := RunFrom(s, es, n - 1).value;
  }

  predicate EndsWith(long: seq<Event>, m: nat, more: seq<Event>) {
    m + |more| <= |long| && forall i | m <= i < m + |more| :: long[i] == more[i - m]
  }

  lemma {:induction false} EndAt(long: seq<Event>, m: nat, more: seq<Event>, n: nat, k: nat)
    requires EndsWith(long, m, more) && 0 < n <= |more| && k == m + n
    ensures k <= |long| && long[k - 1] == more[n - 1]
  {
  }

  lemma {:induction false} RunSuffix(depth: nat, long: seq<Event>, m: nat, s: State, more: seq<Event>, n: nat, k: nat,
                                     s': State)
    requires EndsWith(long, m, more) && Run(depth, long, m) == Some(s)
    requires n <= |more| && k == m + n && RunFrom(s, more, n) == Some(s')
    ensures k <= |long| && Run(depth, long, k) == Some(s')
  {
    if n > 0 {
      var s0 := LastStep(s, more, n, s');
      RunSuffix(depth, long, m, s, more, n - 1, k - 1, s0);
      EndAt(long, m, more, n, k);
      RunOneMore(depth, long, k, s0, more[n - 1], s');
    }
  }

  // A continuation of a run in this sense is a run.
  lemma {:induction false} RunContinues(depth: nat, es: seq<Event>, s: State, more: seq<Event>, n: nat, s': State)
    requires Run(depth, es, |es|) == Some(s) && n <= |more| && RunFrom(s, more, n) == Some(s')
    ensures Run(depth, es + more, |es| + n) == Some(s')
  {
    RunPrefix(depth, es, more, |es|);
    RunSuffix(depth, es + more, |es|, s, more, n, |es| + n, s');
  }

  lemma {:induction false} RunPrefix(depth: nat, es: seq<Event>, more: seq<Event>, n: nat)
    requires n <= |es|
    ensures Run(depth, es + more, n) == Run(depth, es, n)
  {
    if n > 0 {
      RunPrefix(depth, es, more, n - 1);
      assert (es + more)[n - 1] == es[n - 1];
    }
  }

  /* ---------- allocation ---------- */

  // The group carries the numbers that come next.
  predicate Numbered(group: seq<RobInst>, from: nat) {
    forall i | 0 <= i < |group| :: group[i].uid == from + i
  }

  function Allocations(group: seq<RobInst>): (es: seq<Event>)
    ensures |es| == |group|
    ensures forall i | 0 <= i < |group| :: es[i] == Allocate(group[i].fu, group[i].missed)
  {
    seq(|group|, i requires 0 <= i < |group| => Allocate(group[i].fu, group[i].missed))
  }

  function Unmarked(n: nat): seq<bool> {
    if n == 0 then [] else Unmarked(n - 1) + [false]
  }

  function Slots(s: State, n: nat): (tags: seq<nat>)
    ensures |tags| == n
    ensures forall i | 0 <= i < n :: tags[i] == Slot(s.depth, s.head, |s.entries| + i)
  {
    if n == 0 then [] else Slots(s, n - 1) + [Slot(s.depth, s.head, |s.entries| + n - 1)]
  }

  function Allocated(s: State, group: seq<RobInst>, n: nat): State
    requires n <= |group|
  {
    s.(entries := s.entries + FreshEntries(group, n), all := s.all + group[..n],
       tags := s.tags + Slots(s, n), done := s.done + Unmarked(n))
  }

  lemma {:induction false} AllocatedNext(s: State, group: seq<RobInst>, n: nat)
    requires n < |group|
    ensures AfterAllocate(Allocated(s, group, n), group[n]) == Allocated(s, group, n + 1)
  {
    assert s.entries + FreshEntries(group, n) + [Fresh(group[n])] == s.entries + FreshEntries(group, n + 1);
    assert s.all + group[..n] + [group[n]] == s.all + group[..n + 1];
    var tag := Slot(s.depth, s.head, |s.entries| + n);
    assert s.tags + Slots(s, n) + [tag] == s.tags + Slots(s, n + 1);
    assert s.done + Unmarked(n) + [false] == s.done + Unmarked(n + 1);
  }

  lemma {:induction false} AllocationStep(s: State, group: seq<RobInst>, n: nat)
    requires n < |group| && |s.entries| + |group| <= s.depth && Numbered(group, |s.all|)
    ensures var e := Allocate(group[n].fu, group[n].missed);
            Enabled(Allocated(s, group, n), e) && Next(Allocated(s, group, n), e) == Allocated(s, group, n + 1)
  {
    assert group[n] == RobInst(|s.all| + n, group[n].fu, group[n].missed);
    AllocatedNext(s, group, n);
  }

  lemma {:induction false} AllocationRuns(s: State, group: seq<RobInst>, n: nat)
    requires n <= |group| && |s.entries| + |group| <= s.depth && Numbered(group, |s.all|)
    ensures RunFrom(s, Allocations(group), n) == Some(Allocated(s, group, n))
  {
    if n == 0 {
      assert Allocated(s, group, 0) == s by {
        assert s.entries + [] == s.entries && s.all + [] == s.all && s.tags + [] == s.tags && s.done + [] == s.done;
      }
    } else {
      AllocationRuns(s, group, n - 1);
      AllocationStep(s, group, n - 1);
    }
  }

  // Allocating a group is as many allocations of the machine, and the tags are the machine's.
  method AllocateSteps(r: Rob, group: seq<RobInst>, ghost s: State) returns (tags: seq<nat>, ghost s': State)
    requires Matches(r, s) && |s.entries| + |group| <= s.depth && Numbered(group, |s.all|)
    modifies r.rob, r.rob.dataList
    ensures Matches(r, s') && RunFrom(s, Allocations(group), |group|) == Some(s')
    ensures s'.tags == s.tags + tags
  {
    tags := r.AllocateRob(group);
    s' := Allocated(s, group, |group|);
    AllocationRuns(s, group, |group|);
    assert tags == Slots(s, |group|);
  }

  /* ---------- results ---------- */

  // Every tag ever handed out is a slot of the ring.
  predicate TagsOk(s: State) {
    |s.tags| == |s.all| == |s.done| && forall u | 0 <= u < |s.tags| :: s.tags[u] < s.depth
  }

  lemma {:induction false} TagsStep(s: State, e: Event)
    requires TagsOk(s) && Window(s) && Enabled(s, e)
    ensures TagsOk(Next(s, e))
  {
    if e.Allocate? {
      assert Slot(s.depth, s.head, |s.entries|) < s.depth;
    }
  }

  lemma {:induction false} RunTags(depth: nat, es: seq<Event>, n: nat, s: State)
    requires n <= |es| && Run(depth, es, n) == Some(s)
    ensures TagsOk(s)
  {
    if n > 0 {
      var s0 := Run(depth, es, n - 1).value;
      RunTags(depth, es, n - 1, s0);
      RunOk(depth, es, n - 1, s0);
      TagsStep(s0, es[n - 1]);
    }
  }

  function Finishes(us: seq<nat>): (es: seq<Event>)
    ensures |es| == |us|
    ensures forall i | 0 <= i < |us| :: es[i] == Finish(us[i])
  {
    seq(|us|, i requires 0 <= i < |us| => Finish(us[i]))
  }

  // `tags` are those the instructions `us` were given.
  predicate TagsFor(s: State, us: seq<nat>, tags: seq<nat>) {
    |tags| == |us| && forall i | 0 <= i < |us| :: us[i] < |s.tags| && tags[i] == s.tags[us[i]]
  }

  lemma {:induction false} ResultsRun(s: State, us: seq<nat>, tags: seq<nat>, n: nat) returns (s': State)
    requires n <= |us| && TagsFor(s, us, tags) && TagsOk(s)
    ensures RunFrom(s, Finishes(us), n) == Some(s') && TagsOk(s')
    ensures s' == s.(entries := MarkTags(s.entries, s.depth, s.head, tags, n), done := s'.done)
  {
    if n == 0 {
      s' := s;
    } else {
      var s0 := ResultsRun(s, us, tags, n - 1);
      s' := AfterFinish(s0, us[n - 1]);
    }
  }

  // Marking a group through its tags is as many results of the machine, late ones included.
  method FinishSteps(r: Rob, us: seq<nat>, tags: seq<nat>, ghost s: State) returns (ghost s': State)
    requires Matches(r, s) && TagsOk(s) && TagsFor(s, us, tags)
    modifies r.rob.dataList
    ensures Matches(r, s') && RunFrom(s, Finishes(us), |us|) == Some(s')
  {
    r.Finish(tags);
    s' := ResultsRun(s, us, tags, |us|);
  }

  /* ---------- commit and flush ---------- */

  lemma {:induction false} SentNumbers(s: State, n: nat)
    requires Window(s) && n <= |s.entries|
    ensures forall i | 0 <= i < n :: Insts(s.entries, n)[i].uid == Oldest(s) + i
  {
    if n > 0 {
      SentNumbers(s, n - 1);
      assert Occupies(s, Oldest(s), n - 1);
    }
  }

  lemma {:induction false} WokenNumber(s: State, w: nat)
    requires Window(s)
    ensures var rest := s.entries[PopCount(s.entries, w)..];
            WakesStore(rest) ==> Next(s, Commit(w)).woken == s.woken + [rest[0].inst.uid]
    ensures !WakesStore(s.entries[PopCount(s.entries, w)..]) ==> Next(s, Commit(w)).woken == s.woken
  {
    var k := PopCount(s.entries, w);
    if k < |s.entries| {
      assert Occupies(s, Oldest(s), k);
    }
  }

  // One commit is the commit of the machine, and what is sent is what the machine records as sent.
  method CommitStep(r: Rob, ghost s: State)
    returns (group: seq<RobInst>, branches: seq<RobInst>, wake: Option<RobInst>, credit: nat,
             flush: bool, stopped: bool, ok: bool)
    requires Matches(r, s) && Window(s)
    modifies r, r.rob, r.rob.dataList
    ensures Matches(r, Next(s, Commit(r.issueWidth)))
    ensures var sent := Next(s, Commit(r.issueWidth)).sent;
            |sent| == |s.sent| + |group| && forall i | 0 <= i < |group| :: group[i].uid == sent[|s.sent| + i]
    ensures Next(s, Commit(r.issueWidth)).woken == s.woken + if wake.Some? then [wake.value.uid] else []
  {
    SentNumbers(s, SentCount(s.entries, r.issueWidth));
    WokenNumber(s, r.issueWidth);
    group, branches, wake, credit, flush, stopped, ok := r.Commit();
  }

  method FlushStep(r: Rob, ghost s: State) returns (credit: nat)
    requires Matches(r, s)
    modifies r.rob
    ensures Matches(r, Next(s, Flush)) && credit == s.depth
  {
    credit := r.HandleFlush();
  }
}
