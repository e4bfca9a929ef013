/**
  The reorder buffer of the pipeline model is the ring with its tags, seen as a plain sequence of
  instruction numbers and finish flags.
 */
module RobRefines {
  import opened Prelude
  import opened RobUnit
  import opened RobRun
  import P = Pipeline

  // The buffer as the pipeline model sees it: a plain sequence of instruction numbers and flags.
  function View(es: seq<Entry>): (v: seq<P.RobEntry>)
    ensures |v| == |es|
    ensures forall i | 0 <= i < |es| :: v[i] == P.RobEntry(es[i].inst.uid, es[i].finish)
  {
    seq(|es|, i requires 0 <= i < |es| => P.RobEntry(es[i].inst.uid, es[i].finish))
  }

  // Marking through the tag of an instruction in the buffer is marking by instruction number: the
  // ring with its tags refines the sequence the pipeline model uses.
  lemma {:induction false} FinishRefines(s: State, u: nat)
    requires Window(s) && Enabled(s, Finish(u)) && Oldest(s) <= u
    ensures View(AfterFinish(s, u).entries) == P.MarkFinish(View(s.entries), u)
  {
    assert Occupies(s, Oldest(s), u - Oldest(s));
    forall i | 0 <= i < |s.entries|
      ensures View(AfterFinish(s, u).entries)[i] == P.MarkFinish(View(s.entries), u)[i]
    {
      assert Occupies(s, Oldest(s), i);
    }
  }

  // The buffer of the pipeline model after `n` steps of one kind, or None if one was not possible.
  function RepeatRob(r: P.Rob, re: P.RobEvent, n: nat): Option<P.Rob> {
    if n == 0 then Some(r)
    else
      var o := RepeatRob(r, re, n - 1);
      if o.None? || !P.RobEnabled(o.value, re) then None else Some(P.RobNext(o.value, re))
  }

  predicate Numbers(group: seq<RobInst>, us: seq<nat>) {
    |us| == |group| && forall i | 0 <= i < |us| :: us[i] == group[i].uid
  }

  lemma {:induction false} ViewSnoc(es: seq<Entry>, x: RobInst)
    ensures View(es + [Fresh(x)]) == View(es) + [P.RobEntry(x.uid, false)]
  {
  }

  // Allocating a group is as many arrivals at the buffer of the pipeline model.
  lemma {:induction false} AllocateRefines(es: seq<Entry>, group: seq<RobInst>, r: P.Rob, n: nat)
    requires r.entries == View(es) && Numbers(group, r.arriving) && n <= |group|
    ensures RepeatRob(r, P.RobArrive, n) ==
            Some(r.(entries := View(es + FreshEntries(group, n)), arriving := r.arriving[n..]))
  {
    if n > 0 {
      AllocateRefines(es, group, r, n - 1);
      ViewSnoc(es + FreshEntries(group, n - 1), group[n - 1]);
      assert es + FreshEntries(group, n) == es + FreshEntries(group, n - 1) + [Fresh(group[n - 1])];
      assert r.arriving[n - 1..][1..] == r.arriving[n..];
    } else {
      assert es + FreshEntries(group, 0) == es && r.arriving[0..] == r.arriving;
    }
  }

  predicate TagsOf(s: State, us: seq<nat>, tags: seq<nat>) {
    && |tags| == |us|
    && forall i | 0 <= i < |us| :: Oldest(s) <= us[i] < |s.all| && us[i] < |s.tags| && tags[i] == s.tags[us[i]]
  }

  lemma {:induction false} MarksOf(s: State, us: seq<nat>, tags: seq<nat>, n: nat)
    requires Window(s) && TagsOf(s, us, tags) && n <= |us|
    ensures var es := MarkTags(s.entries, s.depth, s.head, tags, n);
            Window(s.(entries := es)) && Oldest(s.(entries := es)) == Oldest(s)
  {
    if n > 0 {
      MarksOf(s, us, tags, n - 1);
      FinishKeepsWindow(s.(entries := MarkTags(s.entries, s.depth, s.head, tags, n - 1)), us[n - 1]);
    }
    var es := MarkTags(s.entries, s.depth, s.head, tags, n);
    forall i | 0 <= i < |es| ensures Occupies(s.(entries := es), Oldest(s), i) {
      assert Occupies(s, Oldest(s), i);
      MarkKeepsInst(s.entries, s.depth, s.head, tags, n, i);
    }
  }

  lemma {:induction false} MarkKeepsInst(es: seq<Entry>, depth: nat, head: nat, tags: seq<nat>, n: nat, i: nat)
    requires n <= |tags| && i < |es|
    ensures MarkTags(es, depth, head, tags, n)[i].inst == es[i].inst
  {
    if n > 0 {
      MarkKeepsInst(es, depth, head, tags, n - 1, i);
    }
  }

  // Marking a group of results through their tags is as many results at the buffer of the pipeline
  // model, which goes by instruction number.
  lemma {:induction false} FinishGroupRefines(s: State, us: seq<nat>, tags: seq<nat>, r: P.Rob, n: nat)
    requires Window(s) && TagsOf(s, us, tags) && n <= |us| && r.entries == View(s.entries) && r.cast == us
    ensures RepeatRob(r, P.RobCast, n) ==
            Some(r.(entries := View(MarkTags(s.entries, s.depth, s.head, tags, n)), cast := us[n..]))
  {
    if n > 0 {
      FinishGroupRefines(s, us, tags, r, n - 1);
      MarksOf(s, us, tags, n - 1);
      var s0 := s.(entries := MarkTags(s.entries, s.depth, s.head, tags, n - 1));
      FinishRefines(s0, us[n - 1]);
      assert us[n - 1..][1..] == us[n..];
    } else {
      assert us[0..] == us;
    }
  }

  lemma {:induction false} RetireMany(r: P.Rob, n: nat)
    requires n <= |r.entries| && forall j | 0 <= j < n :: r.entries[j].finish
    ensures RepeatRob(r, P.Retire, n).Some?
    ensures var r' := RepeatRob(r, P.Retire, n).value;
            && r' == r.(entries := r.entries[n..], retiring := r'.retiring, msg := r.msg + n)
            && |r'.retiring| == |r.retiring| + n
            && (forall j | 0 <= j < |r.retiring| :: r'.retiring[j] == r.retiring[j])
            && (forall j | 0 <= j < n :: r'.retiring[|r.retiring| + j] == r.entries[j].uid)
  {
    if n > 0 {
      RetireMany(r, n - 1);
      assert r.entries[n - 1..][1..] == r.entries[n..];
    } else {
      assert r.entries[0..] == r.entries;
    }
  }

  // One commit is as many single retirements of the pipeline model as entries leave.
  lemma {:induction false} CommitRefines(s: State, w: nat, r: P.Rob)
    requires r.entries == View(s.entries)
    ensures var k := PopCount(s.entries, w);
            && RepeatRob(r, P.Retire, k).Some?
            && RepeatRob(r, P.Retire, k).value.entries == View(AfterCommit(s, w).entries)
  {
    StopIs(s.entries, w, 0);
    forall j | 0 <= j < PopCount(s.entries, w) ensures r.entries[j].finish {
      assert Retirable(s.entries[j]);
    }
    RetireMany(r, PopCount(s.entries, w));
  }
}
