/**
  The renaming stage as the objects it is made of: free list with its occupancy counters, the
  two renaming tables, and the stage that drives them. Each method is proved against the value
  functions of RenameCore.
 */
module RenameUnit {
  import opened Prelude
  import opened FuncTypes
  import opened RenameCore
  import opened RenameMachine

  class Freelist {
    const depth: nat
    var free: seq<nat>
    var backup: seq<nat>
    var count: seq<nat>
    var countBackup: seq<nat>

    // The occupancy counters are the multiplicities of the two lists.
    ghost predicate Valid()
      reads this
    {
      && depth >= 1
      && Counts(depth, free, count)
      && Counts(depth, backup, countBackup)
    }

    constructor (depth: nat)
      requires depth >= 1
      ensures Valid() && this.depth == depth
      ensures free == backup == InitialFree(Config(1, depth))
    {
      this.depth := depth;
      free, backup := [], [];
      count, countBackup := seq(depth, _ => 0), seq(depth, _ => 0);
      new;
      for i := 1 to depth
        invariant Valid()
        invariant free == backup == InitialFree(Config(1, i))
      {
        CountsSnoc(depth, free, count, i);
        CountsSnoc(depth, backup, countBackup, i);
        free, backup := free + [i], backup + [i];
        count, countBackup := count[i := count[i] + 1], countBackup[i := countBackup[i] + 1];
      }
    }

    method IsEmpty() returns (r: bool)
      requires Valid()
      ensures r <==> free == []
    {
      r := |free| == 0;
    }

    // `ok` is the verdict of the two occupancy assertions.
    method Push(token: nat) returns (ok: bool)
      requires Valid() && token < depth
      modifies this
      ensures Valid() && free == old(free) + [token] && backup == old(backup) + [token]
      ensures ok <==> token !in old(free) && token !in old(backup)
    {
      CountsSnoc(depth, free, count, token);
      CountsSnoc(depth, backup, countBackup, token);
      assert CountOf(free, count, token) && CountOf(backup, countBackup, token);
      free := free + [token];
      backup := backup + [token];
      count := count[token := count[token] + 1];
      countBackup := countBackup[token := countBackup[token] + 1];
      ok := count[token] <= 1 && countBackup[token] <= 1;
    }

    method Pop()
      requires Valid() && free != []
      modifies this
      ensures Valid() && free == old(free)[1..] && backup == old(backup)
    {
      CountsTail(depth, free, count);
      count := count[free[0] := count[free[0]] - 1];
      free := free[1..];
    }

    method BackupPop()
      requires Valid() && backup != []
      modifies this
      ensures Valid() && backup == old(backup)[1..] && free == old(free)
    {
      CountsTail(depth, backup, countBackup);
      countBackup := countBackup[backup[0] := countBackup[backup[0]] - 1];
      backup := backup[1..];
    }

    method Front() returns (token: nat)
      requires Valid() && free != []
      ensures token == free[0]
    {
      token := free[0];
    }

    method RollBack()
      requires Valid()
      modifies this
      ensures Valid() && free == backup == old(backup)
    {
      free := backup;
      count := countBackup;
    }
  }

  ghost predicate CountOf(list: seq<nat>, count: seq<nat>, t: nat)
    requires t < |count|
  {
    count[t] == multiset(list)[t]
  }

  ghost predicate Counts(depth: nat, list: seq<nat>, count: seq<nat>) {
    && |count| == depth
    && (forall k | 0 <= k < |list| :: list[k] < depth)
    && (forall t | 0 <= t < depth :: CountOf(list, count, t))
  }

  lemma {:induction false} CountsSnoc(depth: nat, list: seq<nat>, count: seq<nat>, x: nat)
    requires Counts(depth, list, count) && x < depth
    ensures Counts(depth, list + [x], count[x := count[x] + 1])
  {
    var count' := count[x := count[x] + 1];
    forall t | 0 <= t < depth ensures CountOf(list + [x], count', t) {
      assert CountOf(list, count, t);
    }
  }

  // The counter of the head is positive, so taking it off never wraps below zero.
  lemma {:induction false} CountsTail(depth: nat, list: seq<nat>, count: seq<nat>)
    requires Counts(depth, list, count) && list != []
    ensures count[list[0]] >= 1
    ensures Counts(depth, list[1..], count[list[0] := count[list[0]] - 1])
  {
    assert CountOf(list, count, list[0]);
    assert list == [list[0]] + list[1..];
    var rest, count' := list[1..], count[list[0] := count[list[0]] - 1];
    forall t | 0 <= t < depth ensures CountOf(rest, count', t) {
      assert CountOf(list, count, t);
    }
  }

  class RenamingTable {
    const cur: array<nat>
    const backup: array<nat>

    ghost predicate Valid() {
      cur != backup && cur.Length == backup.Length
    }

    constructor (isaRegs: nat)
      ensures Valid() && fresh(cur) && fresh(backup)
      ensures cur[..] == backup[..] == seq(isaRegs, _ => 0)
    {
      cur := new nat[isaRegs](_ => 0);
      backup := new nat[isaRegs](_ => 0);
    }

    method RollBack()
      requires Valid()
      modifies cur
      ensures cur[..] == backup[..]
    {
      for i := 0 to cur.Length
        invariant cur[..i] == backup[..i]
      {
        cur[i] := backup[i];
      }
    }
  }

  /* ---------- groups of instructions ---------- */

  // The register state and the renamed group after the first `n` instructions of `q`; None if
  // the free list runs out before that.
  function RenameGroup(cfg: Config, s: Regs, q: seq<Inst>, n: nat): (r: Option<(Regs, seq<Renamed>)>)
    requires Shaped(cfg, s) && n <= |q|
    ensures r.Some? ==> Shaped(cfg, r.value.0) && |r.value.1| == n
  {
    if n == 0 then Some((s, []))
    else
      var r := RenameGroup(cfg, s, q, n - 1);
      if r.None? || r.value.0.free == [] || !Encodable(cfg, q[n - 1]) then None
      else Some((AfterRename(cfg, r.value.0, q[n - 1]), r.value.1 + [RenameInst(cfg, r.value.0, q[n - 1])]))
  }

  // The register state after committing the first `n` instructions of a group.
  function CommitGroup(s: Regs, group: seq<Renamed>, n: nat): Option<Regs>
    requires n <= |group|
  {
    if n == 0 then Some(s)
    else
      var r := CommitGroup(s, group, n - 1);
      if || r.None? || group[n - 1].inst.rd >= |r.value.backup|
         || (group[n - 1].pd != 0 && r.value.freeBackup == [])
      then None
      else Some(AfterCommit(r.value, group[n - 1]))
  }

  function RenameEvents(q: seq<Inst>, n: nat): seq<Event>
    requires n <= |q|
  {
    if n == 0 then [] else RenameEvents(q, n - 1) + [Rename(q[n - 1])]
  }

  function WithGroup(m: Machine, s: Regs, group: seq<Renamed>, n: nat): Machine {
    m.(regs := s, all := m.all + group, done := m.done + seq(n, _ => false))
  }

  lemma {:induction false} RenamedOneMore(cfg: Config, sem: Semantics, m: Machine, s: Regs, group: seq<Renamed>,
                                          n: nat, i: Inst)
    requires WellFormed(cfg, WithGroup(m, s, group, n)) && Enabled(cfg, WithGroup(m, s, group, n), Rename(i))
    ensures Next(cfg, sem, WithGroup(m, s, group, n), Rename(i))
         == WithGroup(m, AfterRename(cfg, s, i), group + [RenameInst(cfg, s, i)], n + 1)
  {
    var r := RenameInst(cfg, s, i);
    assert m.all + group + [r] == m.all + (group + [r]);
    assert m.done + seq(n, _ => false) + [false] == m.done + seq(n + 1, _ => false);
  }

  // A renamed group is a run of rename steps of the machine, in queue order.
  lemma {:induction false} RenameGroupRuns(cfg: Config, sem: Semantics, es: seq<Event>, m: Machine, q: seq<Inst>,
                                           n: nat)
    requires ValidConfig(cfg) && Run(cfg, sem, es) == Some(m) && n <= |q|
    requires RenameGroup(cfg, m.regs, q, n).Some?
    ensures var (s, group) := RenameGroup(cfg, m.regs, q, n).value;
            Run(cfg, sem, es + RenameEvents(q, n)) == Some(WithGroup(m, s, group, n))
  {
    if n == 0 {
      assert es + [] == es && m.all + [] == m.all && m.done + seq(0, _ => false) == m.done;
    } else {
      RenameGroupRuns(cfg, sem, es, m, q, n - 1);
      var es' := es + RenameEvents(q, n - 1);
      assert es + RenameEvents(q, n) == es' + [Rename(q[n - 1])];
      RunSnoc(cfg, sem, es', Rename(q[n - 1]));
      var (s, group) := RenameGroup(cfg, m.regs, q, n - 1).value;
      RenamedOneMore(cfg, sem, m, s, group, n - 1, q[n - 1]);
    }
  }

  // The first `n` instructions of `group` are the in-flight ones from position `c` on.
  predicate InWindow(all: seq<Renamed>, c: nat, group: seq<Renamed>, n: nat) {
    n <= |group| && c + n <= |all| && forall i | 0 <= i < n :: group[i] == all[c + i]
  }

  // Committing the first `n` of `group` is possible and leaves the invariant with `c + n` committed.
  ghost predicate GroupInv(cfg: Config, s: Regs, all: seq<Renamed>, c: nat, group: seq<Renamed>, n: nat) {
    n <= |group| && CommitGroup(s, group, n).Some? && Inv(cfg, CommitGroup(s, group, n).value, all, c + n)
  }

  // Committing the oldest in-flight instructions one by one is never stuck and keeps the invariant.
  lemma {:induction false} CommitGroupKeepsInv(cfg: Config, s: Regs, all: seq<Renamed>, c: nat, group: seq<Renamed>,
                                               n: nat)
    requires GroupInv(cfg, s, all, c, group, 0) && InWindow(all, c, group, n)
    ensures GroupInv(cfg, s, all, c, group, n)
  {
    if n > 0 {
      var k: nat := n - 1;
      CommitGroupKeepsInv(cfg, s, all, c, group, k);
      CommitGroupStep(cfg, s, all, c, group, k, n);
    }
  }

  lemma {:induction false} CommitGroupStep(cfg: Config, s: Regs, all: seq<Renamed>, c: nat, group: seq<Renamed>,
                                           k: nat, n: nat)
    requires n == k + 1 && InWindow(all, c, group, n) && GroupInv(cfg, s, all, c, group, k)
    ensures CommittableAt(cfg, s, group, k) && GroupInv(cfg, s, all, c, group, n)
  {
    NextIsCommittable(cfg, s, all, c, group, k);
    CommitNext(cfg, s, all, c + k, group, k, n, CommitGroup(s, group, k).value, c + n);
  }

  lemma {:induction false} NextIsCommittable(cfg: Config, s: Regs, all: seq<Renamed>, c: nat, group: seq<Renamed>,
                                             k: nat)
    requires InWindow(all, c, group, k + 1) && GroupInv(cfg, s, all, c, group, k)
    ensures CommittableAt(cfg, s, group, k)
  {
    OldestIsCommittable(cfg, CommitGroup(s, group, k).value, all, c + k);
  }

  lemma {:induction false} CommitNext(cfg: Config, s: Regs, all: seq<Renamed>, c: nat, group: seq<Renamed>, k: nat,
                                      n: nat, before: Regs, c': nat)
    requires n == k + 1 <= |group| && c' == c + 1 && c < |all| && group[k] == all[c]
    requires CommitGroup(s, group, k) == Some(before) && Inv(cfg, before, all, c) && Committable(cfg, before, group[k])
    ensures CommitGroup(s, group, n).Some? && Inv(cfg, CommitGroup(s, group, n).value, all, c')
  {
    CommitGroupUnfold(cfg, s, group, n, before);
    CommitStepKeepsInv(cfg, before, CommitGroup(s, group, n).value, all, c, c');
  }

  lemma {:induction false} CommitGroupUnfold(cfg: Config, s: Regs, group: seq<Renamed>, n: nat, before: Regs)
    requires 0 < n <= |group| && CommitGroup(s, group, n - 1) == Some(before)
    requires Committable(cfg, before, group[n - 1])
    ensures CommitGroup(s, group, n) == Some(AfterCommit(before, group[n - 1]))
  {
  }

  lemma {:induction false} CommitStepKeepsInv(cfg: Config, s: Regs, s': Regs, all: seq<Renamed>, c: nat, c': nat)
    requires Inv(cfg, s, all, c) && c < |all| && Committable(cfg, s, all[c])
    requires s' == AfterCommit(s, all[c]) && c' == c + 1
    ensures Inv(cfg, s', all, c')
  {
    CommitKeepsInv(cfg, s, all, c);
  }

  lemma {:induction false} OldestIsCommittable(cfg: Config, s: Regs, all: seq<Renamed>, c: nat)
    requires Inv(cfg, s, all, c) && c < |all|
    ensures Committable(cfg, s, all[c])
  {
    CommitKeepsInv(cfg, s, all, c);
    if all[c].lpd != 0 {
      ReleasedIsNotFree(cfg, s, all, c);
    }
  }

  // Commit finds its own destination to take off the committed list, and gives back a register
  // that is on neither list.
  predicate Committable(cfg: Config, s: Regs, r: Renamed) {
    && r.inst.rd < |s.backup|
    && (r.pd != 0 ==> s.freeBackup != [])
    && (r.lpd != 0 ==> r.lpd < cfg.phyRegs && r.lpd !in s.free && r.lpd !in s.freeBackup)
  }

  predicate CommittableAt(cfg: Config, s: Regs, group: seq<Renamed>, k: nat)
    requires k < |group|
  {
    CommitGroup(s, group, k).Some? && Committable(cfg, CommitGroup(s, group, k).value, group[k])
  }

  predicate GroupCommittable(cfg: Config, s: Regs, group: seq<Renamed>) {
    forall k | 0 <= k < |group| :: CommittableAt(cfg, s, group, k)
  }

  // A group of the oldest in-flight instructions, in program order, is always committable.
  lemma {:induction false} OldestGroupCommittable(cfg: Config, s: Regs, all: seq<Renamed>, c: nat, group: seq<Renamed>)
    requires Inv(cfg, s, all, c) && InWindow(all, c, group, |group|)
    ensures GroupCommittable(cfg, s, group)
  {
    assert GroupInv(cfg, s, all, c, group, 0);
    forall k | 0 <= k < |group| ensures CommittableAt(cfg, s, group, k) {
      CommitGroupKeepsInv(cfg, s, all, c, group, k);
      CommitGroupStep(cfg, s, all, c, group, k, k + 1);
    }
  }

  // What a commit gives back is on neither free list: the occupancy assertions cannot fire.
  lemma {:induction false} ReleasedIsNotFree(cfg: Config, s: Regs, all: seq<Renamed>, c: nat)
    requires Inv(cfg, s, all, c) && c < |all| && all[c].lpd != 0
    ensures all[c].lpd < cfg.phyRegs
    ensures all[c].lpd !in s.free && all[c].lpd !in s.freeBackup
  {
    OldestMatchesBackup(s, all, c);
    assert all[c].lpd in s.backup;
    assert Held(s.backup, s.freeBackup, all[c].lpd) >= 1;
    AtMostOneRole(cfg, s, all, c, all[c].lpd);
  }

  /* ---------- the stage ---------- */

  class RenamingStage {
    const cfg: Config
    const issueWidth: nat
    const queueDepth: nat
    const perfectLsu: bool
    const freeList: Freelist
    const table: RenamingTable
    var queue: seq<Inst>
    var dispatchCredit: nat
    var robCredit: nat
    var ldqCredit: nat
    var stqCredit: nat

    ghost predicate Valid()
      reads this, freeList, table.cur, table.backup
    {
      && ValidConfig(cfg)
      && freeList.Valid() && freeList.depth == cfg.phyRegs
      && table.Valid() && table.cur.Length == cfg.isaRegs
      && (forall k | 0 <= k < |queue| :: Encodable(cfg, queue[k]))
    }

    ghost function Contents(): (s: Regs)
      reads freeList, table.cur, table.backup
    {
      Regs(table.cur[..], table.backup[..], freeList.free, freeList.backup)
    }

    constructor (cfg: Config, issueWidth: nat, queueDepth: nat, perfectLsu: bool)
      requires ValidConfig(cfg)
      ensures Valid() && Contents() == InitialRegs(cfg) && queue == []
      ensures fresh(freeList) && fresh(table) && fresh(table.cur) && fresh(table.backup)
      ensures this.cfg == cfg && dispatchCredit == robCredit == ldqCredit == stqCredit == 0
    {
      this.cfg, this.issueWidth, this.queueDepth, this.perfectLsu := cfg, issueWidth, queueDepth, perfectLsu;
      freeList := new Freelist(cfg.phyRegs);
      table := new RenamingTable(cfg.isaRegs);
      queue := [];
      dispatchCredit, robCredit, ldqCredit, stqCredit := 0, 0, 0, 0;
    }

    method RenameInst(i: Inst) returns (r: Renamed)
      requires Valid() && Encodable(cfg, i) && freeList.free != []
      modifies freeList, table.cur
      ensures Valid()
      ensures r == RenameCore.RenameInst(cfg, old(Contents()), i)
      ensures Contents() == AfterRename(cfg, old(Contents()), i)
    {
      var p1, p2, lpd := table.cur[i.rs1], table.cur[i.rs2], table.cur[i.rd];
      var front := freeList.Front();
      if i.rd != 0 {
        table.cur[i.rd] := front;
        freeList.Pop();
        r := Renamed(i, p1, p2, front, lpd);
      } else {
        r := Renamed(i, p1, p2, 0, lpd);
      }
    }

    // The budget of one cycle: credits of the receivers and the issue width.
    function Budget(): (n: nat)
      reads this
      ensures n <= dispatchCredit && n <= robCredit && n <= issueWidth
      ensures !perfectLsu ==> n <= ldqCredit && n <= stqCredit
      ensures || n == dispatchCredit || n == robCredit || n == issueWidth
              || (!perfectLsu && (n == ldqCredit || n == stqCredit))
    {
      var n := Min(dispatchCredit, robCredit);
      var n' := if perfectLsu then n else Min(Min(n, ldqCredit), stqCredit);
      Min(n', issueWidth)
    }

    // Renames from the head of the queue, and stops only where the queue or the free list is empty or
    // one of the limits is used up; the queue credits are limits only without a perfect LSU. So
    // something is renamed whenever there is something to rename and no limit is zero.
    method Rename() returns (group: seq<Renamed>)
      requires Valid()
      modifies this, freeList, table.cur
      ensures Valid()
      ensures |group| <= |old(queue)| && |group| <= issueWidth
      ensures !perfectLsu ==> |group| <= old(ldqCredit) && |group| <= old(stqCredit)
      ensures || queue == [] || freeList.free == []
              || |group| == old(dispatchCredit) || |group| == old(robCredit) || |group| == issueWidth
              || (!perfectLsu && (|group| == old(ldqCredit) || |group| == old(stqCredit)))
      ensures old(queue) != [] && old(freeList.free) != [] && issueWidth > 0
              && old(dispatchCredit) > 0 && old(robCredit) > 0
              && (perfectLsu || (old(ldqCredit) > 0 && old(stqCredit) > 0)) ==>
                group != []
      ensures RenameGroup(cfg, old(Contents()), old(queue), |group|) == Some((Contents(), group))
      ensures queue == old(queue)[|group|..]
      ensures dispatchCredit == old(dispatchCredit) - |group| && robCredit == old(robCredit) - |group|
      ensures perfectLsu ==> ldqCredit == old(ldqCredit) && stqCredit == old(stqCredit)
      ensures !perfectLsu ==>
                && ldqCredit == old(ldqCredit) - CountType(group, LDU)
                && stqCredit == old(stqCredit) - CountType(group, STU)
    {
      group := [];
      var n: nat := Budget();
      ghost var s0, q0, n0 := Contents(), queue, n;
      while n > 0
        invariant Valid()
        invariant |group| + n == n0 && |group| <= |q0| && queue == q0[|group|..]
        invariant RenameGroup(cfg, s0, q0, |group|) == Some((Contents(), group))
        invariant dispatchCredit == old(dispatchCredit) - |group| && robCredit == old(robCredit) - |group|
        invariant n <= dispatchCredit && n <= robCredit
        invariant perfectLsu ==> ldqCredit == old(ldqCredit) && stqCredit == old(stqCredit)
        invariant !perfectLsu ==> n <= ldqCredit && ldqCredit == old(ldqCredit) - CountType(group, LDU)
        invariant !perfectLsu ==> n <= stqCredit && stqCredit == old(stqCredit) - CountType(group, STU)
        decreases n
      {
        var empty := freeList.IsEmpty();
        if |queue| == 0 || empty {
          break;
        }
        var i := queue[0];
        assert i == q0[|group|];
        var r := RenameInst(i);
        assert q0[|group|..][1..] == q0[|group| + 1..];
        group := group + [r];
        queue := queue[1..];
        n := n - 1;
        PayCredits(i);
      }
    }

    method PayCredits(i: Inst)
      requires dispatchCredit > 0 && robCredit > 0
      requires !perfectLsu ==> (i.fu == STU ==> stqCredit > 0) && (i.fu == LDU ==> ldqCredit > 0)
      modifies this`dispatchCredit, this`robCredit, this`ldqCredit, this`stqCredit
      ensures dispatchCredit == old(dispatchCredit) - 1 && robCredit == old(robCredit) - 1
      ensures stqCredit == old(stqCredit) - if i.fu == STU && !perfectLsu then 1 else 0
      ensures ldqCredit == old(ldqCredit) - if i.fu == LDU && !perfectLsu then 1 else 0
    {
      dispatchCredit, robCredit := dispatchCredit - 1, robCredit - 1;
      if i.fu == STU && !perfectLsu {
        stqCredit := stqCredit - 1;
      } else if i.fu == LDU && !perfectLsu {
        ldqCredit := ldqCredit - 1;
      }
    }

    // Commits a group; `ok` is the verdict of all occupancy assertions. The caller sends the
    // oldest in-flight instructions in order, which is what makes each of them committable.
    method RobCommit(group: seq<Renamed>) returns (ok: bool)
      requires Valid() && GroupCommittable(cfg, Contents(), group)
      modifies freeList, table.backup
      ensures Valid() && ok
      ensures CommitGroup(old(Contents()), group, |group|) == Some(Contents())
    {
      ok := true;
      ghost var s0 := Contents();
      for k := 0 to |group|
        invariant Valid() && ok
        invariant CommitGroup(s0, group, k) == Some(Contents())
      {
        assert CommittableAt(cfg, s0, group, k);
        var passed := CommitOne(group[k]);
        ok := ok && passed;
      }
    }

    method CommitOne(r: Renamed) returns (ok: bool)
      requires Valid() && Committable(cfg, Contents(), r)
      modifies freeList, table.backup
      ensures Valid() && ok
      ensures Contents() == AfterCommit(old(Contents()), r)
    {
      ok := true;
      if r.pd != 0 {
        freeList.BackupPop();
      }
      if r.lpd != 0 {
        ok := freeList.Push(r.lpd);
      }
      table.backup[r.inst.rd] := r.pd;
    }

    method HandleFlush() returns (credit: nat)
      requires Valid()
      modifies this, freeList, table.cur
      ensures Valid() && Contents() == AfterFlush(old(Contents()))
      ensures queue == [] && dispatchCredit == robCredit == ldqCredit == stqCredit == 0
      ensures credit == queueDepth
    {
      dispatchCredit, robCredit, ldqCredit, stqCredit := 0, 0, 0, 0;
      credit := queueDepth;
      queue := [];
      freeList.RollBack();
      table.RollBack();
    }
  }

  function CountType(group: seq<Renamed>, fu: nat): nat {
    if group == [] then 0
    else CountType(group[..|group| - 1], fu) + if group[|group| - 1].inst.fu == fu then 1 else 0
  }

}
