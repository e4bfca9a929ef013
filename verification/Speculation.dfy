/**
  What speculation may not change: the committed registers are those of a machine that renames
  and commits one instruction at a time, so neither interleaving nor flushes show in them; and
  when renaming can stall for good.
 */
module Speculation {
  import opened Prelude
  import opened RenameCore
  import opened RenameMachine

  // One step of the in-order reference: rename an instruction and commit it at once.
  function RenameThenCommit(cfg: Config, o: Option<Regs>, i: Inst): (r: Option<Regs>)
    requires o.Some? ==> Shaped(cfg, o.value)
    ensures r.Some? ==> Shaped(cfg, r.value)
  {
    if o.None? || o.value.free == [] || !Encodable(cfg, i) then None
    else
      var r := RenameInst(cfg, o.value, i);
      var s := AfterRename(cfg, o.value, i);
      if r.pd != 0 && s.freeBackup == [] then None else Some(AfterCommit(s, r))
  }

  // The in-order reference on the first `u` instructions of a program; None if it gets stuck.
  function InOrder(cfg: Config, program: seq<Renamed>, u: nat): (r: Option<Regs>)
    requires ValidConfig(cfg) && u <= |program|
    ensures r.Some? ==> Shaped(cfg, r.value)
    decreases u
  {
    if u == 0 then Some(InitialRegs(cfg))
    else RenameThenCommit(cfg, InOrder(cfg, program, u - 1), program[u - 1].inst)
  }

  lemma {:induction false} InOrderPrefix(cfg: Config, a: seq<Renamed>, b: seq<Renamed>, u: nat)
    requires ValidConfig(cfg) && u <= |a| && u <= |b|
    requires forall k | 0 <= k < u :: a[k].inst == b[k].inst
    ensures InOrder(cfg, a, u) == InOrder(cfg, b, u)
  {
    if u > 0 {
      InOrderPrefix(cfg, a, b, u - 1);
      var i := a[u - 1].inst;
      assert InOrder(cfg, a, u) == RenameThenCommit(cfg, InOrder(cfg, a, u - 1), i);
      assert InOrder(cfg, b, u) == RenameThenCommit(cfg, InOrder(cfg, b, u - 1), i);
    }
  }

  // The committed pair, seen as a whole register state with nothing in flight.
  function Committed(s: Regs): Regs {
    AfterFlush(s)
  }

  // Committing the oldest in-flight instruction does to the committed pair what renaming and
  // committing it from scratch would do.
  lemma {:induction false} CommitIsInOrderStep(cfg: Config, s: Regs, all: seq<Renamed>, c: nat)
    requires Inv(cfg, s, all, c) && c < |all|
    ensures all[c].inst.rd < |s.backup| && (all[c].pd != 0 ==> s.freeBackup != [])
    ensures RenameThenCommit(cfg, Some(Committed(s)), all[c].inst) == Some(Committed(AfterCommit(s, all[c])))
  {
    OldestMatchesBackup(s, all, c);
    var f, r := Committed(s), all[c];
    assert f.free != [] && Encodable(cfg, r.inst);
    assert RenameInst(cfg, f, r.inst) == r;
    if r.inst.rd == 0 {
      assert s.backup[0 := 0] == s.backup;
    }
  }

  lemma {:induction false} CommittedUnmoved(cfg: Config, sem: Semantics, m: Machine, e: Event)
    requires WellFormed(cfg, m) && Enabled(cfg, m, e) && e != Commit
    ensures Committed(Next(cfg, sem, m, e).regs) == Committed(m.regs)
    ensures Next(cfg, sem, m, e).committed == m.committed
    ensures forall k | 0 <= k < m.committed :: Next(cfg, sem, m, e).all[k] == m.all[k]
  {
  }

  lemma {:induction false} InvisibleCommit(cfg: Config, s: Regs, all: seq<Renamed>, c: nat, s': Regs)
    requires Inv(cfg, s, all, c) && c < |all| && InOrder(cfg, all, c) == Some(Committed(s))
    requires all[c].inst.rd < |s.backup| && (all[c].pd != 0 ==> s.freeBackup != []) && s' == AfterCommit(s, all[c])
    ensures InOrder(cfg, all, c + 1) == Some(Committed(s'))
  {
    CommitIsInOrderStep(cfg, s, all, c);
  }

  lemma {:induction false} InvisibleStep(cfg: Config, sem: Semantics, m: Machine, e: Event, m': Machine)
    requires ValidConfig(cfg) && WellFormed(cfg, m) && RegsInv(cfg, m) && Enabled(cfg, m, e)
    requires m' == Next(cfg, sem, m, e)
    requires InOrder(cfg, m.all, m.committed) == Some(Committed(m.regs))
    ensures InOrder(cfg, m'.all, m'.committed) == Some(Committed(m'.regs))
  {
    if e == Commit {
      InvisibleCommit(cfg, m.regs, m.all, m.committed, m'.regs);
    } else {
      CommittedUnmoved(cfg, sem, m, e);
      assert m'.committed == m.committed && Committed(m'.regs) == Committed(m.regs);
      InOrderPrefix(cfg, m.all, m'.all, m.committed);
    }
  }

  // Main result: after every run, whatever was interleaved, speculated and flushed, the committed
  // map and free list (including its order) are those of the in-order machine on the committed
  // instructions alone.
  lemma {:induction false} SpeculationIsInvisible(cfg: Config, sem: Semantics, es: seq<Event>, m: Machine)
    requires ValidConfig(cfg) && Run(cfg, sem, es) == Some(m)
    ensures InOrder(cfg, m.all, m.committed) == Some(Committed(m.regs))
  {
    if es != [] {
      var es' := es[..|es| - 1];
      var m' := Run(cfg, sem, es').value;
      SpeculationIsInvisible(cfg, sem, es', m');
      RunRegs(cfg, sem, es');
      InvisibleStep(cfg, sem, m', es[|es| - 1], m);
    }
  }

  // Right after a flush the whole register state is the in-order one.
  lemma {:induction false} FlushRestoresInOrder(cfg: Config, sem: Semantics, es: seq<Event>, m: Machine)
    requires ValidConfig(cfg) && Run(cfg, sem, es) == Some(m)
    ensures var m' := Next(cfg, sem, m, Flush);
            InOrder(cfg, m'.all, |m'.all|) == Some(m'.regs)
  {
    SpeculationIsInvisible(cfg, sem, es, m);
    InOrderPrefix(cfg, m.all, m.all[..m.committed], m.committed);
  }

  // Two runs that committed the same instructions hold the same physical assignment and the same
  // free list, in the same order, however differently they got there and whatever they computed.
  lemma {:induction false} AssignmentIgnoresHistory(cfg: Config, sem1: Semantics, es1: seq<Event>, m1: Machine,
                                 sem2: Semantics, es2: seq<Event>, m2: Machine)
    requires ValidConfig(cfg) && Run(cfg, sem1, es1) == Some(m1) && Run(cfg, sem2, es2) == Some(m2)
    requires m1.committed == m2.committed
    requires forall k | 0 <= k < m1.committed :: m1.all[k].inst == m2.all[k].inst
    ensures m1.regs.backup == m2.regs.backup && m1.regs.freeBackup == m2.regs.freeBackup
  {
    SpeculationIsInvisible(cfg, sem1, es1, m1);
    SpeculationIsInvisible(cfg, sem2, es2, m2);
    InOrderPrefix(cfg, m1.all, m2.all, m1.committed);
  }

  /* ---------- resending a commit ---------- */

  // The reorder buffer does not pop a mispredicted head, so until the flush arrives its commit group
  // is sent again. `once` and `twice` are the register state after the first and the second commit.

  // The second commit finds a register to take off the committed list.
  predicate CommitsAgain(s: Regs, r: Renamed)
    requires r.inst.rd < |s.backup| && (r.pd != 0 ==> s.freeBackup != [])
  {
    r.pd != 0 ==> AfterCommit(s, r).freeBackup != []
  }

  // The second commit is possible, and the flush that follows wipes out its traces.
  predicate HarmlessAgain(s: Regs, r: Renamed)
    requires r.inst.rd < |s.backup| && (r.pd != 0 ==> s.freeBackup != [])
  {
    && CommitsAgain(s, r)
    && var once := AfterCommit(s, r);
       AfterFlush(AfterCommit(once, r)) == AfterFlush(once)
  }

  // Exactly when resending is harmless: the instruction has no destination, or its own register was
  // the only one on the committed list and the commit puts back another. Otherwise a mispredicted
  // jump that links corrupts the committed list for good. Even in the second case the speculative
  // list holds the released register twice, on which an occupancy assertion fires.
  lemma {:induction false} ResentCommitHarmlessIff(cfg: Config, s: Regs, all: seq<Renamed>, c: nat)
    requires Inv(cfg, s, all, c) && c < |all|
    ensures all[c].inst.rd < |s.backup| && (all[c].pd != 0 ==> s.freeBackup != [])
    ensures HarmlessAgain(s, all[c]) <==> all[c].inst.rd == 0 || (|s.freeBackup| == 1 && all[c].lpd != 0)
    ensures all[c].lpd != 0 ==> all[c].lpd in AfterCommit(s, all[c]).free
  {
    OldestMatchesBackup(s, all, c);
    if all[c].inst.rd == 0 {
      assert s.backup[0 := 0] == s.backup;
    } else {
      ReleasedIsNew(cfg.phyRegs, s, all[c]);
      CommitTwice(s, all[c]);
    }
  }

  lemma {:induction false} CommitTwice(s: Regs, r: Renamed)
    requires s.freeBackup != [] && r.pd != 0 && r.inst.rd < |s.backup| && r.lpd !in s.freeBackup
    ensures HarmlessAgain(s, r) <==> |s.freeBackup| == 1 && r.lpd != 0
  {
    var once := AfterCommit(s, r);
    assert once.backup[r.inst.rd := r.pd] == once.backup;
    if r.lpd != 0 {
      ShiftChanges(s.freeBackup[1..], r.lpd);
    }
  }

  lemma {:induction false} ShiftChanges(rest: seq<nat>, x: nat)
    requires x !in rest
    ensures (rest + [x])[1..] + [x] == rest + [x] <==> rest == []
  {
    var once := rest + [x];
    if rest != [] {
      assert (once[1..] + [x])[|rest| - 1] == x && once[|rest| - 1] == rest[|rest| - 1];
    }
  }

  lemma {:induction false} ReleasedIsNew(phyRegs: nat, s: Regs, r: Renamed)
    requires Conserved(phyRegs, s.backup, s.freeBackup) && RenamedUnder(s.backup, r)
    ensures r.lpd !in s.freeBackup
  {
    assert r.lpd in s.backup;
    assert r.lpd != 0 ==> Held(s.backup, s.freeBackup, r.lpd) <= 1;
  }

  // Two instructions that write x1, executed; the first is still to be committed.
  function Writers(sem: Semantics): (m: Machine) {
    var i := Inst(0, 0, 0, 0, 1);
    var r0, r1 := Renamed(i, 0, 0, 1, 0), Renamed(i, 0, 0, 2, 1);
    Machine(Regs([0, 2], [0, 0], [], [1, 2]), [r0, r1], [true, true], 0, [0, sem(0, 0, 0), sem(0, 0, 0)])
  }

  // A run in which resending the head corrupts the committed list, and its continuation in which
  // resending the next one, which also has a destination, is harmless.
  lemma {:induction false} ResentCommitReachable(sem: Semantics) returns (es: seq<Event>)
    ensures var cfg := Config(2, 3);
            var m := Writers(sem);
            && Run(cfg, sem, es) == Some(m) && Run(cfg, sem, es + [Commit]).Some?
            && !HarmlessAgain(m.regs, m.all[0])
            && HarmlessAgain(Run(cfg, sem, es + [Commit]).value.regs, m.all[1])
  {
    var cfg, i := Config(2, 3), Inst(0, 0, 0, 0, 1);
    var m0 := Initial(cfg);
    assert m0.regs == Regs([0, 0], [0, 0], [1, 2], [1, 2]) && m0.prf == [0, 0, 0];
    RunSnoc(cfg, sem, [], Rename(i));
    var m1 := Next(cfg, sem, m0, Rename(i));
    RunSnoc(cfg, sem, [Rename(i)], Rename(i));
    var m2 := Next(cfg, sem, m1, Rename(i));
    var m3 := Next(cfg, sem, m2, Execute(0));
    RunSnoc(cfg, sem, [Rename(i)] + [Rename(i)], Execute(0));
    RunSnoc(cfg, sem, [Rename(i)] + [Rename(i)] + [Execute(0)], Execute(1));
    es := [Rename(i)] + [Rename(i)] + [Execute(0)] + [Execute(1)];
    assert Next(cfg, sem, m3, Execute(1)) == Writers(sem);
    RunSnoc(cfg, sem, es, Commit);
    RunRegs(cfg, sem, es);
    RunRegs(cfg, sem, es + [Commit]);
    ResentCommitHarmlessIff(cfg, Writers(sem).regs, Writers(sem).all, 0);
    var m5 := Next(cfg, sem, Writers(sem), Commit);
    ResentCommitHarmlessIff(cfg, m5.regs, m5.all, 1);
  }

  /* ---------- renaming cannot wedge ---------- */

  lemma {:induction false} CommittedListIsLong(cfg: Config, s: Regs, all: seq<Renamed>, c: nat)
    requires Inv(cfg, s, all, c)
    ensures |s.freeBackup| >= cfg.phyRegs - cfg.isaRegs
  {
    assert s.backup[0] in multiset(s.backup);
  }

  // With more physical than architectural registers, an empty speculative free list means that
  // some in-flight instruction claims a register.
  lemma {:induction false} EmptyListHasWriter(cfg: Config, s: Regs, all: seq<Renamed>, c: nat)
    requires Inv(cfg, s, all, c) && cfg.phyRegs > cfg.isaRegs && s.free == []
    ensures exists u :: c <= u < |all| && all[u].pd != 0
  {
    CommittedListIsLong(cfg, s, all, c);
    DestsHasWriter(all, c);
  }

  lemma {:induction false} DestsHasWriter(all: seq<Renamed>, c: nat)
    requires Dests(all, c) != []
    ensures exists u :: c <= u < |all| && all[u].pd != 0
    decreases |all| - c
  {
    if all[c].pd == 0 {
      DestsHasWriter(all, c + 1);
    }
  }

  // Nothing is in flight and there is still no register to rename with: renaming is stuck for good.
  predicate Wedged(m: Machine) {
    m.committed == |m.all| && m.regs.free == []
  }

  ghost predicate NeverWedges(cfg: Config, sem: Semantics)
    requires ValidConfig(cfg)
  {
    forall es :: Run(cfg, sem, es).Some? ==> !Wedged(Run(cfg, sem, es).value)
  }

  // Writes each of x1..xk once, finishing each before the next.
  function FillEvents(k: nat): seq<Event> {
    if k == 0 then [] else FillEvents(k - 1) + [Rename(Inst(0, 0, 0, 0, k)), Execute(k - 1), Commit]
  }

  predicate Filled(cfg: Config, m: Machine, k: nat)
    requires ValidConfig(cfg) && k < cfg.phyRegs
  {
    && WellFormed(cfg, m)
    && m.committed == |m.all| == k
    && m.regs.free == InitialFree(cfg)[k..] == m.regs.freeBackup
    && (forall x | k < x < cfg.isaRegs :: m.regs.table[x] == 0 && m.regs.backup[x] == 0)
    && m.regs.table[0] == 0
  }

  lemma {:induction false} FillStep(cfg: Config, sem: Semantics, es: seq<Event>, k: nat)
    requires ValidConfig(cfg) && 1 <= k < cfg.phyRegs && k < cfg.isaRegs
    requires Run(cfg, sem, es).Some? && Filled(cfg, Run(cfg, sem, es).value, k - 1)
    ensures var es' := es + [Rename(Inst(0, 0, 0, 0, k)), Execute(k - 1), Commit];
            Run(cfg, sem, es').Some? && Filled(cfg, Run(cfg, sem, es').value, k)
  {
    var i := Inst(0, 0, 0, 0, k);
    var m0 := Run(cfg, sem, es).value;
    RunSnoc(cfg, sem, es, Rename(i));
    var m1 := Next(cfg, sem, m0, Rename(i));
    assert m1.all[k - 1] == Renamed(i, 0, 0, k, 0);
    RunSnoc(cfg, sem, es + [Rename(i)], Execute(k - 1));
    var m2 := Next(cfg, sem, m1, Execute(k - 1));
    RunSnoc(cfg, sem, es + [Rename(i)] + [Execute(k - 1)], Commit);
    assert es + [Rename(i)] + [Execute(k - 1)] + [Commit] == es + [Rename(i), Execute(k - 1), Commit];
  }

  lemma {:induction false} FillRuns(cfg: Config, sem: Semantics, k: nat)
    requires ValidConfig(cfg) && k < cfg.phyRegs && k < cfg.isaRegs
    ensures Run(cfg, sem, FillEvents(k)).Some? && Filled(cfg, Run(cfg, sem, FillEvents(k)).value, k)
  {
    if k > 0 {
      FillRuns(cfg, sem, k - 1);
      FillStep(cfg, sem, FillEvents(k - 1), k);
    }
  }

  // Main result: renaming can never get stuck with nothing in flight, in any run, if and only if
  // there are more physical than architectural registers.
  lemma {:induction false} NeverWedgesIff(cfg: Config, sem: Semantics)
    requires ValidConfig(cfg)
    ensures NeverWedges(cfg, sem) <==> cfg.phyRegs > cfg.isaRegs
  {
    if cfg.phyRegs > cfg.isaRegs {
      forall es | Run(cfg, sem, es).Some? ensures !Wedged(Run(cfg, sem, es).value) {
        var m := Run(cfg, sem, es).value;
        RunRegs(cfg, sem, es);
        CommittedListIsLong(cfg, m.regs, m.all, m.committed);
      }
    } else {
      FillRuns(cfg, sem, cfg.phyRegs - 1);
      assert Wedged(Run(cfg, sem, FillEvents(cfg.phyRegs - 1)).value);
    }
  }
}
