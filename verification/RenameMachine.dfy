/**
  The rename / execute / commit / flush machine, its runs, and what every run guarantees:
  physical registers are never reused early, renamed execution computes what sequential
  execution computes, and speculation leaves no trace in the committed state.
 */
module RenameMachine {
  import opened Prelude
  import opened RenameCore

  // What an operation computes from its two operands. The function units of the source
  // compute nothing, so every claim below holds for all semantics.
  type Semantics = (nat, int, int) -> int

  // `all` lists every renamed instruction that has not been flushed, in program order;
  // the first `committed` of them have been committed and the rest are in flight.
  datatype Machine = Machine(regs: Regs, all: seq<Renamed>, done: seq<bool>, committed: nat, prf: seq<int>)

  datatype Event = Rename(inst: Inst) | Execute(uid: nat) | Commit | Flush

  predicate WellFormed(cfg: Config, m: Machine) {
    && m.committed <= |m.all| == |m.done|
    && |m.prf| == cfg.phyRegs
    && Shaped(cfg, m.regs)
  }

  function Initial(cfg: Config): Machine
    requires ValidConfig(cfg)
  {
    Machine(InitialRegs(cfg), [], [], 0, seq(cfg.phyRegs, _ => 0))
  }

  // The register file answers 0 for register 0 without looking.
  function Read(prf: seq<int>, p: nat): int {
    if 0 < p < |prf| then prf[p] else 0
  }

  // All older instructions that write physical register `p` have executed.
  predicate Settled(all: seq<Renamed>, done: seq<bool>, uid: nat, p: nat)
    requires uid <= |all| == |done|
  {
    p != 0 ==> forall q | 0 <= q < uid && all[q].pd == p :: done[q]
  }

  predicate SourcesSettled(all: seq<Renamed>, done: seq<bool>, uid: nat)
    requires uid < |all| == |done|
  {
    Settled(all, done, uid, all[uid].p1) && Settled(all, done, uid, all[uid].p2)
  }

  predicate Enabled(cfg: Config, m: Machine, e: Event)
    requires WellFormed(cfg, m)
  {
    match e
    case Rename(i) => Encodable(cfg, i) && m.regs.free != []
    case Execute(u) => m.committed <= u < |m.all| && !m.done[u] && SourcesSettled(m.all, m.done, u)
    case Commit =>
      && m.committed < |m.all| && m.done[m.committed]
      && m.all[m.committed].inst.rd < cfg.isaRegs
      && (m.all[m.committed].pd != 0 ==> m.regs.freeBackup != [])
    case Flush => true
  }

  function Output(sem: Semantics, prf: seq<int>, r: Renamed): int {
    sem(r.inst.op, Read(prf, r.p1), Read(prf, r.p2))
  }

  function AfterExecute(sem: Semantics, m: Machine, u: nat): Machine
    requires u < |m.all| == |m.done|
  {
    var r := m.all[u];
    m.(done := m.done[u := true],
       prf := if 0 < r.pd < |m.prf| then m.prf[r.pd := Output(sem, m.prf, r)] else m.prf)
  }

  function Next(cfg: Config, sem: Semantics, m: Machine, e: Event): (m': Machine)
    requires WellFormed(cfg, m) && Enabled(cfg, m, e)
    ensures WellFormed(cfg, m')
  {
    match e
    case Rename(i) =>
      m.(regs := AfterRename(cfg, m.regs, i), all := m.all + [RenameInst(cfg, m.regs, i)], done := m.done + [false])
    case Execute(u) => AfterExecute(sem, m, u)
    case Commit =>
      m.(regs := AfterCommit(m.regs, m.all[m.committed]), committed := m.committed + 1)
    case Flush =>
      m.(regs := AfterFlush(m.regs), all := m.all[..m.committed], done := m.done[..m.committed])
  }

  // The state after a sequence of events, or None if one of them was not possible.
  function Run(cfg: Config, sem: Semantics, es: seq<Event>): (r: Option<Machine>)
    requires ValidConfig(cfg)
    ensures r.Some? ==> WellFormed(cfg, r.value)
  {
    if es == [] then Some(Initial(cfg))
    else
      match Run(cfg, sem, es[..|es| - 1])
      case None => None
      case Some(m) =>
        if Enabled(cfg, m, es[|es| - 1]) then Some(Next(cfg, sem, m, es[|es| - 1])) else None
  }

  lemma {:induction false} RunSnoc(cfg: Config, sem: Semantics, es: seq<Event>, e: Event)
    requires ValidConfig(cfg) && Run(cfg, sem, es).Some? && Enabled(cfg, Run(cfg, sem, es).value, e)
    ensures Run(cfg, sem, es + [e]) == Some(Next(cfg, sem, Run(cfg, sem, es).value, e))
  {
    assert (es + [e])[..|es|] == es;
  }

  /* ---------- sequential reference ---------- */

  function IsaStep(sem: Semantics, regs: seq<int>, i: Inst): (regs': seq<int>)
    ensures |regs'| == |regs|
  {
    if 0 < i.rd < |regs| then regs[i.rd := IsaResult(sem, regs, i)] else regs
  }

  function IsaResult(sem: Semantics, regs: seq<int>, i: Inst): int {
    if i.rs1 < |regs| && i.rs2 < |regs| then sem(i.op, regs[i.rs1], regs[i.rs2]) else 0
  }

  // Architectural registers after running the first `u` instructions of a program one at a time.
  function Isa(sem: Semantics, n: nat, program: seq<Renamed>, u: nat): (regs: seq<int>)
    requires u <= |program|
    ensures |regs| == n
    ensures n > 0 ==> regs[0] == 0
  {
    if u == 0 then seq(n, _ => 0)
    else IsaStep(sem, Isa(sem, n, program, u - 1), program[u - 1].inst)
  }

  lemma {:induction false} IsaPrefix(sem: Semantics, n: nat, a: seq<Renamed>, b: seq<Renamed>, u: nat)
    requires u <= |a| && u <= |b| && forall k | 0 <= k < u :: a[k] == b[k]
    ensures Isa(sem, n, a, u) == Isa(sem, n, b, u)
  {
    if u > 0 {
      IsaPrefix(sem, n, a, b, u - 1);
    }
  }

  /* ---------- the invariant of every run ---------- */

  // Reading register `x` through `backup` gives what the first `c` instructions leave in it.
  predicate RegisterDenotes(sem: Semantics, prf: seq<int>, backup: seq<nat>, all: seq<Renamed>, c: nat, x: nat)
    requires c <= |all| && x < |backup|
  {
    Read(prf, backup[x]) == Isa(sem, |backup|, all, c)[x]
  }

  predicate CommittedDenotes(sem: Semantics, prf: seq<int>, backup: seq<nat>, all: seq<Renamed>, c: nat)
    requires c <= |all|
  {
    forall x | 0 <= x < |backup| :: RegisterDenotes(sem, prf, backup, all, c, x)
  }

  // If instruction `u` has executed, its destination holds its sequential result.
  predicate ResultDenotes(sem: Semantics, n: nat, prf: seq<int>, all: seq<Renamed>, done: seq<bool>, u: nat)
    requires u < |all| == |done|
  {
    done[u] && all[u].pd != 0 ==>
      Read(prf, all[u].pd) == IsaResult(sem, Isa(sem, n, all, u), all[u].inst)
  }

  predicate ExecutedDenotes(sem: Semantics, n: nat, prf: seq<int>, all: seq<Renamed>, done: seq<bool>, c: nat)
    requires |all| == |done|
  {
    forall u | c <= u < |all| :: ResultDenotes(sem, n, prf, all, done, u)
  }

  predicate ValuesInv(sem: Semantics, backup: seq<nat>, m: Machine)
    requires m.committed <= |m.all| == |m.done|
  {
    && CommittedDenotes(sem, m.prf, backup, m.all, m.committed)
    && ExecutedDenotes(sem, |backup|, m.prf, m.all, m.done, m.committed)
  }

  // Committed instructions have executed, and the values are right.
  predicate Denotes(cfg: Config, sem: Semantics, m: Machine)
    requires WellFormed(cfg, m)
  {
    && (forall u | 0 <= u < m.committed :: m.done[u])
    && ValuesInv(sem, m.regs.backup, m)
  }

  ghost predicate RegsInv(cfg: Config, m: Machine) {
    Inv(cfg, m.regs, m.all, m.committed)
  }

  /* ---------- no early reuse ---------- */

  lemma {:induction false} CountConcat(a: seq<nat>, b: seq<nat>, p: nat)
    ensures multiset(a + b)[p] == multiset(a)[p] + multiset(b)[p]
  {
  }

  lemma {:induction false} DestsTwice(all: seq<Renamed>, c: nat, j: nat, k: nat)
    requires c <= j < k < |all| && all[j].pd == all[k].pd != 0
    ensures multiset(Dests(all, c))[all[j].pd] >= 2
    decreases |all| - c
  {
    CountConcat(Claimed(all[c]), Dests(all, c + 1), all[j].pd);
    if j == c {
      DestsMember(all, c + 1, k);
    } else {
      DestsTwice(all, c + 1, j, k);
    }
  }

  lemma {:induction false} AtMostOneRole(cfg: Config, s: Regs, all: seq<Renamed>, c: nat, p: nat)
    requires Inv(cfg, s, all, c) && p != 0
    ensures multiset(Dests(all, c))[p] + multiset(s.free)[p] + multiset(s.backup)[p] <= 1
    ensures p in Dests(all, c) ==> p < cfg.phyRegs
  {
    assert Held(s.backup, s.freeBackup, p) <= 1;
    assert multiset(s.freeBackup) == multiset(Dests(all, c)) + multiset(s.free);
  }

  // Two in-flight instructions never share a destination.
  lemma {:induction false} ClaimsDistinct(cfg: Config, s: Regs, all: seq<Renamed>, c: nat, j: nat, k: nat)
    requires Inv(cfg, s, all, c) && c <= j < |all| && c <= k < |all| && j != k
    ensures all[j].pd == all[k].pd ==> all[j].pd == 0
  {
    if all[j].pd == all[k].pd != 0 {
      AtMostOneRole(cfg, s, all, c, all[j].pd);
      DestsTwice(all, c, if j < k then j else k, if j < k then k else j);
    }
  }

  // An in-flight destination is neither free nor a committed mapping.
  lemma {:induction false} ClaimIsExclusive(cfg: Config, s: Regs, all: seq<Renamed>, c: nat, j: nat)
    requires Inv(cfg, s, all, c) && c <= j < |all| && all[j].pd != 0
    ensures all[j].pd < cfg.phyRegs
    ensures all[j].pd !in s.free && all[j].pd !in s.backup
  {
    AtMostOneRole(cfg, s, all, c, all[j].pd);
    DestsMember(all, c, j);
  }

  lemma {:induction false} CommittedIsExclusive(cfg: Config, s: Regs, all: seq<Renamed>, c: nat, x: nat, j: nat)
    requires Inv(cfg, s, all, c) && x < cfg.isaRegs && s.backup[x] != 0 && c <= j < |all|
    ensures s.backup[x] !in s.free && all[j].pd != s.backup[x]
  {
    AtMostOneRole(cfg, s, all, c, s.backup[x]);
    if all[j].pd == s.backup[x] {
      DestsMember(all, c, j);
    }
  }

  // A register visible in the map an in-flight instruction was renamed under is not free and
  // is not claimed by that instruction or any younger one.
  lemma {:induction false} VisibleIsLive(cfg: Config, s: Regs, all: seq<Renamed>, c: nat, u: nat, x: nat, j: nat)
    requires Inv(cfg, s, all, c) && c <= u <= j < |all| && x < cfg.isaRegs
    requires MapAt(s.backup, all, c, u)[x] != 0
    ensures MapAt(s.backup, all, c, u)[x] !in s.free && all[j].pd != MapAt(s.backup, all, c, u)[x]
  {
    var p := MapAt(s.backup, all, c, u)[x];
    MapAtOrigin(s.backup, all, c, u, x);
    if p == s.backup[x] {
      CommittedIsExclusive(cfg, s, all, c, x, j);
    } else {
      var i :| c <= i < u && all[i].inst.rd == x && all[i].pd == p;
      ClaimIsExclusive(cfg, s, all, c, i);
      ClaimsDistinct(cfg, s, all, c, i, j);
    }
  }

  // Register `p` is neither free nor the destination of instruction `j`.
  predicate Untouched(s: Regs, all: seq<Renamed>, j: nat, p: nat)
    requires j < |all|
  {
    p != 0 ==> p !in s.free && all[j].pd != p
  }

  // No early reuse: the sources and the replaced mapping of an in-flight instruction are not on
  // the free list and are not the destination of it or of anything younger; and that mapping is
  // the committed map overlaid with all older in-flight writes.
  lemma {:induction false} NoEarlyReuse(cfg: Config, s: Regs, all: seq<Renamed>, c: nat, u: nat, j: nat)
    requires Inv(cfg, s, all, c) && c <= u <= j < |all|
    ensures RenamedUnder(MapAt(s.backup, all, c, u), all[u])
    ensures Untouched(s, all, j, all[u].p1) && Untouched(s, all, j, all[u].p2) && Untouched(s, all, j, all[u].lpd)
  {
    assert RenamedAt(s.backup, all, c, u);
    if all[u].p1 != 0 { VisibleIsLive(cfg, s, all, c, u, all[u].inst.rs1, j); }
    if all[u].p2 != 0 { VisibleIsLive(cfg, s, all, c, u, all[u].inst.rs2, j); }
    if all[u].lpd != 0 { VisibleIsLive(cfg, s, all, c, u, all[u].inst.rd, j); }
  }

  /* ---------- renaming preserves meaning ---------- */

  // A register of the map in force at instruction `u` holds its sequential value as soon as the
  // in-flight writers of that register are done.
  lemma {:induction false} MapDenotes(sem: Semantics, backup: seq<nat>, m: Machine, u: nat, x: nat)
    requires m.committed <= u <= |m.all| == |m.done| && x < |backup|
    requires ValuesInv(sem, backup, m) && Chained(backup, m.all, m.committed)
    requires Settled(m.all, m.done, u, MapAt(backup, m.all, m.committed, u)[x])
    ensures Read(m.prf, MapAt(backup, m.all, m.committed, u)[x]) == Isa(sem, |backup|, m.all, u)[x]
    decreases u
  {
    if u == m.committed {
      assert RegisterDenotes(sem, m.prf, backup, m.all, u, x);
    } else {
      var r := m.all[u - 1];
      assert RenamedAt(backup, m.all, m.committed, u - 1);
      assert ResultDenotes(sem, |backup|, m.prf, m.all, m.done, u - 1);
      if r.inst.rd != x {
        MapDenotes(sem, backup, m, u - 1, x);
      }
    }
  }

  // The values an instruction reads through its physical sources are the values sequential
  // execution gives its architectural sources.
  lemma {:induction false} SourcesDenote(sem: Semantics, backup: seq<nat>, m: Machine, u: nat)
    requires m.committed <= u < |m.all| == |m.done|
    requires ValuesInv(sem, backup, m) && Chained(backup, m.all, m.committed)
    requires SourcesSettled(m.all, m.done, u)
    ensures Output(sem, m.prf, m.all[u]) == IsaResult(sem, Isa(sem, |backup|, m.all, u), m.all[u].inst)
  {
    assert RenamedAt(backup, m.all, m.committed, u);
    MapDenotes(sem, backup, m, u, m.all[u].inst.rs1);
    MapDenotes(sem, backup, m, u, m.all[u].inst.rs2);
  }

  lemma {:induction false} RenameKeepsValues(sem: Semantics, backup: seq<nat>, m: Machine, m': Machine)
    requires m.committed <= |m.all| == |m.done| == |m'.done| - 1 == |m'.all| - 1
    requires ValuesInv(sem, backup, m)
    requires m.all < m'.all && m'.done == m.done + [false] && m'.committed == m.committed && m'.prf == m.prf
    ensures ValuesInv(sem, backup, m')
  {
    forall x | 0 <= x < |backup| ensures RegisterDenotes(sem, m.prf, backup, m'.all, m.committed, x) {
      assert RegisterDenotes(sem, m.prf, backup, m.all, m.committed, x);
      IsaPrefix(sem, |backup|, m.all, m'.all, m.committed);
    }
    forall u | m.committed <= u < |m.all| ensures ResultDenotes(sem, |backup|, m.prf, m'.all, m'.done, u) {
      assert ResultDenotes(sem, |backup|, m.prf, m.all, m.done, u);
      IsaPrefix(sem, |backup|, m.all, m'.all, u);
    }
  }

  // Writing a destination that nobody else maps or claims changes no other denotation.
  lemma {:induction false} ExecuteKeepsValues(sem: Semantics, backup: seq<nat>, m: Machine, u: nat)
    requires m.committed <= u < |m.all| == |m.done|
    requires ValuesInv(sem, backup, m)
    requires Output(sem, m.prf, m.all[u]) == IsaResult(sem, Isa(sem, |backup|, m.all, u), m.all[u].inst)
    requires m.all[u].pd != 0 ==> m.all[u].pd < |m.prf| && m.all[u].pd !in backup
    requires forall v | m.committed <= v < |m.all| && v != u :: m.all[v].pd == m.all[u].pd ==> m.all[u].pd == 0
    ensures ValuesInv(sem, backup, AfterExecute(sem, m, u))
  {
    var m' := AfterExecute(sem, m, u);
    forall x | 0 <= x < |backup| ensures RegisterDenotes(sem, m'.prf, backup, m.all, m.committed, x) {
      assert RegisterDenotes(sem, m.prf, backup, m.all, m.committed, x);
    }
    forall v | m.committed <= v < |m.all| ensures ResultDenotes(sem, |backup|, m'.prf, m.all, m'.done, v) {
      assert ResultDenotes(sem, |backup|, m.prf, m.all, m.done, v);
    }
  }

  lemma {:induction false} ExecuteStep(cfg: Config, sem: Semantics, m: Machine, u: nat)
    requires WellFormed(cfg, m) && RegsInv(cfg, m) && Denotes(cfg, sem, m) && Enabled(cfg, m, Execute(u))
    ensures Denotes(cfg, sem, Next(cfg, sem, m, Execute(u)))
  {
    var c := m.committed;
    SourcesDenote(sem, m.regs.backup, m, u);
    if m.all[u].pd != 0 {
      ClaimIsExclusive(cfg, m.regs, m.all, c, u);
    }
    forall v | c <= v < |m.all| && v != u ensures m.all[v].pd == m.all[u].pd ==> m.all[u].pd == 0 {
      ClaimsDistinct(cfg, m.regs, m.all, c, v, u);
    }
    ExecuteKeepsValues(sem, m.regs.backup, m, u);
  }

  lemma {:induction false} CommitKeepsValues(sem: Semantics, backup: seq<nat>, m: Machine, m': Machine)
    requires m.committed < |m.all| == |m.done| && m.done[m.committed]
    requires ValuesInv(sem, backup, m) && Chained(backup, m.all, m.committed)
    requires forall u | 0 <= u < m.committed :: m.done[u]
    requires m' == m.(committed := m.committed + 1, regs := m'.regs)
    requires m'.regs.backup == Write(backup, m.all[m.committed])
    ensures ValuesInv(sem, m'.regs.backup, m')
    ensures forall u | 0 <= u < m'.committed :: m'.done[u]
  {
    var c := m.committed;
    var backup', c' := Write(backup, m.all[c]), c + 1;
    assert MapAt(backup, m.all, c, c') == backup';
    forall x | 0 <= x < |backup| ensures RegisterDenotes(sem, m.prf, backup', m.all, c', x) {
      MapDenotes(sem, backup, m, c', x);
    }
  }

  lemma {:induction false} FlushKeepsValues(sem: Semantics, backup: seq<nat>, m: Machine, m': Machine)
    requires m.committed <= |m.all| == |m.done| && ValuesInv(sem, backup, m)
    requires m'.all == m.all[..m.committed] && m'.done == m.done[..m.committed]
    requires m'.committed == m.committed && m'.prf == m.prf
    ensures ValuesInv(sem, backup, m')
  {
    IsaPrefix(sem, |backup|, m.all, m'.all, m.committed);
    forall x | 0 <= x < |backup| ensures RegisterDenotes(sem, m.prf, backup, m'.all, m.committed, x) {
      assert RegisterDenotes(sem, m.prf, backup, m.all, m.committed, x);
    }
  }

  lemma {:induction false} CommitStep(cfg: Config, sem: Semantics, m: Machine)
    requires WellFormed(cfg, m) && RegsInv(cfg, m) && Enabled(cfg, m, Commit)
    ensures RegsInv(cfg, Next(cfg, sem, m, Commit))
  {
    CommitKeepsInv(cfg, m.regs, m.all, m.committed);
  }

  lemma {:induction false} RegsStep(cfg: Config, sem: Semantics, m: Machine, e: Event)
    requires WellFormed(cfg, m) && RegsInv(cfg, m) && Enabled(cfg, m, e)
    ensures RegsInv(cfg, Next(cfg, sem, m, e))
  {
    match e
    case Rename(i) => RenameKeepsInv(cfg, m.regs, m.all, m.committed, i);
    case Execute(_) =>
    case Commit => CommitStep(cfg, sem, m);
    case Flush => FlushKeepsInv(cfg, m.regs, m.all, m.committed);
  }

  // The register state of every run keeps the invariant of the renaming stage.
  lemma {:induction false} RunRegs(cfg: Config, sem: Semantics, es: seq<Event>)
    requires ValidConfig(cfg) && Run(cfg, sem, es).Some?
    ensures RegsInv(cfg, Run(cfg, sem, es).value)
  {
    if es == [] {
      InitialInv(cfg);
    } else {
      RunRegs(cfg, sem, es[..|es| - 1]);
      RegsStep(cfg, sem, Run(cfg, sem, es[..|es| - 1]).value, es[|es| - 1]);
    }
  }

  // The values held in every run are those of sequential execution.
  lemma {:induction false} RunValues(cfg: Config, sem: Semantics, es: seq<Event>)
    requires ValidConfig(cfg) && Run(cfg, sem, es).Some?
    ensures Denotes(cfg, sem, Run(cfg, sem, es).value)
  {
    if es != [] {
      RunValues(cfg, sem, es[..|es| - 1]);
      RunRegs(cfg, sem, es[..|es| - 1]);
      var m := Run(cfg, sem, es[..|es| - 1]).value;
      var e := es[|es| - 1];
      ValuesStep(cfg, sem, m, e);
    }
  }

  lemma {:induction false} ValuesStep(cfg: Config, sem: Semantics, m: Machine, e: Event)
    requires WellFormed(cfg, m) && RegsInv(cfg, m) && Denotes(cfg, sem, m) && Enabled(cfg, m, e)
    ensures Denotes(cfg, sem, Next(cfg, sem, m, e))
  {
    var m' := Next(cfg, sem, m, e);
    match e
    case Rename(_) => RenameKeepsValues(sem, m.regs.backup, m, m');
    case Execute(u) => ExecuteStep(cfg, sem, m, u);
    case Commit => CommitKeepsValues(sem, m.regs.backup, m, m');
    case Flush => FlushKeepsValues(sem, m.regs.backup, m, m');
  }

  // Main result: after every run, for every semantics, the committed map denotes the sequential
  // register state of the committed program, and every in-flight instruction whose source writers
  // have executed reads through its physical sources what sequential execution would read.
  lemma {:induction false} RenamingPreservesMeaning(cfg: Config, sem: Semantics, es: seq<Event>, m: Machine)
    requires ValidConfig(cfg) && Run(cfg, sem, es) == Some(m)
    ensures forall x | 0 <= x < cfg.isaRegs ::
              Read(m.prf, m.regs.backup[x]) == Isa(sem, cfg.isaRegs, m.all, m.committed)[x]
    ensures forall u | m.committed <= u < |m.all| && SourcesSettled(m.all, m.done, u) ::
              Output(sem, m.prf, m.all[u]) == IsaResult(sem, Isa(sem, cfg.isaRegs, m.all, u), m.all[u].inst)
    ensures (forall u | 0 <= u < |m.all| :: m.done[u]) ==>
              forall x | 0 <= x < cfg.isaRegs ::
                Read(m.prf, m.regs.table[x]) == Isa(sem, cfg.isaRegs, m.all, |m.all|)[x]
  {
    RunRegs(cfg, sem, es);
    RunValues(cfg, sem, es);
    forall x | 0 <= x < cfg.isaRegs
      ensures Read(m.prf, m.regs.backup[x]) == Isa(sem, cfg.isaRegs, m.all, m.committed)[x]
    {
      assert RegisterDenotes(sem, m.prf, m.regs.backup, m.all, m.committed, x);
    }
    forall u | m.committed <= u < |m.all| && SourcesSettled(m.all, m.done, u)
      ensures Output(sem, m.prf, m.all[u]) == IsaResult(sem, Isa(sem, cfg.isaRegs, m.all, u), m.all[u].inst)
    {
      SourcesDenote(sem, m.regs.backup, m, u);
    }
    if forall u | 0 <= u < |m.all| :: m.done[u] {
      forall x | 0 <= x < cfg.isaRegs
        ensures Read(m.prf, m.regs.table[x]) == Isa(sem, cfg.isaRegs, m.all, |m.all|)[x]
      {
        MapDenotes(sem, m.regs.backup, m, |m.all|, x);
      }
    }
  }
}
