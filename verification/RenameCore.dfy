/**
  The register-renaming state of the back end as values: the speculative map and
  free list, the committed ("backup") pair that advances only at commit, and the
  three updates the renaming stage performs on them.

  An absent operand is register 0: the instruction decoder leaves index 0 in the
  field, and register 0 is never renamed.
 */
module RenameCore {

  // An instruction as fetched; `op` is opaque here and `fu` is its function type.
  datatype Inst = Inst(op: nat, fu: nat, rs1: nat, rs2: nat, rd: nat)

  // The same instruction with the physical registers the renaming stage wrote into it.
  // `lpd` is the mapping of `rd` that this instruction replaced.
  datatype Renamed = Renamed(inst: Inst, p1: nat, p2: nat, pd: nat, lpd: nat)

  datatype Config = Config(isaRegs: nat, phyRegs: nat)

  datatype Regs = Regs(table: seq<nat>, backup: seq<nat>, free: seq<nat>, freeBackup: seq<nat>)

  predicate ValidConfig(cfg: Config) {
    cfg.isaRegs >= 1 && cfg.phyRegs >= 1
  }

  predicate Encodable(cfg: Config, i: Inst) {
    i.rs1 < cfg.isaRegs && i.rs2 < cfg.isaRegs && i.rd < cfg.isaRegs
  }

  predicate Shaped(cfg: Config, s: Regs) {
    |s.table| == cfg.isaRegs && |s.backup| == cfg.isaRegs
  }

  function InitialFree(cfg: Config): seq<nat>
    requires ValidConfig(cfg)
  {
    seq(cfg.phyRegs - 1, i requires 0 <= i => i + 1)
  }

  function InitialRegs(cfg: Config): (s: Regs)
    requires ValidConfig(cfg)
  {
    var zeros := seq(cfg.isaRegs, _ => 0);
    Regs(zeros, zeros, InitialFree(cfg), InitialFree(cfg))
  }

  // Sources and the replaced mapping are read before the destination is remapped.
  function RenameInst(cfg: Config, s: Regs, i: Inst): Renamed
    requires Shaped(cfg, s) && Encodable(cfg, i) && s.free != []
  {
    Renamed(i, s.table[i.rs1], s.table[i.rs2], if i.rd != 0 then s.free[0] else 0, s.table[i.rd])
  }

  function AfterRename(cfg: Config, s: Regs, i: Inst): Regs
    requires Shaped(cfg, s) && Encodable(cfg, i) && s.free != []
  {
    if i.rd == 0 then s
    else s.(table := s.table[i.rd := s.free[0]], free := s.free[1..])
  }

  function Released(r: Renamed): seq<nat> {
    if r.lpd != 0 then [r.lpd] else []
  }

  function AfterCommit(s: Regs, r: Renamed): Regs
    requires r.inst.rd < |s.backup|
    requires r.pd != 0 ==> s.freeBackup != []
  {
    Regs(s.table,
         s.backup[r.inst.rd := r.pd],
         s.free + Released(r),
         (if r.pd != 0 then s.freeBackup[1..] else s.freeBackup) + Released(r))
  }

  function AfterFlush(s: Regs): Regs {
    s.(table := s.backup, free := s.freeBackup)
  }

  /* ---------- what the in-flight window does to the map and the list ---------- */
  // A window is given by `all`, every renamed instruction in program order, and `c`, the number
  // of them that have been committed: all[c..] is in flight.

  // The destinations claimed from position `c` on, in program order.
  function Dests(all: seq<Renamed>, c: nat): seq<nat>
    decreases |all| - c
  {
    if c >= |all| then [] else Claimed(all[c]) + Dests(all, c + 1)
  }

  function Claimed(r: Renamed): seq<nat> {
    if r.pd != 0 then [r.pd] else []
  }

  // The committed map `m` with the writes at positions c..u laid over it, oldest first: the map
  // in force when instruction `u` was renamed.
  function MapAt(m: seq<nat>, all: seq<Renamed>, c: nat, u: nat): (m': seq<nat>)
    requires u <= |all|
    ensures |m'| == |m|
    decreases u
  {
    if u <= c then m else Write(MapAt(m, all, c, u - 1), all[u - 1])
  }

  function Write(m: seq<nat>, r: Renamed): (m': seq<nat>)
    ensures |m'| == |m|
  {
    if r.inst.rd < |m| then m[r.inst.rd := r.pd] else m
  }

  lemma {:induction false} DestsAppend(all: seq<Renamed>, c: nat, r: Renamed)
    requires c <= |all|
    ensures Dests(all + [r], c) == Dests(all, c) + Claimed(r)
    decreases |all| - c
  {
    if c < |all| {
      DestsAppend(all, c + 1, r);
    } else {
      assert Dests(all + [r], c + 1) == [];
    }
  }

  lemma {:induction false} DestsMember(all: seq<Renamed>, c: nat, u: nat)
    requires c <= u < |all| && all[u].pd != 0
    ensures all[u].pd in Dests(all, c)
    decreases |all| - c
  {
    if c < u {
      DestsMember(all, c + 1, u);
    }
  }

  lemma {:induction false} MapAtPrefix(m: seq<nat>, all: seq<Renamed>, all': seq<Renamed>, c: nat, u: nat)
    requires u <= |all| <= |all'| && forall k | 0 <= k < u :: all[k] == all'[k]
    ensures MapAt(m, all, c, u) == MapAt(m, all', c, u)
    decreases u
  {
    if u > c {
      MapAtPrefix(m, all, all', c, u - 1);
    }
  }

  // Committing the oldest write moves it from the overlay into the map below.
  lemma {:induction false} MapAtCommit(m: seq<nat>, all: seq<Renamed>, c: nat, u: nat)
    requires c < u <= |all|
    ensures MapAt(Write(m, all[c]), all, c + 1, u) == MapAt(m, all, c, u)
    decreases u
  {
    if u > c + 1 {
      MapAtCommit(m, all, c, u - 1);
    }
  }

  // Every entry of an overlaid map comes from the map below or from one of the writes.
  lemma {:induction false} MapAtOrigin(m: seq<nat>, all: seq<Renamed>, c: nat, u: nat, x: nat)
    requires x < |m| && u <= |all|
    ensures MapAt(m, all, c, u)[x] == m[x]
         || exists j :: c <= j < u && all[j].inst.rd == x && all[j].pd == MapAt(m, all, c, u)[x]
    decreases u
  {
    if u > c {
      MapAtOrigin(m, all, c, u - 1, x);
      if all[u - 1].inst.rd == x {
        assert all[u - 1].pd == MapAt(m, all, c, u)[x];
      }
    }
  }

  /* ---------- the invariant ---------- */

  // How often register `p` is a committed mapping or on the committed free list.
  function Held(backup: seq<nat>, freeBackup: seq<nat>, p: nat): nat {
    multiset(backup)[p] + multiset(freeBackup)[p]
  }

  // The free list holds what the register file has beyond the non-zero committed mappings.
  predicate Balanced(phyRegs: nat, backup: seq<nat>, freeBackup: seq<nat>) {
    |freeBackup| + |backup| + 1 == phyRegs + multiset(backup)[0]
  }

  // Every physical register but 0 is either a committed mapping or on the committed
  // free list, exactly once.
  ghost predicate Conserved(phyRegs: nat, backup: seq<nat>, freeBackup: seq<nat>) {
    && (forall p: nat | p >= 1 :: Held(backup, freeBackup, p) == if p < phyRegs then 1 else 0)
    && 0 !in freeBackup
    && Balanced(phyRegs, backup, freeBackup)
  }

  // Instruction `r` was renamed under map `m`.
  predicate RenamedUnder(m: seq<nat>, r: Renamed) {
    && r.inst.rs1 < |m| && r.inst.rs2 < |m| && r.inst.rd < |m|
    && r.p1 == m[r.inst.rs1] && r.p2 == m[r.inst.rs2] && r.lpd == m[r.inst.rd]
    && (r.pd == 0 <==> r.inst.rd == 0)
  }

  // Instruction `u` was renamed under the committed map overlaid with all older in-flight writes.
  predicate RenamedAt(m: seq<nat>, all: seq<Renamed>, c: nat, u: nat)
    requires u < |all|
  {
    RenamedUnder(MapAt(m, all, c, u), all[u])
  }

  predicate Chained(m: seq<nat>, all: seq<Renamed>, c: nat) {
    forall u | c <= u < |all| :: RenamedAt(m, all, c, u)
  }

  // How the speculative pair hangs off the committed pair through the in-flight window: the
  // committed list is the claimed destinations followed by the speculative list, and the
  // speculative map is the committed one overlaid with the window. The last clause records
  // that renaming needs a free register even for an instruction that claims none.
  predicate Split(s: Regs, all: seq<Renamed>, c: nat) {
    && c <= |all|
    && |s.backup| > 0 && s.backup[0] == 0
    && s.freeBackup == Dests(all, c) + s.free
    && Chained(s.backup, all, c)
    && s.table == MapAt(s.backup, all, c, |all|)
    && (c < |all| ==> all[|all| - 1].pd != 0 || s.free != [])
  }

  ghost predicate Inv(cfg: Config, s: Regs, all: seq<Renamed>, c: nat) {
    && ValidConfig(cfg) && Shaped(cfg, s)
    && Conserved(cfg.phyRegs, s.backup, s.freeBackup)
    && Split(s, all, c)
  }

  // No write in the window touches entry 0, so register 0 stays mapped to physical 0.
  lemma {:induction false} ZeroStaysZero(m: seq<nat>, all: seq<Renamed>, c: nat, u: nat)
    requires Chained(m, all, c) && |m| > 0 && m[0] == 0 && u <= |all|
    ensures MapAt(m, all, c, u)[0] == 0
    decreases u
  {
    if u > c {
      ZeroStaysZero(m, all, c, u - 1);
      assert RenamedAt(m, all, c, u - 1);
    }
  }

  lemma {:induction false} ChainedAppend(m: seq<nat>, all: seq<Renamed>, c: nat, r: Renamed)
    requires c <= |all| && Chained(m, all, c) && RenamedUnder(MapAt(m, all, c, |all|), r)
    ensures Chained(m, all + [r], c)
    ensures MapAt(m, all + [r], c, |all| + 1) == Write(MapAt(m, all, c, |all|), r)
  {
    MapAtPrefix(m, all, all + [r], c, |all|);
    forall u | c <= u <= |all| ensures RenamedAt(m, all + [r], c, u) {
      MapAtPrefix(m, all, all + [r], c, u);
      assert u < |all| ==> RenamedAt(m, all, c, u);
    }
  }

  lemma {:induction false} ChainedCommit(m: seq<nat>, all: seq<Renamed>, c: nat)
    requires c < |all| && Chained(m, all, c)
    ensures RenamedUnder(m, all[c])
    ensures Chained(Write(m, all[c]), all, c + 1)
  {
    assert RenamedAt(m, all, c, c);
    var m', c' := Write(m, all[c]), c + 1;
    forall u | c' <= u < |all| ensures RenamedAt(m', all, c', u) {
      MapAtCommit(m, all, c, u);
      assert RenamedAt(m, all, c, u);
    }
  }

  lemma {:induction false} CountZeros(n: nat)
    ensures multiset(seq(n, _ => 0)) == multiset{}[0 := n]
  {
    if n > 0 {
      CountZeros(n - 1);
      assert seq(n, _ => 0) == seq(n - 1, _ => 0) + [0];
    }
  }

  lemma {:induction false} CountInitialFree(cfg: Config, p: nat)
    requires ValidConfig(cfg)
    ensures multiset(InitialFree(cfg))[p] == if 1 <= p < cfg.phyRegs then 1 else 0
    decreases cfg.phyRegs
  {
    if cfg.phyRegs > 1 {
      var less := cfg.(phyRegs := cfg.phyRegs - 1);
      CountInitialFree(less, p);
      assert InitialFree(cfg) == InitialFree(less) + [cfg.phyRegs - 1];
    }
  }

  lemma {:induction false} InitialInv(cfg: Config)
    requires ValidConfig(cfg)
    ensures Inv(cfg, InitialRegs(cfg), [], 0)
  {
    CountZeros(cfg.isaRegs);
    var zeros := seq(cfg.isaRegs, _ => 0);
    forall p: nat | p >= 1 ensures Held(zeros, InitialFree(cfg), p) == if p < cfg.phyRegs then 1 else 0 {
      CountInitialFree(cfg, p);
    }
  }

  lemma {:induction false} RenameKeepsSplit(cfg: Config, s: Regs, all: seq<Renamed>, c: nat, i: Inst)
    requires Split(s, all, c) && Shaped(cfg, s) && Encodable(cfg, i) && s.free != [] && s.free[0] != 0
    ensures Split(AfterRename(cfg, s, i), all + [RenameInst(cfg, s, i)], c)
  {
    var r := RenameInst(cfg, s, i);
    ZeroStaysZero(s.backup, all, c, |all|);
    ChainedAppend(s.backup, all, c, r);
    DestsAppend(all, c, r);
    assert s.free == [s.free[0]] + s.free[1..];
    assert s.freeBackup == Dests(all + [r], c) + AfterRename(cfg, s, i).free;
  }

  lemma {:induction false} RenameKeepsInv(cfg: Config, s: Regs, all: seq<Renamed>, c: nat, i: Inst)
    requires Inv(cfg, s, all, c) && Encodable(cfg, i) && s.free != []
    ensures Inv(cfg, AfterRename(cfg, s, i), all + [RenameInst(cfg, s, i)], c)
  {
    FreeIsNonZero(cfg, s, all, c);
    RenameKeepsSplit(cfg, s, all, c, i);
  }

  lemma {:induction false} FreeIsNonZero(cfg: Config, s: Regs, all: seq<Renamed>, c: nat)
    requires Inv(cfg, s, all, c) && s.free != []
    ensures 0 < s.free[0] < cfg.phyRegs
  {
    assert s.free[0] == s.freeBackup[|Dests(all, c)|];
    assert s.free[0] in s.freeBackup;
    assert Held(s.backup, s.freeBackup, s.free[0]) >= 1;
  }

  // The oldest in-flight instruction holds exactly what the committed pair would give it now:
  // its destination is the head of the committed free list, its replaced mapping the committed one.
  lemma {:induction false} OldestMatchesBackup(s: Regs, all: seq<Renamed>, c: nat)
    requires Split(s, all, c) && c < |all|
    ensures s.freeBackup != []
    ensures all[c].pd == if all[c].inst.rd != 0 then s.freeBackup[0] else 0
    ensures RenamedUnder(s.backup, all[c])
  {
    ChainedCommit(s.backup, all, c);
    var last := |all| - 1;
    if all[last].pd != 0 {
      DestsMember(all, c, last);
    }
  }

  lemma {:induction false} CommitKeepsSplit(s: Regs, all: seq<Renamed>, c: nat)
    requires Split(s, all, c) && c < |all|
    ensures all[c].inst.rd < |s.backup|
    ensures all[c].pd != 0 ==> s.freeBackup != []
    ensures Split(AfterCommit(s, all[c]), all, c + 1)
  {
    OldestMatchesBackup(s, all, c);
    ChainedCommit(s.backup, all, c);
    MapAtCommit(s.backup, all, c, |all|);
    assert AfterCommit(s, all[c]).freeBackup == Dests(all, c + 1) + (s.free + Released(all[c]));
  }

  lemma {:induction false} CommitKeepsInv(cfg: Config, s: Regs, all: seq<Renamed>, c: nat)
    requires Inv(cfg, s, all, c) && c < |all|
    ensures all[c].inst.rd < |s.backup|
    ensures all[c].pd != 0 ==> s.freeBackup != []
    ensures Inv(cfg, AfterCommit(s, all[c]), all, c + 1)
  {
    OldestMatchesBackup(s, all, c);
    CommitConserves(cfg.phyRegs, s, all[c]);
    CommitKeepsSplit(s, all, c);
  }

  // Commit trades the head of the committed free list for the mapping it replaces.
  lemma {:induction false} CommitConserves(phyRegs: nat, s: Regs, r: Renamed)
    requires Conserved(phyRegs, s.backup, s.freeBackup) && s.freeBackup != []
    requires RenamedUnder(s.backup, r) && s.backup[0] == 0
    requires r.pd == if r.inst.rd != 0 then s.freeBackup[0] else 0
    ensures Conserved(phyRegs, AfterCommit(s, r).backup, AfterCommit(s, r).freeBackup)
  {
    var s' := AfterCommit(s, r);
    if r.inst.rd == 0 {
      assert s'.backup == s.backup && s'.freeBackup == s.freeBackup;
    } else {
      forall p: nat | p >= 1 ensures Held(s'.backup, s'.freeBackup, p) == Held(s.backup, s.freeBackup, p) {
        TradeKeepsHeld(s, r, p);
      }
      assert multiset(s'.backup) == multiset(s.backup) - multiset{r.lpd} + multiset{r.pd};
    }
  }

  lemma {:induction false} TradeKeepsHeld(s: Regs, r: Renamed, p: nat)
    requires r.inst.rd < |s.backup| && s.freeBackup != [] && p != 0
    requires r.pd == s.freeBackup[0] != 0 && r.lpd == s.backup[r.inst.rd]
    ensures Held(AfterCommit(s, r).backup, AfterCommit(s, r).freeBackup, p) == Held(s.backup, s.freeBackup, p)
  {
    var rest := s.freeBackup[1..];
    assert s.freeBackup == [r.pd] + rest;
    assert multiset(rest + Released(r)) == multiset(rest) + multiset(Released(r));
    assert multiset(AfterCommit(s, r).backup) == multiset(s.backup) - multiset{r.lpd} + multiset{r.pd};
  }

  lemma {:induction false} FlushKeepsInv(cfg: Config, s: Regs, all: seq<Renamed>, c: nat)
    requires Inv(cfg, s, all, c)
    ensures Inv(cfg, AfterFlush(s), all[..c], c)
  {
  }
}
