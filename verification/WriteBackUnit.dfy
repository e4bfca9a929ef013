/**
  The write-back stage and the physical register file as objects.
 */
module WriteBackUnit {
  import opened Prelude
  import opened RenameCore
  import opened RenameMachine
  import opened Pipeline
  import opened StationUnit
  import opened DispatchUnit

  // What the first `n` pipes hand over when pipe `s` hands over its oldest `counts[s]`.
  function Handed(queues: seq<seq<nat>>, counts: seq<nat>, n: nat): seq<nat>
    requires n <= |counts| && n <= |queues| && Fits(queues, counts)
  {
    if n == 0 then [] else Handed(queues, counts, n - 1) + queues[n - 1][..counts[n - 1]]
  }

  predicate Fits(queues: seq<seq<nat>>, counts: seq<nat>) {
    |counts| <= |queues| && forall s | 0 <= s < |counts| :: counts[s] <= |queues[s]|
  }

  lemma {:induction false} HandedPrefix(queues: seq<seq<nat>>, counts: seq<nat>, x: nat, n: nat)
    requires n <= |counts| < |queues| && Fits(queues, counts) && Fits(queues, counts + [x])
    ensures Handed(queues, counts + [x], n) == Handed(queues, counts, n)
  {
    if n > 0 {
      HandedPrefix(queues, counts, x, n - 1);
    }
  }

  // Pipe `s` hands over everything it has, unless the budget ran out with it or before it.
  predicate TakesAll(queues: seq<seq<nat>>, counts: seq<nat>, budget: nat, s: nat)
    requires s < |counts| <= |queues|
  {
    counts[s] == |queues[s]| || Sum(counts, s + 1) == budget
  }

  lemma {:induction false} StillTakesAll(queues: seq<seq<nat>>, counts: seq<nat>, x: nat, budget: nat, s: nat)
    requires s < |counts| < |queues| && TakesAll(queues, counts, budget, s)
    ensures TakesAll(queues, counts + [x], budget, s)
  {
    SumPrefix(counts, x, s + 1);
  }

  class WriteBackStage {
    const issueNum: nat
    // One queue per pipe, in the order of the pipe names.
    var queues: seq<seq<nat>>

    constructor (issueNum: nat, pipes: nat)
      ensures this.issueNum == issueNum && queues == seq(pipes, _ => [])
    {
      this.issueNum := issueNum;
      queues := seq(pipes, _ => []);
    }

    method AcceptFuncInst(all: seq<Renamed>, s: nat, group: seq<nat>, ghost l: Lane) returns (ghost l': Lane)
      requires s < |queues| && l.wbQueue == queues[s] && l.wbArriving == group
      modifies this
      ensures |queues| == |old(queues)| && Repeat(all, l, WbArrive, |group|) == Some(l') && l'.wbQueue == queues[s]
      ensures l'.wbArriving == [] && queues == old(queues)[s := old(queues)[s] + group]
    {
      l' := l;
      ghost var qs := queues;
      assert qs[s] + group[..0] == qs[s] && qs[s := qs[s]] == qs;
      for i := 0 to |group|
        invariant |queues| == |qs| && queues == qs[s := qs[s] + group[..i]]
        invariant Repeat(all, l, WbArrive, i) == Some(l') && l'.wbQueue == queues[s] && l'.wbArriving == group[i..]
      {
        queues := queues[s := queues[s] + [group[i]]];
        l' := LaneNext(all, l', WbArrive);
        assert qs[s] + group[..i + 1] == qs[s] + group[..i] + [group[i]];
      }
      assert group[..|group|] == group;
    }

    // Take the oldest of one pipe, at most `budget`.
    method TakeFrom(s: nat, budget: nat) returns (taken: seq<nat>)
      requires s < |queues|
      modifies this
      ensures |taken| == Min(budget, |old(queues)[s]|) && taken == old(queues)[s][..|taken|]
      ensures queues == old(queues)[s := old(queues)[s][|taken|..]]
    {
      taken := [];
      ghost var q := queues[s];
      var consumed, left := 0, budget;
      while consumed < |queues[s]| && left > 0
        invariant 0 <= consumed <= |q| && consumed + left == budget && queues == old(queues)
        invariant |taken| == consumed && taken == q[..consumed]
      {
        taken := taken + [queues[s][consumed]];
        left := left - 1;
        consumed := consumed + 1;
      }
      queues := queues[s := queues[s][consumed..]];
    }

    // Pipes are served in a fixed order out of one budget; each loses exactly what it hands over,
    // and a pipe keeps something only if the budget ran out.
    method ArbitrateInst() returns (group: seq<nat>, counts: seq<nat>)
      modifies this
      ensures |counts| == |queues| == |old(queues)| && Fits(old(queues), counts) && Sum(counts, |counts|) <= issueNum
      ensures group == Handed(old(queues), counts, |counts|)
      ensures forall s | 0 <= s < |counts| ::
                queues[s] == old(queues)[s][counts[s]..] && TakesAll(old(queues), counts, issueNum, s)
    {
      group, counts := [], [];
      ghost var qs := queues;
      var produceNum: nat := issueNum;
      var s := 0;
      while s < |queues|
        invariant 0 <= s <= |queues| == |qs| && |counts| == s && Fits(qs, counts)
        invariant Sum(counts, s) + produceNum == issueNum && group == Handed(qs, counts, s)
        invariant forall t | 0 <= t < |qs| :: Left(qs, counts, queues, t)
        invariant forall t | 0 <= t < s :: TakesAll(qs, counts, issueNum, t)
      {
        ghost var before := queues;
        assert Left(qs, counts, queues, s);
        var taken := TakeFrom(s, produceNum);
        var n := |taken|;
        ServeOne(qs, counts, issueNum, produceNum, n);
        forall t | 0 <= t < |qs| ensures Left(qs, counts + [n], queues, t) {
          assert Left(qs, counts, before, t);
        }
        group := group + taken;
        counts := counts + [n];
        produceNum := produceNum - n;
        s := s + 1;
      }
      forall t | 0 <= t < |counts| ensures queues[t] == qs[t][counts[t]..] {
        assert Left(qs, counts, queues, t);
      }
    }
  }

  // Queue `t` after the pipes with a count have been served.
  predicate Left(qs: seq<seq<nat>>, counts: seq<nat>, queues: seq<seq<nat>>, t: nat) {
    && t < |qs| == |queues| && (t < |counts| ==> counts[t] <= |qs[t]|)
    && queues[t] == if t < |counts| then qs[t][counts[t]..] else qs[t]
  }

  lemma {:induction false} ServeOne(qs: seq<seq<nat>>, counts: seq<nat>, budget: nat, left: nat, n: nat)
    requires |counts| < |qs| && Fits(qs, counts) && Sum(counts, |counts|) + left == budget
    requires n == Min(left, |qs[|counts|]|) && forall t | 0 <= t < |counts| :: TakesAll(qs, counts, budget, t)
    ensures Fits(qs, counts + [n]) && Sum(counts + [n], |counts| + 1) + (left - n) == budget
    ensures Handed(qs, counts + [n], |counts| + 1) == Handed(qs, counts, |counts|) + qs[|counts|][..n]
    ensures forall t | 0 <= t <= |counts| :: TakesAll(qs, counts + [n], budget, t)
  {
    SumMore(counts, n);
    HandedPrefix(qs, counts, n, |counts|);
    forall t | 0 <= t < |counts| ensures TakesAll(qs, counts + [n], budget, t) {
      StillTakesAll(qs, counts, n, budget, t);
    }
  }

  /* ---------- the physical register file ---------- */

  // An instruction as the register file sees it; `has1` and `has2` say whether it has the operand,
  // `f1` and `f2` mark operands to be forwarded.
  datatype RegOp = RegOp(p1: nat, p2: nat, pd: nat, has1: bool, has2: bool, f1: bool, f2: bool,
                         op1: int, op2: int, result: int)

  predicate OpInFile(n: nat, o: RegOp) {
    o.p1 < n && o.p2 < n && o.pd < n
  }

  // Only operands that exist and are not to be forwarded are read; the others are left alone.
  function WithOperands(prf: seq<int>, o: RegOp): RegOp {
    o.(op1 := if o.has1 && !o.f1 then Read(prf, o.p1) else o.op1,
       op2 := if o.has2 && !o.f2 then Read(prf, o.p2) else o.op2)
  }

  function Written(prf: seq<int>, group: seq<RegOp>, n: nat): (prf': seq<int>)
    requires n <= |group|
    ensures |prf'| == |prf|
  {
    if n == 0 then prf
    else
      var before := Written(prf, group, n - 1);
      if 0 < group[n - 1].pd < |prf| then before[group[n - 1].pd := group[n - 1].result] else before
  }

  // Register `r` is a destination of the group.
  predicate Writes(group: seq<RegOp>, r: nat) {
    exists i :: 0 <= i < |group| && group[i].pd == r
  }

  // A read after a group of writes gives the youngest result for that register, and register 0 always 0.
  lemma {:induction false} ReadAfterWrite(prf: seq<int>, group: seq<RegOp>, n: nat, r: nat)
    requires n <= |group|
    ensures Read(Written(prf, group, n), 0) == 0
    ensures 0 < r < |prf| ==>
              || (exists i :: 0 <= i < n && group[i].pd == r && Read(Written(prf, group, n), r) == group[i].result
                              && forall j | i < j < n :: group[j].pd != r)
              || (Read(Written(prf, group, n), r) == Read(prf, r) && forall j | 0 <= j < n :: group[j].pd != r)
  {
    if n > 0 {
      ReadAfterWrite(prf, group, n - 1, r);
      if 0 < r < |prf| && group[n - 1].pd == r {
        assert Read(Written(prf, group, n), r) == group[n - 1].result;
      }
    }
  }

  class PhysicalRegfile {
    const regs: array<int>

    constructor (phyRegs: nat)
      ensures fresh(regs) && regs[..] == seq(phyRegs, _ => 0)
    {
      regs := new int[phyRegs](_ => 0);
    }

    method ReadPhysicalReg(group: seq<RegOp>) returns (ops: seq<RegOp>)
      requires forall i | 0 <= i < |group| :: OpInFile(regs.Length, group[i])
      ensures |ops| == |group| && forall i | 0 <= i < |group| :: ops[i] == WithOperands(regs[..], group[i])
    {
      ops := [];
      for i := 0 to |group|
        invariant |ops| == i && forall j | 0 <= j < i :: ops[j] == WithOperands(regs[..], group[j])
      {
        var o := group[i];
        assert OpInFile(regs.Length, o);
        if o.has1 && !o.f1 {
          o := o.(op1 := if o.p1 == 0 then 0 else regs[o.p1]);
        }
        if o.has2 && !o.f2 {
          o := o.(op2 := if o.p2 == 0 then 0 else regs[o.p2]);
        }
        ops := ops + [o];
      }
    }

    method WritePhysicalReg(group: seq<RegOp>)
      requires forall i | 0 <= i < |group| :: OpInFile(regs.Length, group[i])
      modifies regs
      ensures regs[..] == Written(old(regs[..]), group, |group|)
    {
      ghost var prf := regs[..];
      for i := 0 to |group|
        invariant regs[..] == Written(prf, group, i)
      {
        assert OpInFile(regs.Length, group[i]);
        if group[i].pd != 0 {
          regs[group[i].pd] := group[i].result;
        }
      }
    }
  }
}
