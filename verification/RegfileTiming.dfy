/**
  When operands are read and results written. An operand that is not marked for forwarding is read
  from the register file when its instruction is selected; a result is written one cycle after it
  left the write-back stage, in the cycle in which dispatch learns of it. Nothing orders that write
  against a read in the same cycle, so here the write is a step of its own.
 */
module RegfileTiming {
  import opened Prelude
  import opened RenameCore
  import opened RenameMachine
  import opened Pipeline
  import opened PipelineLanes
  import opened PipelineInv
  import opened PipelineRun
  import opened WriteBackUnit

  // `file` is the register file itself; `sent` are the results of this cycle, `due` those of the
  // last one that are still to be written.
  datatype Timed = Timed(st: Pipe, file: seq<int>, sent: seq<RegOp>, due: seq<RegOp>)

  datatype Step = Do(a: Action) | WriteRegs

  function ResultOf(sem: Semantics, prf: seq<int>, r: Renamed): RegOp {
    RegOp(r.p1, r.p2, r.pd, true, true, false, false, Read(prf, r.p1), Read(prf, r.p2), Output(sem, prf, r))
  }

  predicate StepAllowed(p: Params, t: Timed, e: Step)
    requires WellShaped(p, t.st)
  {
    match e
    case Do(a) => Allowed(p, t.st, a) && (a == Tick ==> t.due == [])
    case WriteRegs => true
  }

  function StepNext(p: Params, sem: Semantics, t: Timed, e: Step): (t': Timed)
    requires WellShaped(p, t.st) && StepAllowed(p, t, e)
    ensures WellShaped(p, t'.st)
  {
    match e
    case WriteRegs => t.(file := Written(t.file, t.due, |t.due|), due := [])
    case Do(a) =>
      var st' := Act(p, sem, t.st, a);
      match a
      case Arbitrate(s) =>
        t.(st := st', sent := t.sent + [ResultOf(sem, t.st.core.prf, t.st.core.all[t.st.lanes[s].wbQueue[0]])])
      case Tick => t.(st := st', sent := [], due := t.sent)
      case _ => t.(st := st')
  }

  function TimedRun(p: Params, sem: Semantics, es: seq<Step>, n: nat): (r: Option<Timed>)
    requires ValidConfig(p.regs) && n <= |es|
    ensures r.Some? ==> WellShaped(p, r.value.st)
  {
    if n == 0 then Some(Timed(Start(p), seq(p.regs.phyRegs, _ => 0), [], []))
    else
      var r := TimedRun(p, sem, es, n - 1);
      if r.None? || !StepAllowed(p, r.value, es[n - 1]) then None else Some(StepNext(p, sem, r.value, es[n - 1]))
  }

  // The actions of the pipeline among the first `n` steps.
  function Actions(es: seq<Step>, n: nat): seq<Action>
    requires n <= |es|
  {
    if n == 0 then []
    else match es[n - 1]
         case Do(a) => Actions(es, n - 1) + [a]
         case WriteRegs => Actions(es, n - 1)
  }

  lemma {:induction false} StepIsDriven(p: Params, sem: Semantics, acts: seq<Action>, t: Timed, e: Step)
    requires Driven(p, sem, acts, t.st) && StepAllowed(p, t, e)
    ensures Driven(p, sem, acts + (if e.Do? then [e.a] else []), StepNext(p, sem, t, e).st)
  {
    if e.Do? {
      DriveSnoc(p, sem, acts, t.st, e.a);
    } else {
      assert acts + [] == acts;
    }
  }

  lemma {:induction false} TimedIsDriven(p: Params, sem: Semantics, es: seq<Step>, n: nat, t: Timed)
    requires ValidConfig(p.regs) && n <= |es| && TimedRun(p, sem, es, n) == Some(t)
    ensures Driven(p, sem, Actions(es, n), t.st)
  {
    if n > 0 {
      var t0 := TimedRun(p, sem, es, n - 1).value;
      TimedIsDriven(p, sem, es, n - 1, t0);
      StepIsDriven(p, sem, Actions(es, n - 1), t0, es[n - 1]);
      assert Actions(es, n - 1) + [] == Actions(es, n - 1);
    }
  }

  /* ---------- the register file and the results on their way ---------- */

  // The register file with everything on its way written is the one the rename machine works on.
  predicate CaughtUp(t: Timed) {
    var now := Written(t.file, t.due, |t.due|);
    t.st.core.prf == Written(now, t.sent, |t.sent|)
  }

  // The results of this cycle are those of the instructions being broadcast.
  predicate SentMatches(all: seq<Renamed>, cast: seq<nat>, sent: seq<RegOp>) {
    |sent| == |cast| && forall i | 0 <= i < |cast| :: cast[i] < |all| && sent[i].pd == all[cast[i]].pd
  }

  lemma {:induction false} WrittenPrefix(prf: seq<int>, group: seq<RegOp>, o: RegOp, n: nat)
    requires n <= |group|
    ensures Written(prf, group + [o], n) == Written(prf, group, n)
  {
    if n > 0 {
      WrittenPrefix(prf, group, o, n - 1);
    }
  }

  lemma {:induction false} WrittenSnoc(prf: seq<int>, group: seq<RegOp>, o: RegOp)
    ensures Written(prf, group + [o], |group| + 1) ==
            var before := Written(prf, group, |group|);
            if 0 < o.pd < |prf| then before[o.pd := o.result] else before
  {
    WrittenPrefix(prf, group, o, |group|);
  }

  lemma {:induction false} ArbitrateKeepsFile(p: Params, sem: Semantics, t: Timed, s: nat)
    requires WellShaped(p, t.st) && StepAllowed(p, t, Do(Arbitrate(s))) && |t.file| == p.regs.phyRegs
    requires CaughtUp(t) && SentMatches(t.st.core.all, t.st.cast, t.sent)
    ensures var t' := StepNext(p, sem, t, Do(Arbitrate(s)));
            CaughtUp(t') && SentMatches(t'.st.core.all, t'.st.cast, t'.sent)
  {
    var u := t.st.lanes[s].wbQueue[0];
    WrittenSnoc(Written(t.file, t.due, |t.due|), t.sent, ResultOf(sem, t.st.core.prf, t.st.core.all[u]));
  }

  lemma {:induction false} FileStep(p: Params, sem: Semantics, t: Timed, e: Step)
    requires WellShaped(p, t.st) && StepAllowed(p, t, e) && |t.file| == p.regs.phyRegs
    requires CaughtUp(t) && SentMatches(t.st.core.all, t.st.cast, t.sent)
    ensures var t' := StepNext(p, sem, t, e);
            && CaughtUp(t') && SentMatches(t'.st.core.all, t'.st.cast, t'.sent) && |t'.file| == p.regs.phyRegs
  {
    if e.Do? && e.a.Arbitrate? {
      ArbitrateKeepsFile(p, sem, t, e.a.s);
    }
  }

  // Writing the group that is due, as the register file does, is what the rename machine did when the
  // results left the write-back stage: the two agree once everything on its way is written.
  lemma {:induction false} FileCatchesUp(p: Params, sem: Semantics, es: seq<Step>, n: nat, t: Timed)
    requires ValidConfig(p.regs) && n <= |es| && TimedRun(p, sem, es, n) == Some(t)
    ensures CaughtUp(t) && SentMatches(t.st.core.all, t.st.cast, t.sent) && |t.file| == p.regs.phyRegs
  {
    if n > 0 {
      var t0 := TimedRun(p, sem, es, n - 1).value;
      FileCatchesUp(p, sem, es, n - 1, t0);
      FileStep(p, sem, t0, es[n - 1]);
    }
  }

  lemma {:induction false} UnwrittenReads(prf: seq<int>, group: seq<RegOp>, r: nat)
    requires r == 0 || !Writes(group, r)
    ensures Read(Written(prf, group, |group|), r) == Read(prf, r)
  {
    ReadAfterWrite(prf, group, |group|, r);
  }

  /* ---------- reading at dispatch ---------- */

  // The instruction a lane would select now.
  function Selected(p: Params, st: Pipe, s: nat): nat
    requires WellShaped(p, st) && Allowed(p, st, Select(s))
  {
    st.disp.queue[FirstEligible(st.core.all, p.lanes[s].supports, st.disp.queue)].uid
  }

  // No result being broadcast goes to a register that is not busy.
  lemma {:induction false} IdleIsNotSent(st: Pipe, sent: seq<RegOp>, r: nat)
    requires BusyOk(st.core.all, st.core.done, st.cast, st.disp, Dispatched(|st.core.all|, st.disp))
    requires PlacedOk(st) && OrderOk(st) && CastOk(st) && |st.core.all| == |st.core.done|
    requires SentMatches(st.core.all, st.cast, sent) && r !in st.disp.busy && r != 0
    ensures !Writes(sent, r)
  {
    var d := Dispatched(|st.core.all|, st.disp);
    assert BusyAt(st.core.all, st.core.done, st.cast, st.disp, d, r);
    forall i | 0 <= i < |sent| ensures sent[i].pd != r {
      var q := st.cast[i];
      assert Seen(st.core.done, [], q);
      if d <= q {
        UndispatchedNotDone(st, q);
      }
      assert PendingWriter(st.core.all, st.core.done, st.cast, st.disp.cast, q, st.core.all[q].pd);
    }
  }

  // In a driven state in which a lane may select, a source that is not busy holds its sequential
  // value in the register file of the rename machine.
  lemma {:induction false} IdleSourceSettled(p: Params, sem: Semantics, acts: seq<Action>, st: Pipe, s: nat)
    requires Driven(p, sem, acts, st) && Allowed(p, st, Select(s))
    ensures var u := Selected(p, st, s);
            && st.core.committed <= u < |st.core.all| == |st.core.done|
            && var r := st.core.all[u];
            && r.inst.rs1 < p.regs.isaRegs && r.inst.rs2 < p.regs.isaRegs
            && (r.p1 !in st.disp.busy ==> Settled(st.core.all, st.core.done, u, r.p1))
            && (r.p2 !in st.disp.busy ==> Settled(st.core.all, st.core.done, u, r.p2))
  {
    RunOrder(p, sem, acts, st);
    RunPlacedAll(p, sem, acts, st);
    RunBusy(p, sem, acts, st);
    PipelineRefinesRenaming(p, sem, acts, st);
    RunRegs(p.regs, sem, Project(p, sem, acts));
    RunValues(p.regs, sem, Project(p, sem, acts));
    var u := Selected(p, st, s);
    SelectedNotDone(st, FirstEligible(st.core.all, p.lanes[s].supports, st.disp.queue));
    SelectMark(p, st, u, st.core.all[u].p1);
    SelectMark(p, st, u, st.core.all[u].p2);
    assert RenamedAt(st.core.regs.backup, st.core.all, st.core.committed, u);
  }

  lemma {:induction false} SettledReads(p: Params, sem: Semantics, acts: seq<Action>, st: Pipe, u: nat, x: nat, r: nat)
    requires Driven(p, sem, acts, st) && st.core.committed <= u < |st.core.all| == |st.core.done|
    requires (x, r) in {(st.core.all[u].inst.rs1, st.core.all[u].p1), (st.core.all[u].inst.rs2, st.core.all[u].p2)}
    requires Settled(st.core.all, st.core.done, u, r)
    ensures x < p.regs.isaRegs && Read(st.core.prf, r) == Isa(sem, p.regs.isaRegs, st.core.all, u)[x]
  {
    PipelineRefinesRenaming(p, sem, acts, st);
    RunRegs(p.regs, sem, Project(p, sem, acts));
    RunValues(p.regs, sem, Project(p, sem, acts));
    assert RenamedAt(st.core.regs.backup, st.core.all, st.core.committed, u);
    MapDenotes(sem, st.core.regs.backup, st.core, u, x);
  }

  // A read of register `r` now does not miss a result that is still to be written.
  predicate NotDue(t: Timed, r: nat) {
    r == 0 || !Writes(t.due, r)
  }

  lemma {:induction false} IdleReads(p: Params, sem: Semantics, acts: seq<Action>, t: Timed, r: nat)
    requires Driven(p, sem, acts, t.st) && CaughtUp(t) && SentMatches(t.st.core.all, t.st.cast, t.sent)
    requires r !in t.st.disp.busy && NotDue(t, r)
    ensures Read(t.file, r) == Read(t.st.core.prf, r)
  {
    RunOrder(p, sem, acts, t.st);
    RunPlacedAll(p, sem, acts, t.st);
    RunCast(p, sem, acts, t.st);
    RunBusy(p, sem, acts, t.st);
    UnwrittenReads(t.file, t.due, r);
    if r != 0 {
      IdleIsNotSent(t.st, t.sent, r);
    }
    UnwrittenReads(Written(t.file, t.due, |t.due|), t.sent, r);
  }

  // Main result: in every run, an operand of a selected instruction that is not marked for forwarding
  // reads from the register file, at that moment, the value sequential execution gives it, provided
  // no result for its register is still to be written in this cycle.
  lemma {:induction false} DispatchReadsSequentially(p: Params, sem: Semantics, es: seq<Step>, n: nat, t: Timed, s: nat)
    requires ValidConfig(p.regs) && n <= |es| && TimedRun(p, sem, es, n) == Some(t) && Allowed(p, t.st, Select(s))
    ensures var u := Selected(p, t.st, s);
            && u < |t.st.core.all|
            && var r := t.st.core.all[u];
               var isa := Isa(sem, p.regs.isaRegs, t.st.core.all, u);
            && r.inst.rs1 < p.regs.isaRegs && r.inst.rs2 < p.regs.isaRegs
            && (r.p1 !in t.st.disp.busy && NotDue(t, r.p1) ==> Read(t.file, r.p1) == isa[r.inst.rs1])
            && (r.p2 !in t.st.disp.busy && NotDue(t, r.p2) ==> Read(t.file, r.p2) == isa[r.inst.rs2])
  {
    var acts := Actions(es, n);
    TimedIsDriven(p, sem, es, n, t);
    FileCatchesUp(p, sem, es, n, t);
    IdleSourceSettled(p, sem, acts, t.st, s);
    var u := Selected(p, t.st, s);
    var r := t.st.core.all[u];
    if r.p1 !in t.st.disp.busy && NotDue(t, r.p1) {
      IdleReads(p, sem, acts, t, r.p1);
      SettledReads(p, sem, acts, t.st, u, r.inst.rs1, r.p1);
    }
    if r.p2 !in t.st.disp.busy && NotDue(t, r.p2) {
      IdleReads(p, sem, acts, t, r.p2);
      SettledReads(p, sem, acts, t.st, u, r.inst.rs2, r.p2);
    }
  }

  // `o` is instruction `r` on its way through dispatch: its sources, marked where they are busy.
  predicate IsOpOf(o: RegOp, r: Renamed, busy: set<nat>) {
    o.p1 == r.p1 && o.p2 == r.p2 && (o.f1 <==> r.p1 in busy) && (o.f2 <==> r.p2 in busy)
  }

  // Main result: what the register file fills into a selected instruction. Each operand that is
  // present, not marked and not due gets the sequential value of its own source; with both filled in,
  // the operation gives the sequential result; an operand that is absent or marked is left as it was.
  lemma {:induction false} OperandsAreSequential(p: Params, sem: Semantics, es: seq<Step>, n: nat, t: Timed, s: nat,
                                                 o: RegOp)
    requires ValidConfig(p.regs) && n <= |es| && TimedRun(p, sem, es, n) == Some(t) && Allowed(p, t.st, Select(s))
    requires Selected(p, t.st, s) < |t.st.core.all|
    requires IsOpOf(o, t.st.core.all[Selected(p, t.st, s)], t.st.disp.busy)
    ensures var u := Selected(p, t.st, s);
            var i := t.st.core.all[u].inst;
            var isa := Isa(sem, p.regs.isaRegs, t.st.core.all, u);
            var filled := WithOperands(t.file, o);
            && i.rs1 < |isa| && i.rs2 < |isa|
            && (o.has1 && !o.f1 && NotDue(t, o.p1) ==> filled.op1 == isa[i.rs1])
            && (o.has2 && !o.f2 && NotDue(t, o.p2) ==> filled.op2 == isa[i.rs2])
            && (o.has1 && o.has2 && !o.f1 && !o.f2 && NotDue(t, o.p1) && NotDue(t, o.p2) ==>
                  sem(i.op, filled.op1, filled.op2) == IsaResult(sem, isa, i))
            && (!o.has1 || o.f1 ==> filled.op1 == o.op1) && (!o.has2 || o.f2 ==> filled.op2 == o.op2)
            && filled == o.(op1 := filled.op1, op2 := filled.op2)
  {
    DispatchReadsSequentially(p, sem, es, n, t, s);
  }

  /* ---------- reading before writing ---------- */

  predicate SameDests(a: seq<RegOp>, b: seq<RegOp>) {
    |a| == |b| && forall i | 0 <= i < |a| :: a[i].pd == b[i].pd
  }

  predicate ReadsSame(file: seq<int>, group: seq<RegOp>, r: nat) {
    Read(file, r) == Read(Written(file, group, |group|), r)
  }

  // Whatever the file of `n` registers holds and whatever the results are, reading `r` before the
  // group is written gives what reading it afterwards gives.
  ghost predicate OrderIrrelevant(n: nat, group: seq<RegOp>, r: nat) {
    forall file: seq<int>, ops: seq<RegOp> | |file| == n && SameDests(ops, group) :: ReadsSame(file, ops, r)
  }

  function AllOnes(group: seq<RegOp>, n: nat): (ops: seq<RegOp>)
    requires n <= |group|
    ensures |ops| == n && forall i | 0 <= i < n :: ops[i] == group[i].(result := 1)
  {
    if n == 0 then [] else AllOnes(group, n - 1) + [group[n - 1].(result := 1)]
  }

  // Main result: without an ordering edge between the write and the reads of a cycle, a read is right
  // for all values if and only if its register is not a destination of the group that is due.
  lemma {:induction false} OrderIrrelevantIff(n: nat, group: seq<RegOp>, r: nat)
    ensures OrderIrrelevant(n, group, r) <==> r == 0 || n <= r || !Writes(group, r)
  {
    if r == 0 || n <= r || !Writes(group, r) {
      forall file: seq<int>, ops: seq<RegOp> | |file| == n && SameDests(ops, group) ensures ReadsSame(file, ops, r) {
        ReadAfterWrite(file, ops, |ops|, r);
      }
    } else {
      var file, ops := seq(n, _ => 0), AllOnes(group, |group|);
      var i :| 0 <= i < |group| && group[i].pd == r;
      assert ops[i].pd == r && SameDests(ops, group);
      ReadAfterWrite(file, ops, |ops|, r);
      assert !ReadsSame(file, ops, r);
    }
  }
}
