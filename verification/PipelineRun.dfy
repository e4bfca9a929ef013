/**
  What holds after every run of the pipeline: it is a run of the rename machine in which every
  execution respects its dependences, no wakeup is lost, no instruction is lost or duplicated,
  credits balance and retirement is in program order.
 */
module PipelineRun {
  import opened Prelude
  import opened RenameCore
  import opened RenameMachine
  import opened Pipeline
  import opened PipelineLanes
  import opened PipelineInv

  // The step of the rename machine an action performs, if any.
  function Effect(st: Pipe, a: Action): seq<Event> {
    match a
    case RenameOne => if st.front.queue != [] then [Rename(st.front.queue[0])] else []
    case Arbitrate(s) => if s < |st.lanes| && st.lanes[s].wbQueue != [] then [Execute(st.lanes[s].wbQueue[0])] else []
    case RenameCommit => [Commit]
    case _ => []
  }

  function Project(p: Params, sem: Semantics, acts: seq<Action>): seq<Event>
    requires ValidConfig(p.regs)
  {
    if acts == [] || Drive(p, sem, acts[..|acts| - 1]).None? then []
    else
      Project(p, sem, acts[..|acts| - 1]) + Effect(Drive(p, sem, acts[..|acts| - 1]).value, acts[|acts| - 1])
  }

  ghost predicate Driven(p: Params, sem: Semantics, acts: seq<Action>, st: Pipe) {
    ValidConfig(p.regs) && Drive(p, sem, acts) == Some(st)
  }

  lemma {:induction false} DriveSnoc(p: Params, sem: Semantics, acts: seq<Action>, st: Pipe, a: Action)
    requires Driven(p, sem, acts, st) && Allowed(p, st, a)
    ensures Driven(p, sem, acts + [a], Act(p, sem, st, a))
  {
    assert (acts + [a])[..|acts|] == acts;
  }

  /* ---------- one lemma per family, by induction on the run ---------- */

  lemma {:induction false} RunOrder(p: Params, sem: Semantics, acts: seq<Action>, st: Pipe)
    requires Driven(p, sem, acts, st)
    ensures OrderOk(st)
  {
    if acts != [] {
      var st0 := Drive(p, sem, acts[..|acts| - 1]).value;
      RunOrder(p, sem, acts[..|acts| - 1], st0);
      OrderStep(p, sem, st0, acts[|acts| - 1]);
    }
  }

  lemma {:induction false} StartCount(lps: seq<LaneParams>, lanes: seq<Lane>, u: nat)
    requires |lanes| == |lps| && forall i | 0 <= i < |lps| :: lanes[i] == StartLane(lps[i])
    ensures LanesCount(lanes, u) == 0
  {
    if lanes != [] {
      assert Uids([]) == [];
      assert forall i | 0 <= i < |lps| - 1 :: lanes[1..][i] == lanes[i + 1] && lps[1..][i] == lps[i + 1];
      StartCount(lps[1..], lanes[1..], u);
    }
  }

  lemma {:induction false} RunPlaced(p: Params, sem: Semantics, acts: seq<Action>, st: Pipe, u: nat)
    requires Driven(p, sem, acts, st)
    ensures PlacedAt(st.disp, st.lanes, st.core.done, u)
  {
    if acts == [] {
      StartCount(p.lanes, st.lanes, u);
    } else {
      var st0 := Drive(p, sem, acts[..|acts| - 1]).value;
      RunPlaced(p, sem, acts[..|acts| - 1], st0, u);
      PlacedStep(p, sem, st0, acts[|acts| - 1], u);
    }
  }

  lemma {:induction false} RunPlacedAll(p: Params, sem: Semantics, acts: seq<Action>, st: Pipe)
    requires Driven(p, sem, acts, st)
    ensures PlacedOk(st)
  {
    forall u: nat ensures PlacedAt(st.disp, st.lanes, st.core.done, u) {
      RunPlaced(p, sem, acts, st, u);
    }
  }

  lemma {:induction false} RunCast(p: Params, sem: Semantics, acts: seq<Action>, st: Pipe)
    requires Driven(p, sem, acts, st)
    ensures CastOk(st)
  {
    if acts != [] {
      var acts', a := acts[..|acts| - 1], acts[|acts| - 1];
      var st0 := Drive(p, sem, acts').value;
      RunCast(p, sem, acts', st0);
      RunOrder(p, sem, acts', st0);
      RunPlacedAll(p, sem, acts', st0);
      if a.Arbitrate? {
        WriteBackIsFirst(st0, a.s);
      }
      CastStep(p, sem, st0, a);
    }
  }

  lemma {:induction false} RunRegisters(p: Params, sem: Semantics, acts: seq<Action>, st: Pipe)
    requires Driven(p, sem, acts, st)
    ensures RegistersOk(st)
    decreases |acts|, 0
  {
    if acts != [] {
      var acts' := acts[..|acts| - 1];
      var st0 := Drive(p, sem, acts').value;
      RunRegisters(p, sem, acts', st0);
      RunOrder(p, sem, acts', st0);
      RunCast(p, sem, acts', st0);
      PipelineRefinesRenaming(p, sem, acts', st0);
      RunRegs(p.regs, sem, Project(p, sem, acts'));
      RegistersStep(p, sem, st0, acts[|acts| - 1]);
    }
  }

  lemma {:induction false} RunBusy(p: Params, sem: Semantics, acts: seq<Action>, st: Pipe)
    requires Driven(p, sem, acts, st)
    ensures BusyOk(st.core.all, st.core.done, st.cast, st.disp, Dispatched(|st.core.all|, st.disp))
    decreases |acts|, 0
  {
    if acts == [] {
      forall r: nat ensures BusyAt([], [], [], st.disp, 0, r) {
      }
    } else {
      var acts' := acts[..|acts| - 1];
      var st0 := Drive(p, sem, acts').value;
      RunBusy(p, sem, acts', st0);
      RunOrder(p, sem, acts', st0);
      RunCast(p, sem, acts', st0);
      RunRegisters(p, sem, acts', st0);
      RunPlacedAll(p, sem, acts', st0);
      BusyStep(p, sem, st0, acts[|acts| - 1]);
    }
  }

  lemma {:induction false} RunLanes(p: Params, sem: Semantics, acts: seq<Action>, st: Pipe)
    requires Driven(p, sem, acts, st)
    ensures LanesOk(st)
    decreases |acts|, 0
  {
    if acts != [] {
      var acts' := acts[..|acts| - 1];
      var st0 := Drive(p, sem, acts').value;
      RunLanes(p, sem, acts', st0);
      RunOrder(p, sem, acts', st0);
      RunCast(p, sem, acts', st0);
      RunRegisters(p, sem, acts', st0);
      RunPlacedAll(p, sem, acts', st0);
      RunBusy(p, sem, acts', st0);
      PipelineRefinesRenaming(p, sem, acts', st0);
      RunRegs(p.regs, sem, Project(p, sem, acts'));
      RunValues(p.regs, sem, Project(p, sem, acts'));
      LanesStep(p, sem, st0, acts[|acts| - 1]);
    }
  }

  /* ---------- the pipeline refines the rename machine ---------- */

  // What leaves a write-back queue is in flight, has not executed, and all writers of its
  // sources have: the execution respects its dependences.
  lemma {:induction false} ArbitrateIsSafe(p: Params, st: Pipe, s: nat)
    requires WellShaped(p, st) && Allowed(p, st, Arbitrate(s)) && PlacedOk(st) && LanesOk(st)
    requires forall u | 0 <= u < st.core.committed :: st.core.done[u]
    ensures Enabled(p.regs, st.core, Execute(st.lanes[s].wbQueue[0]))
  {
    WriteBackIsFirst(st, s);
    var b := Allocated(|st.core.all|, st.rob);
    assert LaneOk(st.core.all, st.core.done, st.cast, Dispatched(|st.core.all|, st.disp), b, st.lanes[s]);
    assert UidReady(st.core.all, st.core.done, b, st.lanes[s].wbQueue[0]);
  }

  // What is retired is the oldest in-flight instruction, and it has executed.
  lemma {:induction false} CommitIsSafe(p: Params, st: Pipe)
    requires WellShaped(p, st) && st.rob.retiring != [] && OrderOk(st) && CastOk(st) && RegsInv(p.regs, st.core)
    ensures st.rob.retiring[0] == st.core.committed
    ensures Enabled(p.regs, st.core, Commit) && Allowed(p, st, RenameCommit)
  {
    assert Seen(st.core.done, st.cast, st.core.committed);
    CommitKeepsInv(p.regs, st.core.regs, st.core.all, st.core.committed);
  }

  lemma {:induction false} EffectStep(p: Params, sem: Semantics, st: Pipe, a: Action)
    requires WellShaped(p, st) && Allowed(p, st, a)
    requires a.Arbitrate? ==> Enabled(p.regs, st.core, Execute(st.lanes[a.s].wbQueue[0]))
    requires a.RenameCommit? ==> st.rob.retiring[0] == st.core.committed && Enabled(p.regs, st.core, Commit)
    ensures Effect(st, a) == [] ==> Act(p, sem, st, a).core == st.core
    ensures Effect(st, a) != [] ==>
              && Enabled(p.regs, st.core, Effect(st, a)[0]) && |Effect(st, a)| == 1
              && Act(p, sem, st, a).core == Next(p.regs, sem, st.core, Effect(st, a)[0])
  {
  }

  // Main result: every run of the pipeline is a run of the rename machine. In particular every
  // execution it performs is one the rename machine allows: all older writers of both sources
  // have executed, however often physical registers were reused.
  lemma {:induction false} PipelineRefinesRenaming(p: Params, sem: Semantics, acts: seq<Action>, st: Pipe)
    requires Driven(p, sem, acts, st)
    ensures Run(p.regs, sem, Project(p, sem, acts)) == Some(st.core)
    decreases |acts|, 1
  {
    if acts != [] {
      var acts', a := acts[..|acts| - 1], acts[|acts| - 1];
      var st0 := Drive(p, sem, acts').value;
      var es := Project(p, sem, acts');
      PipelineRefinesRenaming(p, sem, acts', st0);
      RunRegs(p.regs, sem, es);
      RunValues(p.regs, sem, es);
      RunOrder(p, sem, acts', st0);
      RunCast(p, sem, acts', st0);
      if a.Arbitrate? {
        RunPlacedAll(p, sem, acts', st0);
        RunLanes(p, sem, acts', st0);
        ArbitrateIsSafe(p, st0, a.s);
      } else if a.RenameCommit? {
        CommitIsSafe(p, st0);
      }
      EffectStep(p, sem, st0, a);
      var ev := Effect(st0, a);
      if ev != [] {
        RunSnoc(p.regs, sem, es, ev[0]);
        assert es + ev == es + [ev[0]];
      } else {
        assert es + ev == es;
      }
    }
  }

  // So renaming preserves meaning in the pipeline: after every run the committed map denotes the
  // sequential register state of the committed instructions.
  lemma {:induction false} PipelineComputesSequentially(p: Params, sem: Semantics, acts: seq<Action>, st: Pipe)
    requires Driven(p, sem, acts, st)
    ensures forall x | 0 <= x < p.regs.isaRegs ::
              Read(st.core.prf, st.core.regs.backup[x]) == Isa(sem, p.regs.isaRegs, st.core.all, st.core.committed)[x]
  {
    PipelineRefinesRenaming(p, sem, acts, st);
    RenamingPreservesMeaning(p.regs, sem, Project(p, sem, acts), st.core);
  }

  /* ---------- wakeup ---------- */

  // Issue safety: whatever has been passed to a function unit has all writers of its sources
  // executed, and its operands read as in sequential execution.
  lemma {:induction false} IssueIsSafe(p: Params, sem: Semantics, acts: seq<Action>, st: Pipe, s: nat, us: seq<nat>,
                                       i: nat)
    requires Driven(p, sem, acts, st) && s < |st.lanes| && i < |us|
    requires us in {st.lanes[s].fuSent, st.lanes[s].fuArriving, st.lanes[s].fuQueue,
                    st.lanes[s].wbArriving, st.lanes[s].wbQueue}
    ensures us[i] < |st.core.all| == |st.core.done| && SourcesSettled(st.core.all, st.core.done, us[i])
    ensures st.core.committed <= us[i] ==>
              Output(sem, st.core.prf, st.core.all[us[i]])
              == IsaResult(sem, Isa(sem, p.regs.isaRegs, st.core.all, us[i]), st.core.all[us[i]].inst)
  {
    RunLanes(p, sem, acts, st);
    var b := Allocated(|st.core.all|, st.rob);
    assert LaneOk(st.core.all, st.core.done, st.cast, Dispatched(|st.core.all|, st.disp), b, st.lanes[s]);
    assert UidReady(st.core.all, st.core.done, b, us[i]);
    PipelineRefinesRenaming(p, sem, acts, st);
    RenamingPreservesMeaning(p.regs, sem, Project(p, sem, acts), st.core);
  }

  predicate WaitsFor(st: Pipe, l: Lane, tab: Table, u: nat, r: nat) {
    InBucket(tab, r, u) && HasPendingWriter(st.core.all, st.core.done, st.cast, l.forwards, u, r)
  }

  // No lost wakeup: an operand that is not valid is registered in the dependency table under its
  // register and has a strictly older writer that has not executed or whose result is still on
  // its way to this station.
  lemma {:induction false} NoLostWakeup(p: Params, sem: Semantics, acts: seq<Action>, st: Pipe, s: nat, i: nat)
    requires Driven(p, sem, acts, st) && s < |st.lanes| && i < |st.lanes[s].entries|
    ensures var l := st.lanes[s];
            var e := l.entries[i];
            && e.uid < |st.core.all|
            && (!e.operands.v1 ==> WaitsFor(st, l, l.tab1, e.uid, st.core.all[e.uid].p1))
            && (!e.operands.v2 ==> WaitsFor(st, l, l.tab2, e.uid, st.core.all[e.uid].p2))
  {
    RunLanes(p, sem, acts, st);
    var l, b := st.lanes[s], Allocated(|st.core.all|, st.rob);
    assert LaneOk(st.core.all, st.core.done, st.cast, Dispatched(|st.core.all|, st.disp), b, l);
    assert EntryOk(st.core.all, st.core.done, st.cast, l.forwards, b, l.tab1, l.tab2, l.entries[i]);
  }

  // So an instruction in a station whose elders have all executed, with no result on its way,
  // never waits on an operand.
  lemma {:induction false} OldestNeverWaits(p: Params, sem: Semantics, acts: seq<Action>, st: Pipe, s: nat, i: nat)
    requires Driven(p, sem, acts, st) && s < |st.lanes| && i < |st.lanes[s].entries|
    requires st.cast == [] && st.lanes[s].forwards == []
    requires forall q | 0 <= q < st.lanes[s].entries[i].uid && q < |st.core.done| :: st.core.done[q]
    ensures st.lanes[s].entries[i].operands == Operands(true, true)
  {
    NoLostWakeup(p, sem, acts, st, s, i);
  }

  // The allocation-first edge is needed: where the only result an arriving operand waits for is
  // also due for forwarding, forwarding it first leaves the operand waiting for nobody.
  lemma {:induction false} ForwardFirstLosesWakeup(all: seq<Renamed>, done: seq<bool>, cast: seq<nat>, l: Lane)
    requires |all| == |done| && l.arriving != [] && l.forwards != [] && l.forwards[0] < |all|
    requires l.arriving[0].uid < |all| && l.arriving[0].f1
    requires all[l.arriving[0].uid].p1 == all[l.forwards[0]].pd
    requires Seen(done, cast, l.forwards[0]) && l.forwards[0] !in l.forwards[1..]
    requires forall q | 0 <= q < l.arriving[0].uid && q != l.forwards[0] ::
               !PendingWriter(all, done, cast, l.forwards, q, all[l.forwards[0]].pd)
    ensures var u := l.arriving[0].uid;
            var late := LaneNext(all, Resolve(l, all[l.forwards[0]].pd).(forwards := l.forwards[1..]), Arrive);
            && late.entries[|l.entries|].uid == u && !late.entries[|l.entries|].operands.v1
            && !HasPendingWriter(all, done, cast, late.forwards, u, all[u].p1)
  {
    var u, a, r := l.arriving[0].uid, l.forwards[0], all[l.forwards[0]].pd;
    forall q | 0 <= q < u ensures !PendingWriter(all, done, cast, l.forwards[1..], q, r) {
      assert q != a ==> !PendingWriter(all, done, cast, l.forwards, q, r);
    }
  }

  // The state with the results due at dispatch pushed aside, as if selection came first.
  function Unhandled(st: Pipe): Pipe {
    st.(disp := st.disp.(cast := []))
  }

  // The write-back-first edge is needed too: where the only result a source waits for is due at
  // dispatch in this cycle, selecting first marks the source, and since the same result is forwarded
  // to the station in this cycle, before the instruction gets there, the mark waits for nobody.
  lemma {:induction false} SelectFirstLosesWakeup(p: Params, st: Pipe, s: nat)
    requires WellShaped(p, st) && st.disp.cast != [] && Allowed(p, Unhandled(st), Select(s))
    requires |st.core.all| == |st.core.done| && Seen(st.core.done, st.cast, st.disp.cast[0])
    requires var q := st.disp.queue;
             var u := q[FirstEligible(st.core.all, p.lanes[s].supports, q)].uid;
             var r := st.core.all[st.disp.cast[0]].pd;
             && st.core.all[u].p1 == r && r in st.disp.busy
             && forall w | 0 <= w < u && w != st.disp.cast[0] ::
                  !PendingWriter(st.core.all, st.core.done, st.cast, [], w, r)
    ensures var early := AfterSelect(p, Unhandled(st), s).lanes[s];
            var w := early.sent[|early.sent| - 1];
            && w.uid < |st.core.all| && w.f1
            && !HasPendingWriter(st.core.all, st.core.done, st.cast, [], w.uid, st.core.all[w.uid].p1)
  {
    var u := st.disp.queue[FirstEligible(st.core.all, p.lanes[s].supports, st.disp.queue)].uid;
    var r := st.core.all[u].p1;
    forall w | 0 <= w < u ensures !PendingWriter(st.core.all, st.core.done, st.cast, [], w, r) {
      assert w == st.disp.cast[0] ==> Seen(st.core.done, st.cast, w);
    }
  }

  /* ---------- exactly once, credits, retirement ---------- */

  lemma {:induction false} RunTyped(p: Params, sem: Semantics, acts: seq<Action>, st: Pipe, s: nat)
    requires Driven(p, sem, acts, st) && s < |st.lanes|
    ensures TypedOk(p, st, s)
  {
    if acts == [] {
      forall u: nat ensures TypedAt(st.core.all, p.lanes[s].supports, st.lanes[s], u) {
        assert Uids([]) == [];
      }
    } else {
      var st0 := Drive(p, sem, acts[..|acts| - 1]).value;
      RunTyped(p, sem, acts[..|acts| - 1], st0, s);
      TypedStep(p, sem, st0, acts[|acts| - 1], s);
    }
  }

  // Exactly-once flow: every renamed instruction that has not been written back is in exactly one
  // place between renaming and write-back, and one that has been is in none; a lane holds only
  // instructions of a type it supports.
  lemma {:induction false} ExactlyOnce(p: Params, sem: Semantics, acts: seq<Action>, st: Pipe, u: nat, s: nat)
    requires Driven(p, sem, acts, st) && s < |st.lanes|
    ensures Places(st.disp, st.lanes, u) == if u < |st.core.done| && !st.core.done[u] then 1 else 0
    ensures LaneCount(st.lanes[s], u) > 0 ==> u < |st.core.all| && st.core.all[u].inst.fu in p.lanes[s].supports
  {
    RunPlaced(p, sem, acts, st, u);
    RunTyped(p, sem, acts, st, s);
    assert TypedAt(st.core.all, p.lanes[s].supports, st.lanes[s], u);
  }

  // Credit conservation on every link, in every run.
  lemma {:induction false} CreditsBalance(p: Params, sem: Semantics, acts: seq<Action>, st: Pipe)
    requires Driven(p, sem, acts, st)
    ensures CreditsOk(p, st)
  {
    if acts != [] {
      var st0 := Drive(p, sem, acts[..|acts| - 1]).value;
      CreditsBalance(p, sem, acts[..|acts| - 1], st0);
      CreditsStep(p, sem, st0, acts[|acts| - 1]);
    }
  }

  // Hence no buffer overflows: everything on its way fits.
  lemma {:induction false} NothingOverflows(p: Params, sem: Semantics, acts: seq<Action>, st: Pipe, s: nat)
    requires Driven(p, sem, acts, st) && s < |st.lanes|
    ensures |st.rob.entries| + |st.rob.arriving| + |st.rob.sent| <= p.robDepth
    ensures |Unissued(st.disp.queue)| + |st.disp.arriving| + |st.disp.sent| <= p.dispDepth
    ensures |Unissued(st.lanes[s].entries)| + |st.lanes[s].arriving| + |st.lanes[s].sent| <= p.lanes[s].depth
    ensures |st.lanes[s].fuQueue| + |st.lanes[s].fuArriving| + |st.lanes[s].fuSent| <= p.lanes[s].fuDepth
  {
    CreditsBalance(p, sem, acts, st);
    assert LaneCredits(p.lanes[s], st.lanes[s]);
  }

  // In-order retirement: what has been committed, what is being retired, what is in the reorder
  // buffer and what is on its way to it are, in this order, the whole rename order; and an entry
  // is finished or gone only after its own result was written back.
  lemma {:induction false} RetirementInOrder(p: Params, sem: Semantics, acts: seq<Action>, st: Pipe)
    requires Driven(p, sem, acts, st)
    ensures var c, r := st.core.committed, st.rob;
            && (forall i | 0 <= i < |r.retiring| :: r.retiring[i] == c + i)
            && (forall i | 0 <= i < |r.entries| :: r.entries[i].uid == c + |r.retiring| + i)
            && c + |r.retiring| + |r.entries| + |r.arriving| + |r.sent| == |st.core.all| == |st.core.done|
            && (forall u | 0 <= u < c + |r.retiring| :: st.core.done[u])
            && (forall i | 0 <= i < |r.entries| && r.entries[i].finish :: st.core.done[r.entries[i].uid])
    ensures st.rob.retiring != [] ==> st.rob.retiring[0] == st.core.committed && Allowed(p, st, RenameCommit)
  {
    RunOrder(p, sem, acts, st);
    RunCast(p, sem, acts, st);
    var n := |st.core.all|;
    assert Popped(n, st.rob) == st.core.committed + |st.rob.retiring|;
    forall u | 0 <= u < Popped(n, st.rob) ensures st.core.done[u] {
      assert Seen(st.core.done, st.cast, u);
    }
    forall i | 0 <= i < |st.rob.entries| && st.rob.entries[i].finish ensures st.core.done[st.rob.entries[i].uid] {
      assert Seen(st.core.done, st.cast, st.rob.entries[i].uid);
    }
    if st.rob.retiring != [] {
      PipelineRefinesRenaming(p, sem, acts, st);
      RunRegs(p.regs, sem, Project(p, sem, acts));
      CommitIsSafe(p, st);
    }
  }

  lemma {:induction false} OnlyArbitrateFinishes(p: Params, sem: Semantics, st: Pipe, a: Action, u: nat)
    requires WellShaped(p, st) && Allowed(p, st, a)
    requires u < |Act(p, sem, st, a).core.done| && Act(p, sem, st, a).core.done[u]
    ensures (u < |st.core.done| && st.core.done[u]) || (a.Arbitrate? && u == st.lanes[a.s].wbQueue[0])
  {
  }

  lemma {:induction false} RunDoneAllocated(p: Params, sem: Semantics, acts: seq<Action>, st: Pipe, u: nat)
    requires Driven(p, sem, acts, st) && u < |st.core.done| && st.core.done[u]
    ensures u < Allocated(|st.core.all|, st.rob)
  {
    var acts', a := acts[..|acts| - 1], acts[|acts| - 1];
    var st0 := Drive(p, sem, acts').value;
    RunOrder(p, sem, acts', st0);
    OnlyArbitrateFinishes(p, sem, st0, a, u);
    if u < |st0.core.done| && st0.core.done[u] {
      RunDoneAllocated(p, sem, acts', st0, u);
    } else {
      RunLanes(p, sem, acts', st0);
    }
  }

  // A result that reaches the reorder buffer finds its own entry there, not yet finished.
  lemma {:induction false} FinishFindsItsEntry(p: Params, sem: Semantics, acts: seq<Action>, st: Pipe)
    requires Driven(p, sem, acts, st) && st.rob.cast != []
    ensures var k := st.rob.cast[0] - st.core.committed - |st.rob.retiring|;
            0 <= k < |st.rob.entries| && st.rob.entries[k] == RobEntry(st.rob.cast[0], false)
  {
    RunOrder(p, sem, acts, st);
    RunCast(p, sem, acts, st);
    var u, n := st.rob.cast[0], |st.core.all|;
    assert Seen(st.core.done, st.cast, u) && u in st.rob.cast;
    RunDoneAllocated(p, sem, acts, st, u);
    assert Popped(n, st.rob) == st.core.committed + |st.rob.retiring|;
    assert st.rob.entries[u - Popped(n, st.rob)].uid == u;
  }
}
