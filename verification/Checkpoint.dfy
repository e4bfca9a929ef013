/**
  The branch checkpoint protocol around the undo log: each fetched branch opens a log group and
  takes a register snapshot; resolving the oldest branch drops its pair or rolls everything back.
 */
module Checkpoint {
  import opened Prelude
  import opened UndoLog
  import opened DataBackup

  // Register files are never looked into, so any value will do for them.
  type RegFile = int

  // `branches` lists the unresolved branches, oldest first; true means mispredicted. `base` and
  // `baseRegs` are what memory and registers were when the oldest mispredicted one was fetched,
  // and `wrong` the stores executed since.
  datatype State = State(
    mem: Memory, regs: RegFile, miss: bool,
    groups: seq<seq<Entry>>, snaps: seq<RegFile>, branches: seq<bool>,
    base: Memory, baseRegs: RegFile, wrong: seq<Store>)

  datatype Event = SetRegs(regs: RegFile) | StoreTo(st: Store) | Branch(mispredicted: bool) | Resolve

  function Initial(m: Memory): State {
    State(m, 0, false, [], [], [], m, 0, [])
  }

  predicate Enabled(s: State, e: Event) {
    match e
    case SetRegs(_) => true
    case StoreTo(st) => StoreOk(s.mem, st)
    case Branch(_) => true
    case Resolve => s.branches != [] && s.groups != [] && s.snaps != [] && LogOk(Flatten(s.groups))
  }

  // Stores are logged only on the wrong path and only while a group is open.
  function AfterStore(s: State, st: Store): State
    requires StoreOk(s.mem, st)
  {
    var m' := Write(s.mem, st.addr, st.bytes);
    if s.miss && s.groups != [] then
      s.(mem := m', groups := PushLast(s.groups, Record(s.mem, st.addr, |st.bytes|)), wrong := s.wrong + [st])
    else s.(mem := m')
  }

  function AfterBranch(s: State, mispredicted: bool): State {
    var s' := s.(groups := s.groups + [[]], snaps := s.snaps + [s.regs], branches := s.branches + [mispredicted]);
    if mispredicted && !s.miss then s'.(miss := true, base := s.mem, baseRegs := s.regs, wrong := []) else s'
  }

  function AfterResolve(s: State): State
    requires Enabled(s, Resolve)
  {
    if s.branches[0] then
      s.(mem := Restored(s.mem, Drain(Flatten(s.groups), 0)), regs := s.snaps[0], miss := false,
         groups := [], snaps := [], branches := [])
    else
      s.(groups := s.groups[1..], snaps := s.snaps[1..], branches := s.branches[1..])
  }

  function Next(s: State, e: Event): State
    requires Enabled(s, e)
  {
    match e
    case SetRegs(r) => s.(regs := r)
    case StoreTo(st) => AfterStore(s, st)
    case Branch(b) => AfterBranch(s, b)
    case Resolve => AfterResolve(s)
  }

  function Run(m: Memory, es: seq<Event>, n: nat): Option<State>
    requires n <= |es|
  {
    if n == 0 then Some(Initial(m))
    else
      var r := Run(m, es, n - 1);
      if r.None? || !Enabled(r.value, es[n - 1]) then None else Some(Next(r.value, es[n - 1]))
  }

  /* ---------- the invariant ---------- */

  // Position of the oldest mispredicted branch; the number of branches if there is none.
  function FirstMiss(branches: seq<bool>): (f: nat)
    ensures f <= |branches|
    ensures f < |branches| ==> branches[f]
  {
    if branches == [] || branches[0] then 0 else 1 + FirstMiss(branches[1..])
  }

  lemma {:induction false} FirstMissSnoc(branches: seq<bool>, b: bool)
    ensures var f := FirstMiss(branches);
            FirstMiss(branches + [b]) == if f < |branches| || b then f else f + 1
  {
    if branches == [] {
      assert branches + [b] == [b] && [b][1..] == [];
    } else if !branches[0] {
      assert (branches + [b])[1..] == branches[1..] + [b];
      FirstMissSnoc(branches[1..], b);
    }
  }

  // One group and one snapshot per unresolved branch, in the same order; nothing is logged in a
  // group older than the oldest mispredicted branch.
  predicate Paired(s: State) {
    var f := FirstMiss(s.branches);
    && |s.groups| == |s.snaps| == |s.branches|
    && (s.miss <==> f < |s.branches|)
    && (forall k | 0 <= k < f && k < |s.groups| :: s.groups[k] == [])
    && (s.miss ==> s.snaps[f] == s.baseRegs)
  }

  // On the wrong path the log is exactly what the wrong-path stores overwrote.
  ghost predicate Logged(s: State) {
    if s.miss then
      && StoresOk(s.base, s.wrong)
      && s.mem == After(s.base, s.wrong, |s.wrong|)
      && Flatten(s.groups) == LogOf(s.base, s.wrong, |s.wrong|)
    else Flatten(s.groups) == []
  }

  // Pop never discards a logged store: resolving a correctly predicted branch drops an empty group.
  lemma {:induction false} PopDropsNothing(s: State)
    requires Paired(s) && s.branches != [] && !s.branches[0]
    ensures s.groups[0] == [] && Flatten(s.groups[1..]) == Flatten(s.groups)
  {
    FlattenFirst(s.groups);
    assert [] + Flatten(s.groups[1..]) == Flatten(s.groups[1..]);
  }

  lemma {:induction false} PairedStep(s: State, e: Event)
    requires Paired(s) && Enabled(s, e)
    ensures Paired(Next(s, e))
  {
    match e
    case Branch(b) => FirstMissSnoc(s.branches, b);
    case _ =>
  }

  predicate Extends(long: seq<Store>, short: seq<Store>) {
    |short| <= |long| && forall i | 0 <= i < |short| :: long[i] == short[i]
  }

  lemma {:induction false} PrefixRuns(base: Memory, sts: seq<Store>, long: seq<Store>, k: nat)
    requires k <= |sts| && Extends(long, sts)
    ensures After(base, long, k) == After(base, sts, k)
  {
    if k > 0 {
      PrefixRuns(base, sts, long, k - 1);
      assert long[k - 1] == sts[k - 1];
    }
  }

  lemma {:induction false} PrefixEntry(base: Memory, sts: seq<Store>, long: seq<Store>, k: nat)
    requires k < |sts| && Extends(long, sts) && StoresOk(base, long) && StoresOk(base, sts)
    ensures EntryFor(base, long, k) == EntryFor(base, sts, k)
  {
    PrefixRuns(base, sts, long, k);
  }

  lemma {:induction false} PrefixLogs(base: Memory, sts: seq<Store>, long: seq<Store>, k: nat)
    requires k <= |sts| && Extends(long, sts) && StoresOk(base, long) && StoresOk(base, sts)
    ensures LogOf(base, long, k) == LogOf(base, sts, k)
  {
    var a, b := LogOf(base, long, k), LogOf(base, sts, k);
    forall i | 0 <= i < k ensures a[i] == b[i] {
      LogAt(base, long, k, i);
      LogAt(base, sts, k, i);
      PrefixEntry(base, sts, long, i);
    }
  }

  // Appending a store to a run appends its record to the log.
  lemma {:induction false} LogSnoc(base: Memory, sts: seq<Store>, st: Store, long: seq<Store>)
    requires long == sts + [st] && StoresOk(base, sts) && StoreOk(base, st)
    ensures StoresOk(base, long)
    ensures var m := After(base, sts, |sts|);
            && After(base, long, |long|) == Write(m, st.addr, st.bytes)
            && LogOf(base, long, |long|) == LogOf(base, sts, |sts|) + [Record(m, st.addr, |st.bytes|)]
  {
    assert Extends(long, sts) && long[|sts|] == st;
    PrefixRuns(base, sts, long, |sts|);
    PrefixLogs(base, sts, long, |sts|);
  }

  lemma {:induction false} LoggedStore(s: State, st: Store)
    requires Paired(s) && Logged(s) && StoreOk(s.mem, st)
    ensures Logged(AfterStore(s, st))
  {
    if s.miss {
      var s' := AfterStore(s, st);
      LogSnoc(s.base, s.wrong, st, s.wrong + [st]);
      assert s'.wrong == s.wrong + [st] && s'.base == s.base;
      assert Flatten(s'.groups) == Flatten(s.groups) + [Record(s.mem, st.addr, |st.bytes|)];
    }
  }

  lemma {:induction false} LoggedStep(s: State, e: Event)
    requires Paired(s) && Logged(s) && Enabled(s, e)
    ensures Logged(Next(s, e))
  {
    match e
    case SetRegs(_) =>
    case StoreTo(st) => LoggedStore(s, st);
    case Branch(_) => FlattenSnoc(s.groups, []);
    case Resolve =>
      if !s.branches[0] {
        PopDropsNothing(s);
      }
  }

  // Resolving is always possible while a branch is unresolved.
  lemma {:induction false} ResolvePossible(s: State)
    requires Paired(s) && Logged(s) && s.branches != []
    ensures Enabled(s, Resolve)
  {
    if s.miss {
      LogIsOk(s.base, s.wrong);
    }
  }

  lemma {:induction false} RunInv(m: Memory, es: seq<Event>, n: nat, s: State)
    requires n <= |es| && Run(m, es, n) == Some(s)
    ensures Paired(s) && Logged(s)
  {
    if n > 0 {
      var s0 := Run(m, es, n - 1).value;
      RunInv(m, es, n - 1, s0);
      PairedStep(s0, es[n - 1]);
      LoggedStep(s0, es[n - 1]);
    }
  }

  // State `t` was current when a mispredicted branch was fetched on the right path, and memory
  // and registers were those remembered as the base of `s`.
  predicate IsBaseOf(m: Memory, es: seq<Event>, k: nat, s: State) {
    && k < |es| && es[k] == Branch(true)
    && var r := Run(m, es, k);
       r.Some? && !r.value.miss && r.value.mem == s.base && r.value.regs == s.baseRegs
  }

  // Every state after event `k` up to event `n` is on the wrong path.
  predicate WrongPath(m: Memory, es: seq<Event>, k: nat, n: nat) {
    n <= |es| && forall j: nat | k < j <= n :: Run(m, es, j).Some? && Run(m, es, j).value.miss
  }

  lemma {:induction false} RunBase(m: Memory, es: seq<Event>, n: nat, s: State) returns (k: nat)
    requires n <= |es| && Run(m, es, n) == Some(s) && s.miss
    ensures k < n && IsBaseOf(m, es, k, s) && WrongPath(m, es, k, n)
  {
    var s0 := Run(m, es, n - 1).value;
    if s0.miss {
      k := RunBase(m, es, n - 1, s0);
    } else {
      k := n - 1;
    }
  }

  // Main result: in every run, when the oldest unresolved branch is mispredicted, resolving it puts
  // memory and registers back to what they were when that branch was fetched and empties both logs,
  // provided the wrong-path stores were recoverable. Event `k` fetched that very branch: the run was on
  // the right path before it and has been on the wrong path ever since, and the branch that started a
  // wrong path is the oldest mispredicted one, here branches[0].
  lemma {:induction false} MissRestoresCheckpoint(m: Memory, es: seq<Event>, s: State) returns (k: nat)
    requires Run(m, es, |es|) == Some(s) && s.branches != [] && s.branches[0]
    requires Recoverable(StoreShapes(s.wrong))
    ensures Enabled(s, Resolve)
    ensures var s' := Next(s, Resolve);
            && s'.groups == [] && s'.snaps == [] && !s'.miss
            && k < |es| && es[k] == Branch(true) && Run(m, es, k).Some? && !Run(m, es, k).value.miss
            && WrongPath(m, es, k, |es|)
            && s'.mem == Run(m, es, k).value.mem && s'.regs == Run(m, es, k).value.regs
  {
    RunInv(m, es, |es|, s);
    ResolvePossible(s);
    RollbackRestores(s.base, s.wrong);
    k := RunBase(m, es, |es|, s);
  }

  // Main result: in every run there is one group and one snapshot per unresolved branch, a branch
  // can always be resolved, and dropping a correctly predicted one loses no logged store.
  lemma {:induction false} CheckpointsMatchBranches(m: Memory, es: seq<Event>, s: State)
    requires Run(m, es, |es|) == Some(s)
    ensures |s.groups| == |s.snaps| == |s.branches|
    ensures s.branches != [] ==> Enabled(s, Resolve)
    ensures s.branches != [] && !s.branches[0] ==> s.groups[0] == [] && Flatten(s.groups[1..]) == Flatten(s.groups)
  {
    RunInv(m, es, |es|, s);
    if s.branches != [] {
      ResolvePossible(s);
      if !s.branches[0] {
        PopDropsNothing(s);
      }
    }
  }

  /* ---------- only the right path counts ---------- */

  // Read off the events alone: the branches unresolved after the first `n`, ...
  function Unresolved(es: seq<Event>, n: nat): seq<bool>
    requires n <= |es|
  {
    if n == 0 then [] else UnresolvedAfter(Unresolved(es, n - 1), es[n - 1])
  }

  function UnresolvedAfter(branches: seq<bool>, e: Event): seq<bool> {
    match e
    case Branch(b) => branches + [b]
    case Resolve => if branches == [] || branches[0] then [] else branches[1..]
    case _ => branches
  }

  // ... and the stores made while one of them was mispredicted.
  function WrongStores(es: seq<Event>, n: nat): seq<Store>
    requires n <= |es|
  {
    if n == 0 then [] else WrongAfter(WrongStores(es, n - 1), Unresolved(es, n - 1), es[n - 1])
  }

  function WrongAfter(wrong: seq<Store>, branches: seq<bool>, e: Event): seq<Store> {
    if true !in branches || true !in UnresolvedAfter(branches, e) then []
    else if e.StoreTo? then wrong + [e.st]
    else wrong
  }

  // A machine that knows no branches and executes the stores and register updates of the right path.
  datatype Plain = Plain(mem: Memory, regs: RegFile)

  function Straight(m: Memory, es: seq<Event>, n: nat): Plain
    requires n <= |es|
  {
    if n == 0 then Plain(m, 0)
    else if true in Unresolved(es, n - 1) then Straight(m, es, n - 1)
    else PlainAfter(Straight(m, es, n - 1), es[n - 1])
  }

  function PlainAfter(p: Plain, e: Event): Plain {
    match e
    case SetRegs(r) => p.(regs := r)
    case StoreTo(st) => if StoreOk(p.mem, st) then p.(mem := Write(p.mem, st.addr, st.bytes)) else p
    case _ => p
  }

  // Every misprediction resolved so far came after stores that can be undone.
  ghost predicate Undoable(es: seq<Event>, n: nat)
    requires n <= |es|
  {
    forall k | 0 <= k < n && es[k] == Resolve && Unresolved(es, k) != [] && Unresolved(es, k)[0] ::
      Recoverable(StoreShapes(WrongStores(es, k)))
  }

  // State `s` is what the events say: on the right path it is that of the plain machine, on a wrong
  // path that is what it will go back to.
  predicate Follows(s: State, p: Plain, branches: seq<bool>, wrong: seq<Store>) {
    && s.branches == branches && (s.miss <==> true in branches)
    && (s.miss ==> s.wrong == wrong)
    && p == if s.miss then Plain(s.base, s.baseRegs) else Plain(s.mem, s.regs)
  }

  lemma {:induction false} MissIsOff(branches: seq<bool>)
    ensures true in branches <==> FirstMiss(branches) < |branches|
  {
    if branches != [] && !branches[0] {
      MissIsOff(branches[1..]);
      assert branches == [branches[0]] + branches[1..];
    }
  }

  lemma {:induction false} ResolveFollows(s: State, p: Plain, branches: seq<bool>, wrong: seq<Store>)
    requires Paired(s) && Logged(s) && Enabled(s, Resolve) && Follows(s, p, branches, wrong)
    requires branches[0] ==> Recoverable(StoreShapes(wrong))
    ensures Follows(Next(s, Resolve), p, UnresolvedAfter(branches, Resolve), WrongAfter(wrong, branches, Resolve))
  {
    MissIsOff(branches);
    if branches[0] {
      RollbackRestores(s.base, s.wrong);
    } else {
      assert branches == [false] + branches[1..];
      assert true in branches <==> true in branches[1..];
    }
  }

  lemma {:induction false} FollowsStep(s: State, e: Event, p: Plain, branches: seq<bool>, wrong: seq<Store>)
    requires Paired(s) && Logged(s) && Enabled(s, e) && Follows(s, p, branches, wrong)
    requires e == Resolve && branches[0] ==> Recoverable(StoreShapes(wrong))
    ensures Follows(Next(s, e), if true in branches then p else PlainAfter(p, e),
                    UnresolvedAfter(branches, e), WrongAfter(wrong, branches, e))
  {
    match e
    case Branch(b) => assert true in branches + [b] <==> true in branches || b;
    case Resolve => ResolveFollows(s, p, branches, wrong);
    case StoreTo(_) => assert s.miss ==> s.groups != [] by { MissIsOff(branches); }
    case SetRegs(_) =>
  }

  // Main result: the right path alone counts. In every run whose mispredictions came after stores that
  // can be undone, memory and registers on the right path are those of a machine that executes the
  // right-path stores and register updates and nothing else, however many branches were fetched,
  // resolved and rolled back on the way.
  lemma {:induction false} RightPathAlone(m: Memory, es: seq<Event>, n: nat, s: State)
    requires n <= |es| && Run(m, es, n) == Some(s) && Undoable(es, n)
    ensures Follows(s, Straight(m, es, n), Unresolved(es, n), WrongStores(es, n))
    ensures true !in Unresolved(es, n) ==> s.mem == Straight(m, es, n).mem && s.regs == Straight(m, es, n).regs
  {
    if n > 0 {
      var s0 := Run(m, es, n - 1).value;
      RightPathAlone(m, es, n - 1, s0);
      RunInv(m, es, n - 1, s0);
      FollowsStep(s0, es[n - 1], Straight(m, es, n - 1), Unresolved(es, n - 1), WrongStores(es, n - 1));
    }
  }

  /* ---------- the adapter ---------- */

  lemma {:induction false} LogIsMapped(base: Memory, sts: seq<Store>, m: Memory)
    requires StoresOk(base, sts) && m.Keys == base.Keys
    ensures LogMapped(m, LogOf(base, sts, |sts|))
  {
    forall i | 0 <= i < |sts| ensures Mapped(m, LogOf(base, sts, |sts|)[i].addr, LogOf(base, sts, |sts|)[i].len) {
      LogAt(base, sts, |sts|, i);
      assert StoreOk(base, sts[i]);
    }
  }

  // The object that owns the log, the snapshots and the prediction flag.
  class Adapter {
    const backup: Backup
    var snaps: seq<RegFile>
    var mem: Memory
    var regs: RegFile
    var miss: bool

    ghost predicate Matches(s: State)
      reads this, backup
    {
      && mem == s.mem && regs == s.regs && miss == s.miss && snaps == s.snaps
      && backup.groups == s.groups && backup.stable
    }

    constructor (m: Memory)
      ensures Matches(Initial(m)) && fresh(backup)
    {
      backup := new Backup();
      snaps, mem, regs, miss := [], m, 0, false;
    }

    // A fetched branch opens a group and a snapshot; a mispredicted one starts the wrong path.
    method FetchBranch(mispredicted: bool, ghost s: State)
      requires Matches(s)
      modifies this, backup
      ensures Matches(AfterBranch(s, mispredicted))
    {
      backup.MakeBackupEntry();
      snaps := snaps + [regs];
      if mispredicted {
        miss := true;
      }
    }

    // On the wrong path the overwritten bytes are logged before the store.
    method StoreData(st: Store, ghost s: State)
      requires Matches(s) && StoreOk(mem, st)
      modifies this, backup
      ensures Matches(AfterStore(s, st))
    {
      if miss {
        var empty := backup.IsEmpty();
        if !empty {
          backup.Push(Record(mem, st.addr, |st.bytes|));
        }
      }
      mem := Write(mem, st.addr, st.bytes);
    }

    method RegRollBack()
      requires snaps != []
      modifies this`regs, this`snaps
      ensures regs == old(snaps)[0] && snaps == []
    {
      regs := snaps[0];
      while snaps != []
        invariant regs == old(snaps)[0]
        decreases |snaps|
      {
        snaps := snaps[1..];
      }
    }

    // Resolving the oldest branch drops its pair, or rolls memory and registers back and ends the
    // wrong path.
    method BranchResolve(missed: bool, ghost s: State)
      requires Matches(s) && Paired(s) && Logged(s) && s.branches != [] && missed == s.branches[0]
      modifies this, backup
      ensures Enabled(s, Resolve) && Matches(AfterResolve(s))
    {
      ResolvePossible(s);
      if missed {
        LogIsMapped(s.base, s.wrong, s.mem);
        mem := MemoryRollBack(backup, mem);
        RegRollBack();
        miss := false;
      } else {
        backup.Pop();
        snaps := snaps[1..];
      }
    }
  }
}
