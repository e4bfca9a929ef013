/**
  The reorder buffer over the ring: allocation hands out ring indices as tags, results are marked
  through tags, and the oldest finished entries are sent for commit.
 */
module RobUnit {
  import opened Prelude
  import opened FuncTypes
  import opened LoopQueues

  datatype RobInst = RobInst(uid: nat, fu: nat, missed: bool)

  datatype Entry = Entry(inst: RobInst, valid: bool, finish: bool, wakedUp: bool)

  function Fresh(i: RobInst): Entry {
    Entry(i, false, false, false)
  }

  function FreshEntries(group: seq<RobInst>, n: nat): (es: seq<Entry>)
    requires n <= |group|
    ensures |es| == n
  {
    if n == 0 then [] else FreshEntries(group, n - 1) + [Fresh(group[n - 1])]
  }

  // Set the finish flag of whatever occupies slot `tag` of a ring whose first entry is at `head`.
  function MarkTag(es: seq<Entry>, depth: nat, head: nat, tag: nat): (es': seq<Entry>)
    ensures |es'| == |es|
    ensures forall i | 0 <= i < |es| ::
              es'[i] == if Slot(depth, head, i) == tag then es[i].(finish := true) else es[i]
  {
    seq(|es|, i requires 0 <= i < |es| => if Slot(depth, head, i) == tag then es[i].(finish := true) else es[i])
  }

  function MarkTags(es: seq<Entry>, depth: nat, head: nat, tags: seq<nat>, n: nat): (es': seq<Entry>)
    requires n <= |tags|
    ensures |es'| == |es|
  {
    if n == 0 then es else MarkTag(MarkTags(es, depth, head, tags, n - 1), depth, head, tags[n - 1])
  }

  /* ---------- what one commit does ---------- */

  predicate Retirable(e: Entry) {
    e.finish && !e.inst.missed
  }

  // How many entries leave the queue: the finished ones at the front, at most `limit`, up to a
  // mispredicted one.
  function PopCount(es: seq<Entry>, limit: nat): (k: nat)
    ensures k <= |es| && k <= limit
  {
    Stop(es, limit, 0)
  }

  // First position from `k` on that is beyond the limit or not retirable.
  function Stop(es: seq<Entry>, limit: nat, k: nat): (r: nat)
    requires k <= |es| && k <= limit
    ensures k <= r <= |es| && r <= limit
    decreases |es| - k
  {
    if k == limit || k == |es| || !Retirable(es[k]) then k else Stop(es, limit, k + 1)
  }

  lemma {:induction false} StopIs(es: seq<Entry>, limit: nat, k: nat)
    requires k <= |es| && k <= limit
    ensures var r := Stop(es, limit, k);
            && (forall j | k <= j < r :: Retirable(es[j]))
            && (r < |es| && r < limit ==> !Retirable(es[r]))
    decreases |es| - k
  {
    if !(k == limit || k == |es| || !Retirable(es[k])) {
      StopIs(es, limit, k + 1);
    }
  }

  // The count is the only number with that property.
  lemma {:induction false} PopCountIs(es: seq<Entry>, limit: nat, k: nat, i: nat)
    requires i <= k <= |es| && k <= limit
    requires forall j | i <= j < k :: Retirable(es[j])
    requires k < |es| && k < limit ==> !Retirable(es[k])
    ensures Stop(es, limit, i) == k
    decreases k - i
  {
    if i < k {
      PopCountIs(es, limit, k, i + 1);
    }
  }

  // A finished mispredicted entry at the front is sent too, stays in the queue and asks for a flush.
  predicate Flushes(es: seq<Entry>, limit: nat) {
    var k := PopCount(es, limit);
    k < limit && k < |es| && es[k].finish
  }

  function SentCount(es: seq<Entry>, limit: nat): (n: nat)
    ensures n <= |es|
  {
    PopCount(es, limit) + if Flushes(es, limit) then 1 else 0
  }

  function Insts(es: seq<Entry>, n: nat): (insts: seq<RobInst>)
    requires n <= |es|
    ensures |insts| == n
  {
    if n == 0 then [] else Insts(es, n - 1) + [es[n - 1].inst]
  }

  // The branches among the first `n`, in order.
  function Branches(es: seq<Entry>, n: nat): seq<RobInst>
    requires n <= |es|
  {
    if n == 0 then []
    else Branches(es, n - 1) + if es[n - 1].inst.fu == BRU then [es[n - 1].inst] else []
  }

  // Where the branches among the first `n` are.
  function BranchPositions(es: seq<Entry>, n: nat): set<nat>
    requires n <= |es|
  {
    set i: nat | i < n && es[i].inst.fu == BRU
  }

  lemma {:induction false} PositionsGrow(es: seq<Entry>, n: nat)
    requires n < |es|
    ensures |BranchPositions(es, n + 1)| == |BranchPositions(es, n)| + if es[n].inst.fu == BRU then 1 else 0
  {
    assert BranchPositions(es, n + 1) == BranchPositions(es, n) + if es[n].inst.fu == BRU then {n} else {};
  }

  lemma {:induction false} NoPositions(es: seq<Entry>)
    ensures |BranchPositions(es, 0)| == 0
  {
    assert BranchPositions(es, 0) == {};
  }

  // Every branch among the first `n` is found where as many branches come before it, and nothing else is.
  lemma {:induction false} BranchesAre(es: seq<Entry>, n: nat)
    requires n <= |es|
    ensures |Branches(es, n)| == |BranchPositions(es, n)|
    ensures forall i | 0 <= i < n && es[i].inst.fu == BRU ::
              |BranchPositions(es, i)| < |Branches(es, n)| && Branches(es, n)[|BranchPositions(es, i)|] == es[i].inst
  {
    if n > 0 {
      BranchesAre(es, n - 1);
      PositionsGrow(es, n - 1);
    } else {
      NoPositions(es);
    }
  }

  // One entry further.
  lemma {:induction false} Grow(es: seq<Entry>, limit: nat, k: nat)
    requires k < |es| && k < limit
    ensures Insts(es, k + 1) == Insts(es, k) + [es[k].inst]
    ensures Branches(es, k + 1) == Branches(es, k) + if es[k].inst.fu == BRU then [es[k].inst] else []
    ensures Stop(es, limit, k) == if Retirable(es[k]) then Stop(es, limit, k + 1) else k
    ensures PopCount(es, limit) == k && !Retirable(es[k]) ==> SentCount(es, limit) == if es[k].finish then k + 1 else k
  {
  }

  lemma {:induction false} SlotStep(depth: nat, head: nat, k: nat)
    ensures head < depth && k < depth ==> Slot(depth, Slot(depth, head, k), 1) == Slot(depth, head, k + 1)
  {
  }

  predicate WakesStore(es: seq<Entry>) {
    es != [] && es[0].inst.fu == STU && !es[0].wakedUp
  }

  // A store that reaches the front is told so, once.
  function WakeFirst(es: seq<Entry>): (es': seq<Entry>)
    ensures |es'| == |es|
  {
    if WakesStore(es) then es[0 := es[0].(wakedUp := true)] else es
  }

  // The loop bounds the width by the size first, which changes nothing.
  lemma {:induction false} CommitWithin(es: seq<Entry>, width: nat, limit: nat)
    requires limit == Min(width, |es|)
    ensures PopCount(es, limit) == PopCount(es, width) && Flushes(es, limit) == Flushes(es, width)
  {
    StopIs(es, limit, 0);
    PopCountIs(es, width, PopCount(es, limit), 0);
  }

  /* ---------- the unit ---------- */

  class Rob {
    const issueWidth: nat
    const instsToRetire: nat
    const rob: LoopQueue<Entry>
    var retired: nat
    var stallCycles: nat

    ghost predicate Valid()
      reads this, rob, rob.dataList
    {
      rob.Valid()
    }

    constructor (issueWidth: nat, depth: nat, instsToRetire: nat)
      requires depth < U32
      ensures Valid() && this.issueWidth == issueWidth && this.instsToRetire == instsToRetire
      ensures retired == 0 && stallCycles == 0
      ensures rob.depth == depth && rob.Items() == [] && fresh(rob) && fresh(rob.dataList)
    {
      this.issueWidth := issueWidth;
      this.instsToRetire := instsToRetire;
      rob := new LoopQueue<Entry>(depth);
      retired, stallCycles := 0, 0;
    }

    method HandleFlush() returns (credit: nat)
      requires Valid()
      modifies rob
      ensures Valid() && credit == rob.depth && rob.Items() == [] && rob.head == 0
    {
      credit := rob.depth;
      rob.Clear();
    }

    // Pushing asserts that there is room. Each new entry starts unfinished, whatever its slot held,
    // and its tag is the slot it occupies.
    method AllocateRob(group: seq<RobInst>) returns (tags: seq<nat>)
      requires Valid() && |rob.Items()| + |group| <= rob.depth
      modifies rob, rob.dataList
      ensures Valid() && |tags| == |group| && rob.head == old(rob.head)
      ensures rob.Items() == old(rob.Items()) + FreshEntries(group, |group|)
      ensures forall i | 0 <= i < |group| :: tags[i] == Slot(rob.depth, rob.head, |old(rob.Items())| + i)
    {
      tags := [];
      ghost var es, head := rob.Items(), rob.head;
      var i := 0;
      while i < |group|
        invariant 0 <= i <= |group| && |tags| == i
        invariant Valid() && rob.head == head && rob.Items() == es + FreshEntries(group, i)
        invariant forall j | 0 <= j < i :: tags[j] == Slot(rob.depth, head, |es| + j)
      {
        var tag := rob.Push(Fresh(group[i]));
        tags := tags + [tag];
        i := i + 1;
      }
    }

    method Finish(tags: seq<nat>)
      requires Valid() && forall i | 0 <= i < |tags| :: tags[i] < rob.depth
      modifies rob.dataList
      ensures Valid() && rob.Items() == MarkTags(old(rob.Items()), rob.depth, rob.head, tags, |tags|)
    {
      ghost var es := rob.Items();
      var i := 0;
      while i < |tags|
        invariant 0 <= i <= |tags|
        invariant Valid() && rob.Items() == MarkTags(es, rob.depth, rob.head, tags, i)
      {
        FinishOne(tags[i]);
        i := i + 1;
      }
    }

    method FinishOne(tag: nat)
      requires Valid() && tag < rob.depth
      modifies rob.dataList
      ensures Valid() && rob.Items() == MarkTag(old(rob.Items()), rob.depth, rob.head, tag)
    {
      var e := rob.Load(tag);
      rob.Store(tag, e.(finish := true));
    }

    method TryWakeupStore() returns (wake: Option<RobInst>)
      requires Valid()
      modifies rob.dataList
      ensures Valid() && rob.Items() == WakeFirst(old(rob.Items()))
      ensures wake == if WakesStore(old(rob.Items())) then Some(old(rob.Items())[0].inst) else None
    {
      wake := None;
      ghost var es := rob.Items();
      var n := rob.Count();
      if n != 0 {
        var e := rob.Front();
        if e.inst.fu == STU && !e.wakedUp {
          rob.Store(rob.head, e.(wakedUp := true));
          assert rob.Items() == es[0 := e.(wakedUp := true)];
          wake := Some(e.inst);
        }
      }
    }

    // Look at the front and, unless it is unfinished or mispredicted, remove it.
    method TakeFront() returns (e: Entry)
      requires Valid() && rob.Items() != []
      modifies rob
      ensures Valid() && e == old(rob.Items())[0]
      ensures rob.Items() == old(rob.Items())[if Retirable(e) then 1 else 0..]
      ensures rob.head == if Retirable(e) then Slot(rob.depth, old(rob.head), 1) else old(rob.head)
    {
      e := rob.Front();
      if e.finish && !e.inst.missed {
        rob.Pop();
      }
    }

    // Send the finished entries at the front, at most `limit`, stopping at a mispredicted one.
    method SendFinished(limit: nat) returns (group: seq<RobInst>, branches: seq<RobInst>, flush: bool)
      requires Valid() && limit <= |rob.Items()|
      modifies rob
      ensures Valid() && rob.Items() == old(rob.Items())[PopCount(old(rob.Items()), limit)..]
      ensures rob.head == Slot(rob.depth, old(rob.head), PopCount(old(rob.Items()), limit))
      ensures flush == Flushes(old(rob.Items()), limit)
      ensures group == Insts(old(rob.Items()), SentCount(old(rob.Items()), limit))
      ensures branches == Branches(old(rob.Items()), SentCount(old(rob.Items()), limit))
    {
      ghost var es, k, head := rob.Items(), 0, rob.head;
      group, branches, flush := [], [], false;
      var issueNum := limit;
      while issueNum > 0
        invariant 0 <= k <= limit == k + issueNum
        invariant Valid() && rob.Items() == es[k..] && rob.head == Slot(rob.depth, head, k)
        invariant Stop(es, limit, k) == PopCount(es, limit)
        invariant group == Insts(es, k) && branches == Branches(es, k)
      {
        var e := TakeFront();
        Grow(es, limit, k);
        SlotStep(rob.depth, head, k);
        if !e.finish {
          return;
        }
        group := group + [e.inst];
        if e.inst.fu == BRU {
          branches := branches + [e.inst];
        }
        if e.inst.missed {
          flush := true;
          return;
        }
        k := k + 1;
        issueNum := issueNum - 1;
      }
    }

    // What is sent is the longest run of finished entries at the front within the width, up to and
    // including a mispredicted one, which alone stays in the queue. The model aborts (`!ok`) after a
    // thousand commits in a row that sent nothing, and stops once the requested number has retired;
    // then a flush is no longer asked for.
    method Commit()
      returns (group: seq<RobInst>, branches: seq<RobInst>, wake: Option<RobInst>, credit: nat,
               flush: bool, stopped: bool, ok: bool)
      requires Valid()
      modifies this, rob, rob.dataList
      ensures Valid() && rob.Items() == WakeFirst(old(rob.Items())[PopCount(old(rob.Items()), issueWidth)..])
      ensures rob.head == Slot(rob.depth, old(rob.head), PopCount(old(rob.Items()), issueWidth))
      ensures flush <==> Flushes(old(rob.Items()), issueWidth) && !stopped
      ensures stopped <==> ok && instsToRetire != 0 && old(retired) + |group| >= instsToRetire
      ensures ok <==> group != [] || old(stallCycles) < 999
      ensures stallCycles == if group != [] then 0 else old(stallCycles) + 1
      ensures group == Insts(old(rob.Items()), SentCount(old(rob.Items()), issueWidth))
      ensures branches == Branches(old(rob.Items()), SentCount(old(rob.Items()), issueWidth))
      ensures credit == |group| && retired == old(retired) + |group|
      ensures var rest := old(rob.Items())[PopCount(old(rob.Items()), issueWidth)..];
              wake == if WakesStore(rest) then Some(rest[0].inst) else None
    {
      var n := rob.Count();
      var limit := Min(issueWidth, n);
      CommitWithin(rob.Items(), issueWidth, limit);
      group, branches, flush := SendFinished(limit);
      wake := TryWakeupStore();
      credit := |group|;
      if credit != 0 {
        stallCycles := 0;
      } else {
        stallCycles := stallCycles + 1;
      }
      ok := credit != 0 || stallCycles < 1000;
      retired := retired + credit;
      stopped := ok && retired >= instsToRetire && instsToRetire != 0;
      flush := flush && !stopped;
    }
  }
}
