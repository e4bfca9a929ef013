/**
  The ring buffer under the reorder buffer: a fixed array with head and tail indices, a wrap flag
  and 32-bit unsigned size arithmetic. It refines a plain sequence, and the index a push returns
  names the pushed element until that element is removed.
 */
module LoopQueues {
  import opened Prelude

  const U32: nat := 0x1_0000_0000

  // The fields as one value.
  datatype Ring<T> = Ring(data: seq<T>, head: nat, tail: nat, usage: nat, rolling: bool)

  datatype Op<T> = Push(x: T) | Pop | PopBack | Clear

  predicate Ok<T>(q: Ring<T>) {
    && |q.data| < U32 && q.usage <= |q.data|
    && (if |q.data| == 0 then q.head == 0 && q.tail == 0 && !q.rolling else q.head < |q.data| && q.tail < |q.data|)
    && q.usage == (if q.rolling then |q.data| else 0) - q.head + q.tail
  }

  // Unsigned 32-bit arithmetic on numbers in range.
  function Add(x: nat, y: nat): nat {
    if x + y < U32 then x + y else x + y - U32
  }

  function Sub(x: nat, y: nat): nat {
    if y <= x then x - y else if y <= x + U32 then x + U32 - y else 0
  }

  // The size as the source computes it.
  function Size<T>(q: Ring<T>): nat {
    Add(Sub(if q.rolling then |q.data| else 0, q.head), q.tail)
  }

  // Index stepping, where the comparison with the last index is unsigned too.
  function Up(depth: nat, idx: nat): nat {
    if idx == Sub(depth, 1) then 0 else Add(idx, 1)
  }

  function Down(depth: nat, idx: nat): nat {
    if idx == 0 then Sub(depth, 1) else idx - 1
  }

  function AfterPush<T>(q: Ring<T>, x: T): Ring<T>
    requires Ok(q) && Size(q) != |q.data|
  {
    Ring(q.data[q.tail := x], q.head, Up(|q.data|, q.tail), Add(q.usage, 1),
         if q.tail == Sub(|q.data|, 1) then !q.rolling else q.rolling)
  }

  function AfterPop<T>(q: Ring<T>): Ring<T>
    requires Ok(q) && Size(q) != 0
  {
    q.(usage := q.usage - 1, head := Up(|q.data|, q.head),
       rolling := if q.head == Sub(|q.data|, 1) then !q.rolling else q.rolling)
  }

  function AfterPopBack<T>(q: Ring<T>): Ring<T>
    requires Ok(q) && Size(q) != 0
  {
    q.(usage := q.usage - 1, tail := Down(|q.data|, q.tail), rolling := if q.tail == 0 then !q.rolling else q.rolling)
  }

  function AfterClear<T>(q: Ring<T>): Ring<T> {
    q.(head := 0, tail := 0, usage := 0, rolling := false)
  }

  /* ---------- the sequence a ring stands for ---------- */

  // Array index of the element at distance `i` from the head.
  function Slot(depth: nat, head: nat, i: nat): nat {
    if head + i < depth then head + i else head + i - depth
  }

  function Contents<T>(q: Ring<T>): (s: seq<T>)
    requires Ok(q)
    ensures |s| == q.usage
  {
    Gather(q.data, q.head, q.usage)
  }

  // The `n` elements of `data` from index `head` on, round the end.
  function Gather<T>(data: seq<T>, head: nat, n: nat): (s: seq<T>)
    requires n <= |data| && (n > 0 ==> head < |data|)
    ensures |s| == n
  {
    if n == 0 then [] else Gather(data, head, n - 1) + [data[Slot(|data|, head, n - 1)]]
  }

  lemma {:induction false} GatherAt<T>(data: seq<T>, head: nat, n: nat, i: nat)
    requires i < n <= |data| && head < |data|
    ensures Gather(data, head, n)[i] == data[Slot(|data|, head, i)]
  {
    if i < n - 1 {
      GatherAt(data, head, n - 1, i);
    }
  }

  lemma {:induction false} ContentsAt<T>(q: Ring<T>, i: nat)
    requires Ok(q) && i < q.usage
    ensures Contents(q)[i] == q.data[Slot(|q.data|, q.head, i)]
  {
    GatherAt(q.data, q.head, q.usage, i);
  }

  predicate Live<T>(q: Ring<T>, idx: nat) {
    exists i :: 0 <= i < q.usage && Slot(|q.data|, q.head, i) == idx
  }

  lemma {:induction false} SizeIsLength<T>(q: Ring<T>)
    requires Ok(q)
    ensures Size(q) == q.usage == |Contents(q)|
    ensures Size(q) == ((if q.rolling then |q.data| else 0) - q.head + q.tail) % U32
  {
  }

  lemma {:induction false} PushAppends<T>(q: Ring<T>, x: T)
    requires Ok(q) && Size(q) != |q.data|
    ensures Ok(AfterPush(q, x))
    ensures Contents(AfterPush(q, x)) == Contents(q) + [x]
  {
    var q', s, s' := AfterPush(q, x), Contents(q), Contents(AfterPush(q, x));
    forall i | 0 <= i < q'.usage ensures s'[i] == (s + [x])[i] {
      ContentsAt(q', i);
      if i < q.usage {
        ContentsAt(q, i);
      }
    }
  }

  lemma {:induction false} PopDropsFirst<T>(q: Ring<T>)
    requires Ok(q) && Size(q) != 0
    ensures Ok(AfterPop(q)) && q.usage > 0
    ensures Contents(AfterPop(q)) == Contents(q)[1..]
  {
    var q', s, s' := AfterPop(q), Contents(q), Contents(AfterPop(q));
    forall i | 0 <= i < q'.usage ensures s'[i] == s[1..][i] {
      ContentsAt(q', i);
      ContentsAt(q, i + 1);
    }
  }

  lemma {:induction false} PopBackDropsLast<T>(q: Ring<T>)
    requires Ok(q) && Size(q) != 0
    ensures Ok(AfterPopBack(q)) && q.usage > 0
    ensures Contents(AfterPopBack(q)) == Contents(q)[..q.usage - 1]
  {
    var q', s, s' := AfterPopBack(q), Contents(q), Contents(AfterPopBack(q));
    forall i | 0 <= i < q'.usage ensures s'[i] == s[i] {
      ContentsAt(q', i);
      ContentsAt(q, i);
    }
  }

  /* ---------- every run ---------- */

  predicate OpEnabled<T>(q: Ring<T>, op: Op<T>)
    requires Ok(q)
  {
    match op
    case Push(_) => Size(q) != |q.data|
    case Pop => Size(q) != 0
    case PopBack => Size(q) != 0
    case Clear => true
  }

  function OpNext<T>(q: Ring<T>, op: Op<T>): (q': Ring<T>)
    requires Ok(q) && OpEnabled(q, op)
    ensures Ok(q') && |q'.data| == |q.data|
  {
    match op
    case Push(x) => PushAppends(q, x); AfterPush(q, x)
    case Pop => PopDropsFirst(q); AfterPop(q)
    case PopBack => PopBackDropsLast(q); AfterPopBack(q)
    case Clear => AfterClear(q)
  }

  // A ring over freshly allocated memory `fill`, after the first `n` operations.
  function RunRing<T>(fill: seq<T>, ops: seq<Op<T>>, n: nat): (r: Option<Ring<T>>)
    requires |fill| < U32 && n <= |ops|
    ensures r.Some? ==> Ok(r.value) && |r.value.data| == |fill|
  {
    if n == 0 then Some(Ring(fill, 0, 0, 0, false))
    else
      var r := RunRing(fill, ops, n - 1);
      if r.None? || !OpEnabled(r.value, ops[n - 1]) then None else Some(OpNext(r.value, ops[n - 1]))
  }

  // The same operations on a plain sequence bounded by `depth`. Elements are the positions of the
  // pushes that put them there.
  function RunOwners<T>(depth: nat, ops: seq<Op<T>>, n: nat): Option<seq<nat>>
    requires n <= |ops|
  {
    if n == 0 then Some([])
    else
      var r := RunOwners(depth, ops, n - 1);
      if r.None? then None else OwnersNext(depth, r.value, n - 1, ops[n - 1])
  }

  function OwnersNext<T>(depth: nat, owners: seq<nat>, n: nat, op: Op<T>): Option<seq<nat>> {
    match op
    case Push(_) => if |owners| < depth then Some(owners + [n]) else None
    case Pop => if owners != [] then Some(owners[1..]) else None
    case PopBack => if owners != [] then Some(owners[..|owners| - 1]) else None
    case Clear => Some([])
  }

  // The index the push at position `k` returned.
  function TagOf<T>(fill: seq<T>, ops: seq<Op<T>>, k: nat): nat
    requires |fill| < U32 && k <= |ops|
  {
    var r := RunRing(fill, ops, k);
    if r.Some? then r.value.tail else 0
  }

  // Position `i` of the ring is array index `tag` and holds `x`.
  ghost predicate Holds<T>(q: Ring<T>, i: nat, tag: nat, x: T) {
    i < q.usage && Slot(|q.data|, q.head, i) == tag < |q.data| && q.data[tag] == x
  }

  // Position `i` of the ring holds what the push at `k` put there, at the index that push returned.
  ghost predicate OwnedBy<T>(fill: seq<T>, ops: seq<Op<T>>, q: Ring<T>, i: nat, k: nat)
    requires |fill| < U32
  {
    k < |ops| && ops[k].Push? && Holds(q, i, TagOf(fill, ops, k), ops[k].x)
  }

  ghost predicate Owned<T>(fill: seq<T>, ops: seq<Op<T>>, n: nat, q: Ring<T>, owners: seq<nat>)
    requires |fill| < U32
  {
    && Ok(q) && |q.data| == |fill| && |owners| == q.usage
    && (forall i | 0 <= i < |owners| :: owners[i] < n && OwnedBy(fill, ops, q, i, owners[i]))
    && (forall i, j | 0 <= i < j < |owners| :: owners[i] < owners[j])
  }

  lemma {:induction false} OwnedStep<T>(fill: seq<T>, ops: seq<Op<T>>, n: nat, q: Ring<T>, owners: seq<nat>)
    requires |fill| < U32 && n < |ops| && RunRing(fill, ops, n) == Some(q) && Owned(fill, ops, n, q, owners)
    ensures OpEnabled(q, ops[n]) <==> OwnersNext(|fill|, owners, n, ops[n]).Some?
    ensures OpEnabled(q, ops[n]) ==>
              Owned(fill, ops, n + 1, OpNext(q, ops[n]), OwnersNext(|fill|, owners, n, ops[n]).value)
  {
    SizeIsLength(q);
    if OpEnabled(q, ops[n]) {
      match ops[n]
      case Push(_) =>
      case Pop =>
      case PopBack =>
      case Clear =>
    }
  }

  lemma {:induction false} RunOwned<T>(fill: seq<T>, ops: seq<Op<T>>, n: nat)
    requires |fill| < U32 && n <= |ops|
    ensures RunRing(fill, ops, n).Some? <==> RunOwners(|fill|, ops, n).Some?
    ensures RunRing(fill, ops, n).Some? ==>
              Owned(fill, ops, n, RunRing(fill, ops, n).value, RunOwners(|fill|, ops, n).value)
  {
    if n > 0 {
      RunOwned(fill, ops, n - 1);
      if RunRing(fill, ops, n - 1).Some? {
        OwnedStep(fill, ops, n - 1, RunRing(fill, ops, n - 1).value, RunOwners(|fill|, ops, n - 1).value);
      }
    }
  }

  // Main result: the ring refines the bounded sequence. After every run of pushes, pops and clears
  // both are possible or neither is, the computed size is the length of the sequence, and the
  // elements are those of the surviving pushes in order.
  lemma {:induction false} RingRefinesSequence<T>(fill: seq<T>, ops: seq<Op<T>>, n: nat)
    requires |fill| < U32 && n <= |ops|
    ensures RunRing(fill, ops, n).Some? <==> RunOwners(|fill|, ops, n).Some?
    ensures RunRing(fill, ops, n).Some? ==>
              && var q := RunRing(fill, ops, n).value;
                 var owners := RunOwners(|fill|, ops, n).value;
              && Size(q) == q.usage == |owners| == |Contents(q)|
              && forall i | 0 <= i < |owners| ::
                   owners[i] < n && ops[owners[i]].Push? && Contents(q)[i] == ops[owners[i]].x
  {
    RunOwned(fill, ops, n);
    if RunRing(fill, ops, n).Some? {
      var q, owners := RunRing(fill, ops, n).value, RunOwners(|fill|, ops, n).value;
      forall i | 0 <= i < |owners|
        ensures owners[i] < n && ops[owners[i]].Push? && Contents(q)[i] == ops[owners[i]].x
      {
        assert OwnedBy(fill, ops, q, i, owners[i]);
        ContentsAt(q, i);
      }
    }
  }

  // Main result: tags are stable. While the element of push `owners[i]` survives, the index that
  // push returned still holds it and passes the validity test, and no other survivor has that index.
  lemma {:induction false} TagsAreStable<T>(fill: seq<T>, ops: seq<Op<T>>, n: nat, q: Ring<T>, owners: seq<nat>, i: nat)
    requires |fill| < U32 && n <= |ops|
    requires RunRing(fill, ops, n) == Some(q) && RunOwners(|fill|, ops, n) == Some(owners) && i < |owners|
    ensures forall j | 0 <= j < |owners| :: owners[j] < n && ops[owners[j]].Push?
    ensures var tag := TagOf(fill, ops, owners[i]);
            tag < |q.data| && q.data[tag] == ops[owners[i]].x && IsValid(q, tag)
    ensures forall j | 0 <= j < |owners| && j != i :: TagOf(fill, ops, owners[j]) != TagOf(fill, ops, owners[i])
  {
    RunOwned(fill, ops, n);
    assert OwnedBy(fill, ops, q, i, owners[i]);
    forall j | 0 <= j < |owners| && j != i ensures TagOf(fill, ops, owners[j]) != TagOf(fill, ops, owners[i]) {
      assert OwnedBy(fill, ops, q, j, owners[j]);
    }
  }

  /* ---------- the validity test ---------- */

  predicate IsValid<T>(q: Ring<T>, idx: nat) {
    q.rolling != (q.head <= idx < q.tail)
  }

  lemma {:induction false} LiveRange<T>(q: Ring<T>, idx: nat)
    requires Ok(q) && idx < |q.data|
    ensures Live(q, idx) <==> if q.rolling then q.head <= idx || idx < q.tail else q.head <= idx < q.tail
  {
    var i := if q.head <= idx then idx - q.head else idx + |q.data| - q.head;
    assert Slot(|q.data|, q.head, i) == idx;
    assert q.rolling && (q.head <= idx || idx < q.tail) ==> 0 <= i < q.usage;
    assert !q.rolling && q.head <= idx < q.tail ==> 0 <= i < q.usage;
  }

  // The test never rejects a live index, and it tells live from dead for every index exactly when
  // the ring is not wrapped or is full.
  lemma {:induction false} ValidityExactIff<T>(q: Ring<T>)
    requires Ok(q)
    ensures forall idx: nat | Live(q, idx) :: IsValid(q, idx)
    ensures (forall idx: nat | idx < |q.data| && IsValid(q, idx) :: Live(q, idx)) <==> !q.rolling || q.usage == |q.data|
  {
    forall idx: nat | idx < |q.data| ensures Live(q, idx) ==> IsValid(q, idx)
                                     ensures !q.rolling || q.usage == |q.data| ==> IsValid(q, idx) ==> Live(q, idx)
    {
      LiveRange(q, idx);
    }
    if q.rolling && q.usage < |q.data| {
      LiveRange(q, q.tail);
      assert IsValid(q, q.tail) && !Live(q, q.tail);
    }
  }

  /* ---------- iteration ---------- */

  // The index both end() and a finished iterator hold; it wraps to 0 at the largest depth.
  function End(depth: nat): nat {
    Add(depth, 1)
  }

  function Begin<T>(q: Ring<T>): nat {
    if Size(q) == 0 then End(|q.data|) else q.head
  }

  function Forward<T>(q: Ring<T>, idx: nat): nat {
    if Up(|q.data|, idx) == q.tail then End(|q.data|) else Up(|q.data|, idx)
  }

  function Backward<T>(q: Ring<T>, idx: nat): nat {
    if idx == q.head then End(|q.data|) else Down(|q.data|, idx)
  }

  // Iterator index after `k` steps from the first, or backwards from the last.
  function ForwardIndex<T>(q: Ring<T>, k: nat): nat {
    if k == 0 then Begin(q) else Forward(q, ForwardIndex(q, k - 1))
  }

  function BackwardIndex<T>(q: Ring<T>, k: nat): nat {
    if k == 0 then Down(|q.data|, q.tail) else Backward(q, BackwardIndex(q, k - 1))
  }

  // Where an iterator stands after `k` steps forward.
  function Visited<T>(q: Ring<T>, k: nat): nat {
    if k < q.usage then Slot(|q.data|, q.head, k) else End(|q.data|)
  }

  lemma {:induction false} ForwardVisits<T>(q: Ring<T>, k: nat)
    requires Ok(q) && k <= q.usage
    ensures ForwardIndex(q, k) == Visited(q, k)
  {
    if k > 0 {
      ForwardVisits(q, k - 1);
    }
  }

  lemma {:induction false} BackwardVisits<T>(q: Ring<T>, k: nat)
    requires Ok(q) && k <= q.usage && q.usage > 0
    ensures BackwardIndex(q, k) == if k < q.usage then Slot(|q.data|, q.head, q.usage - 1 - k) else End(|q.data|)
  {
    if k > 0 {
      BackwardVisits(q, k - 1);
    }
  }

  // A loop from begin() to end() visits exactly the live elements, oldest first.
  ghost predicate ForwardExact<T>(q: Ring<T>)
    requires Ok(q)
  {
    && ForwardIndex(q, q.usage) == End(|q.data|)
    && forall k | 0 <= k < q.usage ::
         ForwardIndex(q, k) != End(|q.data|) && ForwardIndex(q, k) == Slot(|q.data|, q.head, k)
  }

  // A loop from getBackIterator() to end() visits exactly the live elements, newest first.
  ghost predicate BackwardExact<T>(q: Ring<T>)
    requires Ok(q)
  {
    && BackwardIndex(q, q.usage) == End(|q.data|)
    && forall k | 0 <= k < q.usage :: VisitedBackwards(q, k)
  }

  predicate VisitedBackwards<T>(q: Ring<T>, k: nat)
    requires k < q.usage
  {
    BackwardIndex(q, k) != End(|q.data|) && BackwardIndex(q, k) == Slot(|q.data|, q.head, q.usage - 1 - k)
  }

  // The end marker can be mistaken for an element only at the largest depth.
  predicate MarkerClear<T>(q: Ring<T>) {
    |q.data| + 1 < U32 || !Live(q, 0)
  }

  lemma {:induction false} MarkerIsNotLive<T>(q: Ring<T>)
    requires Ok(q)
    ensures MarkerClear(q) <==> !Live(q, End(|q.data|))
  {
    if |q.data| + 1 < U32 {
      forall i | 0 <= i < q.usage ensures Slot(|q.data|, q.head, i) != |q.data| + 1 {
      }
    }
  }

  lemma {:induction false} ForwardExactIff<T>(q: Ring<T>)
    requires Ok(q)
    ensures ForwardExact(q) <==> MarkerClear(q)
  {
    MarkerIsNotLive(q);
    forall k: nat | k <= q.usage ensures ForwardIndex(q, k) == Visited(q, k) {
      ForwardVisits(q, k);
    }
  }

  // Backwards, an empty ring is a further exception: the last index of an empty ring is stale.
  lemma {:induction false} BackwardExactIff<T>(q: Ring<T>)
    requires Ok(q)
    ensures BackwardExact(q) <==>
              if q.usage > 0 then MarkerClear(q) else |q.data| + 1 == U32 && q.tail == 1
  {
    if q.usage > 0 {
      MarkerIsNotLive(q);
      BackwardVisits(q, q.usage);
      if Live(q, End(|q.data|)) {
        var i :| 0 <= i < q.usage && Slot(|q.data|, q.head, i) == End(|q.data|);
        var k := q.usage - 1 - i;
        BackwardVisits(q, k);
        assert !VisitedBackwards(q, k);
      } else {
        forall k | 0 <= k < q.usage ensures VisitedBackwards(q, k) {
          BackwardVisits(q, k);
          assert Slot(|q.data|, q.head, q.usage - 1 - k) != End(|q.data|);
        }
      }
    } else {
      assert BackwardIndex(q, 0) == Down(|q.data|, q.tail);
    }
  }

  /* ---------- the class ---------- */

  class LoopQueue<T(0)> {
    const depth: nat
    const dataList: array<T>
    var head: nat
    var tail: nat
    var usage: nat
    var rolling: bool

    ghost function Value(): Ring<T>
      reads this, dataList
    {
      Ring(dataList[..], head, tail, usage, rolling)
    }

    ghost predicate Valid()
      reads this, dataList
    {
      depth == dataList.Length && Ok(Value())
    }

    ghost function Items(): (s: seq<T>)
      requires Valid()
      reads this, dataList
      ensures |s| == usage <= depth && (depth > 0 ==> head < depth)
    {
      Contents(Value())
    }

    constructor (depth: nat)
      requires depth < U32
      ensures Valid() && this.depth == depth && fresh(dataList)
      ensures Items() == [] && head == 0
    {
      this.depth := depth;
      dataList := new T[depth];
      head, tail, usage, rolling := 0, 0, 0, false;
    }

    method Clear()
      requires Valid()
      modifies this
      ensures Valid() && Value() == AfterClear(old(Value()))
      ensures Items() == [] && head == 0
    {
      tail := 0;
      head := 0;
      usage := 0;
      rolling := false;
    }

    // The assertion of the source, that the computed size equals the usage counter, cannot fail.
    method Count() returns (n: nat)
      requires Valid()
      ensures n == Size(Value()) == usage == |Items()|
    {
      SizeIsLength(Value());
      n := Add(Sub(if rolling then depth else 0, head), tail);
      assert n == usage;
    }

    // The assertion that the queue is not full is the caller's duty. The index returned is the
    // place of the new last element.
    method Push(x: T) returns (idx: nat)
      requires Valid() && |Items()| < depth
      modifies this, dataList
      ensures Valid() && Value() == AfterPush(old(Value()), x)
      ensures Items() == old(Items()) + [x] && head == old(head)
      ensures idx == Slot(depth, head, |old(Items())|) < depth
    {
      SizeIsLength(Value());
      PushAppends(Value(), x);
      dataList[tail] := x;
      idx := tail;
      usage := Add(usage, 1);
      if tail == Sub(depth, 1) {
        rolling := !rolling;
      }
      tail := Up(depth, tail);
    }

    method Pop()
      requires Valid() && Items() != []
      modifies this
      ensures Valid() && Value() == AfterPop(old(Value()))
      ensures Items() == old(Items())[1..] && head == Slot(depth, old(head), 1)
    {
      SizeIsLength(Value());
      PopDropsFirst(Value());
      usage := usage - 1;
      if head == Sub(depth, 1) {
        rolling := !rolling;
      }
      head := Up(depth, head);
    }

    method PopBack()
      requires Valid() && Items() != []
      modifies this
      ensures Valid() && Value() == AfterPopBack(old(Value()))
      ensures Items() == old(Items())[..|old(Items())| - 1] && head == old(head)
    {
      SizeIsLength(Value());
      PopBackDropsLast(Value());
      usage := usage - 1;
      if tail == 0 {
        rolling := !rolling;
      }
      tail := Down(depth, tail);
    }

    // On an empty queue both give a stale element.
    method Front() returns (x: T)
      requires Valid() && depth > 0
      ensures Items() != [] ==> x == Items()[0]
    {
      if usage > 0 {
        ContentsAt(Value(), 0);
      }
      x := dataList[head];
    }

    method Back() returns (x: T)
      requires Valid() && depth > 0
      ensures Items() != [] ==> x == Items()[|Items()| - 1]
    {
      if usage > 0 {
        ContentsAt(Value(), usage - 1);
      }
      x := dataList[Down(depth, tail)];
    }

    // Reading and writing through an index, as callers do through access().
    method Load(idx: nat) returns (x: T)
      requires Valid() && idx < depth
      ensures forall i | 0 <= i < |Items()| && Slot(depth, head, i) == idx :: Items()[i] == x
    {
      forall i | 0 <= i < usage ensures Items()[i] == dataList[..][Slot(depth, head, i)] {
        ContentsAt(Value(), i);
      }
      x := dataList[idx];
    }

    method Store(idx: nat, x: T)
      requires Valid() && idx < depth
      modifies dataList
      ensures Valid() && |Items()| == |old(Items())|
      ensures forall i | 0 <= i < |Items()| :: Items()[i] == if Slot(depth, head, i) == idx then x else old(Items())[i]
    {
      ghost var q := Value();
      dataList[idx] := x;
      forall i | 0 <= i < usage ensures Items()[i] == if Slot(depth, head, i) == idx then x else Contents(q)[i] {
        ContentsAt(q, i);
        ContentsAt(Value(), i);
      }
    }

    // A loop over the queue, as the stream operator writes it.
    method Elements() returns (visited: seq<T>)
      requires Valid() && MarkerClear(Value())
      ensures visited == Items()
    {
      visited := [];
      ghost var q, k := Value(), 0;
      ghost var all := Contents(q);
      MarkerIsNotLive(q);
      var n := Count();
      var idx := if n == 0 then End(depth) else head;
      while idx != End(depth)
        invariant 0 <= k <= usage && idx == Visited(q, k)
        invariant |visited| == k && forall j | 0 <= j < k :: visited[j] == all[j]
        decreases usage - k
      {
        ContentsAt(q, k);
        visited := visited + [dataList[idx]];
        idx := if Up(depth, idx) == tail then End(depth) else Up(depth, idx);
        k := k + 1;
      }
    }
  }
}
