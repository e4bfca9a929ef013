/**
  Merging of the memory regions the user asked for: sorted by base and size, overlapping
  neighbours joined, with the one union a 64-bit size field cannot hold split in two.
 */
module Regions {
  import opened Prelude

  const SPACE: nat := 0x1_0000_0000_0000_0000
  const PAGE: nat := 4096

  datatype Region = Region(base: nat, size: nat)

  // Non-empty, representable, and not running past the end of the address space.
  predicate Ok(r: Region) {
    0 < r.size < SPACE && r.base + r.size <= SPACE
  }

  predicate AllOk(rs: seq<Region>) {
    forall i | 0 <= i < |rs| :: Ok(rs[i])
  }

  function End(r: Region): nat {
    r.base + r.size
  }

  predicate Has(r: Region, a: nat) {
    r.base <= a < End(r)
  }

  predicate Covered(rs: seq<Region>, a: nat) {
    exists i :: 0 <= i < |rs| && Has(rs[i], a)
  }

  predicate Within(r: Region, outer: Region) {
    outer.base <= r.base && End(r) <= End(outer)
  }

  /* ---------- sorting ---------- */

  predicate Before(a: Region, b: Region) {
    if a.base == b.base then a.size < b.size else a.base < b.base
  }

  predicate Sorted(rs: seq<Region>) {
    forall i, j | 0 <= i < j < |rs| :: !Before(rs[j], rs[i])
  }

  function Insert(r: Region, rs: seq<Region>): (rs': seq<Region>)
    ensures multiset(rs') == multiset(rs) + multiset{r}
  {
    if rs == [] then [r]
    else
      assert rs == [rs[0]] + rs[1..];
      if Before(rs[0], r) then [rs[0]] + Insert(r, rs[1..]) else [r] + rs
  }

  // Stands for the library sort; SortedIsUnique says that the choice of procedure does not matter.
  function Sort(rs: seq<Region>): (rs': seq<Region>)
    ensures multiset(rs') == multiset(rs)
  {
    if rs == [] then []
    else
      assert rs == [rs[0]] + rs[1..];
      Insert(rs[0], Sort(rs[1..]))
  }

  lemma {:induction false} InsertSorts(r: Region, rs: seq<Region>)
    requires Sorted(rs)
    ensures Sorted(Insert(r, rs))
  {
    if rs != [] && Before(rs[0], r) {
      var rest := Insert(r, rs[1..]);
      InsertSorts(r, rs[1..]);
      forall j | 0 <= j < |rest| ensures !Before(rest[j], rs[0]) {
        assert rest[j] in multiset(rest);
        assert rest[j] == r || rest[j] in rs[1..];
      }
    }
  }

  lemma {:induction false} SortSorts(rs: seq<Region>)
    ensures Sorted(Sort(rs))
  {
    if rs != [] {
      SortSorts(rs[1..]);
      InsertSorts(rs[0], Sort(rs[1..]));
    }
  }

  lemma {:induction false} FirstIsLeast(a: seq<Region>, r: Region)
    requires Sorted(a) && r in a
    ensures a[0] == r || !Before(r, a[0])
  {
  }

  lemma {:induction false} DropFirst(a: seq<Region>)
    requires a != []
    ensures multiset(a[1..]) == multiset(a) - multiset{a[0]}
    ensures Sorted(a) ==> Sorted(a[1..])
  {
    assert a == [a[0]] + a[1..];
  }

  lemma {:induction false} SortedIsUnique(a: seq<Region>, b: seq<Region>)
    requires Sorted(a) && Sorted(b) && multiset(a) == multiset(b)
    ensures a == b
  {
    assert |a| == |multiset(a)| == |multiset(b)| == |b|;
    if a != [] {
      assert a[0] in multiset(b) && b[0] in multiset(a);
      FirstIsLeast(a, b[0]);
      FirstIsLeast(b, a[0]);
      DropFirst(a);
      DropFirst(b);
      SortedIsUnique(a[1..], b[1..]);
      assert a == [a[0]] + a[1..] && b == [b[0]] + b[1..];
    }
  }

  lemma {:induction false} SameElements(rs: seq<Region>, rs': seq<Region>, a: nat)
    requires multiset(rs) == multiset(rs')
    ensures Covered(rs, a) <==> Covered(rs', a)
    ensures AllOk(rs) <==> AllOk(rs')
  {
    Carry(rs, rs', a);
    Carry(rs', rs, a);
  }

  lemma {:induction false} Carry(rs: seq<Region>, rs': seq<Region>, a: nat)
    requires multiset(rs) == multiset(rs')
    ensures Covered(rs, a) ==> Covered(rs', a)
    ensures AllOk(rs) ==> AllOk(rs')
  {
    assert forall r :: r in rs <==> r in multiset(rs);
    assert forall r :: r in rs' <==> r in multiset(rs');
    if Covered(rs, a) {
      var i :| 0 <= i < |rs| && Has(rs[i], a);
      assert rs[i] in rs';
      var j :| 0 <= j < |rs'| && rs'[j] == rs[i];
      assert Has(rs'[j], a);
    }
    if AllOk(rs) {
      forall j | 0 <= j < |rs'| ensures Ok(rs'[j]) {
        assert rs'[j] in rs;
      }
    }
  }

  /* ---------- merging two ---------- */

  predicate Overlap(l: Region, r: Region)
    requires Ok(l) && Ok(r)
  {
    Max(l.base, r.base) <= Min(End(l) - 1, End(r) - 1)
  }

  predicate CoversSpace(l: Region, r: Region)
    requires Ok(l) && Ok(r)
  {
    Overlap(l, r) && Min(l.base, r.base) == 0 && Max(End(l) - 1, End(r) - 1) == SPACE - 1
  }

  // The size is computed in 64 bits.
  function Merge(l: Region, r: Region): (m: Region)
    requires Ok(l) && Ok(r) && Overlap(l, r)
  {
    var base := Min(l.base, r.base);
    var size := Max(End(l) - 1, End(r) - 1) - base + 1;
    Region(base, if size < SPACE then size else size - SPACE)
  }

  // Two regions overlap when they share an address, and the merged region is their union exactly
  // when the union is not the whole space, whose size would wrap to 0.
  lemma {:induction false} MergeIsUnionIff(l: Region, r: Region)
    requires Ok(l) && Ok(r)
    ensures Overlap(l, r) <==> exists a :: Has(l, a) && Has(r, a)
    ensures Overlap(l, r) ==> (IsUnion(l, r, Merge(l, r)) <==> !CoversSpace(l, r))
    ensures Overlap(l, r) ==> (Ok(Merge(l, r)) <==> !CoversSpace(l, r))
  {
    if Overlap(l, r) {
      var a := Max(l.base, r.base);
      assert Has(l, a) && Has(r, a);
      if !CoversSpace(l, r) {
        forall a: nat ensures Has(Merge(l, r), a) <==> Has(l, a) || Has(r, a) {
        }
      }
    }
  }

  ghost predicate IsUnion(l: Region, r: Region, m: Region) {
    forall a: nat :: Has(m, a) <==> Has(l, a) || Has(r, a)
  }

  /* ---------- merging all ---------- */

  const WHOLE := [Region(0, SPACE - PAGE), Region(SPACE - PAGE, PAGE)]

  // In ascending order, no two sharing an address.
  predicate Separate(rs: seq<Region>) {
    forall i, j | 0 <= i < j < |rs| :: End(rs[i]) <= rs[j].base
  }

  predicate InOne(r: Region, rs: seq<Region>) {
    exists j :: 0 <= j < |rs| && Within(r, rs[j])
  }

  // No boundary of the result cuts through a region that was asked for.
  predicate Uncut(rs: seq<Region>, merged: seq<Region>) {
    forall i | 0 <= i < |rs| :: InOne(rs[i], merged)
  }

  ghost predicate SameCover(rs: seq<Region>, merged: seq<Region>) {
    forall a: nat :: Covered(rs, a) <==> Covered(merged, a)
  }

  predicate HasBoth(r: Region, x: nat) {
    Has(r, x) && Has(r, x + 1)
  }

  // Some region holds both `x` and its successor.
  predicate Linked(rs: seq<Region>, x: nat) {
    exists i :: 0 <= i < |rs| && HasBoth(rs[i], x)
  }

  // Regions are joined only where one that was asked for holds addresses of both sides: neighbours
  // that merely touch stay apart.
  ghost predicate LinksOnly(rs: seq<Region>, merged: seq<Region>) {
    forall x: nat :: Linked(merged, x) ==> Linked(rs, x)
  }

  ghost predicate AllLinked(rs: seq<Region>) {
    forall x: nat :: x + 1 < SPACE ==> Linked(rs, x)
  }

  lemma {:induction false} LinkedSnoc(rs: seq<Region>, r: Region, x: nat)
    ensures Linked(rs + [r], x) <==> Linked(rs, x) || HasBoth(r, x)
  {
    if Linked(rs, x) {
      var i :| 0 <= i < |rs| && HasBoth(rs[i], x);
      assert HasBoth((rs + [r])[i], x);
    }
    if HasBoth(r, x) {
      assert HasBoth((rs + [r])[|rs|], x);
    }
    if Linked(rs + [r], x) {
      var i :| 0 <= i < |rs + [r]| && HasBoth((rs + [r])[i], x);
      assert i < |rs| ==> HasBoth(rs[i], x);
    }
  }

  // Of two overlapping regions in order, one holds both of any two successive addresses of the union.
  lemma {:induction false} OneHasBoth(l: Region, r: Region, x: nat)
    requires Ok(l) && Ok(r) && Overlap(l, r) && l.base <= r.base
    requires (Has(l, x) || Has(r, x)) && (Has(l, x + 1) || Has(r, x + 1))
    ensures HasBoth(l, x) || HasBoth(r, x)
  {
  }

  lemma {:induction false} LinksApart(done: seq<Region>, merged: seq<Region>, r: Region)
    requires LinksOnly(done, merged)
    ensures LinksOnly(done + [r], merged + [r])
  {
    forall x: nat ensures Linked(merged + [r], x) ==> Linked(done + [r], x) {
      LinkedSnoc(done, r, x);
      LinkedSnoc(merged, r, x);
    }
  }

  lemma {:induction false} LinksJoined(done: seq<Region>, front: seq<Region>, last: Region, r: Region)
    requires LinksOnly(done, front + [last]) && Ok(r) && Ok(last) && Overlap(last, r) && last.base <= r.base
    requires !CoversSpace(last, r)
    ensures LinksOnly(done + [r], front + [Merge(last, r)])
  {
    var m := Merge(last, r);
    MergeIsUnionIff(last, r);
    forall x: nat ensures Linked(front + [m], x) ==> Linked(done + [r], x) {
      LinkedSnoc(done, r, x);
      LinkedSnoc(front, last, x);
      LinkedSnoc(front, m, x);
      if HasBoth(m, x) {
        OneHasBoth(last, r, x);
      }
    }
  }

  lemma {:induction false} CoveredSnoc(rs: seq<Region>, r: Region, a: nat)
    ensures Covered(rs + [r], a) <==> Covered(rs, a) || Has(r, a)
  {
    if Covered(rs, a) {
      var i :| 0 <= i < |rs| && Has(rs[i], a);
      assert Has((rs + [r])[i], a);
    }
    if Has(r, a) {
      assert Has((rs + [r])[|rs|], a);
    }
    if Covered(rs + [r], a) {
      var i :| 0 <= i < |rs + [r]| && Has((rs + [r])[i], a);
      assert i < |rs| ==> Has(rs[i], a);
    }
  }

  // The state of the loop after the first regions `done`, which start no later than `bound`.
  ghost predicate Progress(done: seq<Region>, merged: seq<Region>, bound: nat) {
    && merged != [] && AllOk(merged) && Separate(merged)
    && merged[|merged| - 1].base <= bound
    && SameCover(done, merged) && Uncut(done, merged) && LinksOnly(done, merged)
  }

  lemma {:induction false} UncutMore(rs: seq<Region>, r: Region, merged: seq<Region>, merged': seq<Region>)
    requires Uncut(rs, merged) && InOne(r, merged')
    requires forall j | 0 <= j < |merged| :: InOne(merged[j], merged')
    ensures Uncut(rs + [r], merged')
  {
    forall i | 0 <= i < |rs + [r]| ensures InOne((rs + [r])[i], merged') {
      if i < |rs| {
        assert InOne(rs[i], merged);
        var j :| 0 <= j < |merged| && Within(rs[i], merged[j]);
        assert InOne(merged[j], merged');
        var k :| 0 <= k < |merged'| && Within(merged[j], merged'[k]);
        assert Within(rs[i], merged'[k]);
      }
    }
  }

  lemma {:induction false} CoverApart(done: seq<Region>, merged: seq<Region>, r: Region)
    requires SameCover(done, merged)
    ensures SameCover(done + [r], merged + [r])
  {
    forall a: nat ensures Covered(done + [r], a) <==> Covered(merged + [r], a) {
      CoveredSnoc(done, r, a);
      CoveredSnoc(merged, r, a);
    }
  }

  lemma {:induction false} UncutApart(done: seq<Region>, merged: seq<Region>, r: Region)
    requires Uncut(done, merged)
    ensures Uncut(done + [r], merged + [r])
  {
    var merged' := merged + [r];
    forall j | 0 <= j < |merged| ensures InOne(merged[j], merged') {
      assert Within(merged[j], merged'[j]);
    }
    assert Within(r, merged'[|merged|]);
    UncutMore(done, r, merged, merged');
  }

  lemma {:induction false} AddApart(done: seq<Region>, merged: seq<Region>, r: Region)
    requires Progress(done, merged, r.base) && Ok(r) && !Overlap(merged[|merged| - 1], r)
    ensures Progress(done + [r], merged + [r], r.base)
  {
    CoverApart(done, merged, r);
    LinksApart(done, merged, r);
    UncutApart(done, merged, r);
    var merged', last := merged + [r], |merged| - 1;
    forall i, j | 0 <= i < j < |merged'| ensures End(merged'[i]) <= merged'[j].base {
      assert i < last ==> End(merged[i]) <= merged[last].base;
      assert j < |merged| ==> End(merged[i]) <= merged[j].base;
    }
  }

  lemma {:induction false} AddJoined(done: seq<Region>, front: seq<Region>, last: Region, r: Region)
    requires Progress(done, front + [last], r.base) && Ok(r) && Ok(last) && Overlap(last, r) && !CoversSpace(last, r)
    ensures Progress(done + [r], front + [Merge(last, r)], r.base)
  {
    var merged, m := front + [last], Merge(last, r);
    var merged' := front + [m];
    assert merged[|front|] == last && m.base == last.base;
    LinksJoined(done, front, last, r);
    forall j | 0 <= j < |merged'| ensures Ok(merged'[j]) {
      assert Ok(merged[j]);
    }
    MergeIsUnionIff(last, r);
    forall a: nat ensures Covered(done + [r], a) <==> Covered(merged', a) {
      CoveredSnoc(done, r, a);
      CoveredSnoc(front, last, a);
      CoveredSnoc(front, m, a);
    }
    forall j | 0 <= j < |merged| ensures InOne(merged[j], merged') {
      assert Within(merged[j], merged'[j]);
    }
    assert Within(r, merged'[|front|]);
    UncutMore(done, r, merged, merged');
    forall i, j | 0 <= i < j < |merged'| ensures End(merged'[i]) <= merged'[j].base {
      assert End(merged[i]) <= merged[j].base;
    }
  }

  // Once the union reaches the whole space, the two fixed regions cover what any further ones would.
  lemma {:induction false} SpaceIsWhole(rs: seq<Region>, n: nat, merged: seq<Region>)
    requires AllOk(rs) && n < |rs| && Progress(rs[..n], merged, rs[n].base)
    requires CoversSpace(merged[|merged| - 1], rs[n])
    ensures AllOk(WHOLE) && Separate(WHOLE) && SameCover(rs, WHOLE) && AllLinked(rs)
  {
    forall x: nat | x + 1 < SPACE ensures Linked(rs, x) {
      LinkedThroughout(rs, n, merged, x);
    }
    forall a: nat ensures Covered(rs, a) <==> Covered(WHOLE, a) {
      assert Covered(WHOLE, a) <==> a < SPACE by {
        assert a < SPACE - PAGE ==> Has(WHOLE[0], a);
        assert SPACE - PAGE <= a < SPACE ==> Has(WHOLE[1], a);
      }
      if a < SPACE {
        AllCovered(rs, n, merged, a);
      }
    }
  }

  lemma {:induction false} AllCovered(rs: seq<Region>, n: nat, merged: seq<Region>, a: nat)
    requires AllOk(rs) && n < |rs| && Progress(rs[..n], merged, rs[n].base)
    requires CoversSpace(merged[|merged| - 1], rs[n]) && a < SPACE
    ensures Covered(rs, a)
  {
    if !Has(rs[n], a) {
      assert Has(merged[|merged| - 1], a);
      assert Covered(rs[..n], a);
      var i :| 0 <= i < n && Has(rs[..n][i], a);
      assert Has(rs[i], a);
    }
  }

  lemma {:induction false} LinkedThroughout(rs: seq<Region>, n: nat, merged: seq<Region>, x: nat)
    requires AllOk(rs) && n < |rs| && Progress(rs[..n], merged, rs[n].base)
    requires CoversSpace(merged[|merged| - 1], rs[n]) && x + 1 < SPACE
    ensures Linked(rs, x)
  {
    var last := merged[|merged| - 1];
    OneHasBoth(last, rs[n], x);
    if !HasBoth(rs[n], x) {
      assert HasBoth(merged[|merged| - 1], x);
      assert Linked(rs[..n], x);
      var i :| 0 <= i < n && HasBoth(rs[..n][i], x);
      assert HasBoth(rs[i], x);
    }
  }

  // One turn of the loop.
  lemma {:induction false} ProgressStep(rs: seq<Region>, n: nat, merged: seq<Region>, last: Region)
    requires AllOk(rs) && Sorted(rs) && 0 < n < |rs| && Progress(rs[..n], merged, rs[n - 1].base)
    requires last == merged[|merged| - 1]
    ensures !Overlap(last, rs[n]) ==> Progress(rs[..n + 1], merged + [rs[n]], rs[n].base)
    ensures Overlap(last, rs[n]) && !CoversSpace(last, rs[n]) ==>
              Progress(rs[..n + 1], merged[..|merged| - 1] + [Merge(last, rs[n])], rs[n].base)
    ensures CoversSpace(last, rs[n]) ==> AllOk(WHOLE) && Separate(WHOLE) && SameCover(rs, WHOLE) && AllLinked(rs)
  {
    assert !Before(rs[n], rs[n - 1]);
    assert rs[..n + 1] == rs[..n] + [rs[n]];
    assert Progress(rs[..n], merged, rs[n].base);
    if !Overlap(last, rs[n]) {
      AddApart(rs[..n], merged, rs[n]);
    } else if CoversSpace(last, rs[n]) {
      SpaceIsWhole(rs, n, merged);
    } else {
      assert merged == merged[..|merged| - 1] + [last];
      AddJoined(rs[..n], merged[..|merged| - 1], last, rs[n]);
    }
  }

  // Main result: for every list of non-empty 64-bit regions the result covers exactly the same
  // addresses with representable regions in ascending order that share no address. Regions are joined
  // only where they overlap, and no region asked for is cut, unless overlapping regions link the whole
  // space, which has to be split in two.
  method MergeOverlapping(mems: seq<Region>) returns (merged: seq<Region>)
    requires AllOk(mems)
    ensures AllOk(merged) && Separate(merged) && SameCover(mems, merged)
    ensures LinksOnly(mems, merged)
    ensures Uncut(mems, merged) || (merged == WHOLE && AllLinked(mems))
  {
    if mems == [] {
      return [];
    }
    var rs := Sort(mems);
    SortSorts(mems);
    SortedCover(mems, rs);
    merged := [rs[0]];
    assert rs[..1] == [rs[0]];
    assert Within(rs[0], merged[0]);
    var n := 1;
    while n < |rs|
      invariant 1 <= n <= |rs| && merged != [] && AllOk(merged)
      invariant Progress(rs[..n], merged, rs[n - 1].base)
    {
      var last := merged[|merged| - 1];
      ProgressStep(rs, n, merged, last);
      if !Overlap(last, rs[n]) {
        merged := merged + [rs[n]];
      } else if CoversSpace(last, rs[n]) {
        merged := WHOLE;
        SortedLinks(mems, rs);
        WholeLinks(mems);
        return;
      } else {
        merged := merged[..|merged| - 1] + [Merge(last, rs[n])];
      }
      n := n + 1;
    }
    assert rs[..n] == rs;
    SortedUncut(mems, rs, merged);
    SortedLinks(mems, rs);
  }

  lemma {:induction false} WholeLinks(mems: seq<Region>)
    requires AllLinked(mems)
    ensures LinksOnly(mems, WHOLE)
  {
  }

  lemma {:induction false} SortedLinks(mems: seq<Region>, rs: seq<Region>)
    requires multiset(mems) == multiset(rs)
    ensures forall x: nat :: Linked(rs, x) ==> Linked(mems, x)
  {
    forall x: nat | Linked(rs, x) ensures Linked(mems, x) {
      var i :| 0 <= i < |rs| && HasBoth(rs[i], x);
      assert rs[i] in multiset(mems);
      var j :| 0 <= j < |mems| && mems[j] == rs[i];
      assert HasBoth(mems[j], x);
    }
  }

  // These properties leave nothing open: there is only one such list.
  lemma {:induction false} MergedIsUnique(rs: seq<Region>, a: seq<Region>, b: seq<Region>)
    requires AllOk(a) && Separate(a) && SameCover(rs, a) && LinksOnly(rs, a) && Uncut(rs, a)
    requires AllOk(b) && Separate(b) && SameCover(rs, b) && LinksOnly(rs, b) && Uncut(rs, b)
    ensures a == b
  {
    forall x: nat ensures Linked(a, x) <==> Linked(b, x) {
      UncutLinks(rs, a, x);
      UncutLinks(rs, b, x);
    }
    forall x: nat ensures Covered(a, x) <==> Covered(b, x) {
      assert Covered(rs, x) <==> Covered(a, x);
    }
    SameLinks(a, b);
  }

  lemma {:induction false} UncutLinks(rs: seq<Region>, merged: seq<Region>, x: nat)
    requires Uncut(rs, merged)
    ensures Linked(rs, x) ==> Linked(merged, x)
  {
    if Linked(rs, x) {
      var i :| 0 <= i < |rs| && HasBoth(rs[i], x);
      assert InOne(rs[i], merged);
      var j :| 0 <= j < |merged| && Within(rs[i], merged[j]);
      assert HasBoth(merged[j], x);
    }
  }

  lemma {:induction false} SameLinks(a: seq<Region>, b: seq<Region>)
    requires AllOk(a) && Separate(a) && AllOk(b) && Separate(b)
    requires forall x: nat :: Covered(a, x) <==> Covered(b, x)
    requires forall x: nat :: Linked(a, x) <==> Linked(b, x)
    ensures a == b
  {
    if a == [] {
      EmptyCover(a, b);
    } else if b == [] {
      EmptyCover(b, a);
    } else {
      FirstsAgree(a, b);
      TailsAgree(a, b);
      SameLinks(a[1..], b[1..]);
      assert a == [a[0]] + a[1..] && b == [b[0]] + b[1..];
    }
  }

  lemma {:induction false} EmptyCover(a: seq<Region>, b: seq<Region>)
    requires AllOk(b) && a == [] && forall x: nat :: Covered(b, x) ==> Covered(a, x)
    ensures b == []
  {
    if b != [] {
      assert Has(b[0], b[0].base);
      assert Covered(b, b[0].base);
    }
  }

  // The first region of `a` starts no later than that of `b`, and ends no earlier.
  lemma {:induction false} FirstReaches(a: seq<Region>, b: seq<Region>)
    requires AllOk(a) && Separate(a) && AllOk(b) && Separate(b) && a != [] && b != []
    requires forall x: nat :: Covered(b, x) ==> Covered(a, x)
    ensures a[0].base <= b[0].base
  {
    assert Has(b[0], b[0].base);
    assert Covered(b, b[0].base);
    var j :| 0 <= j < |a| && Has(a[j], b[0].base);
    assert j > 0 ==> End(a[0]) <= a[j].base;
  }

  lemma {:induction false} LinkedBy(rs: seq<Region>, i: nat, x: nat)
    requires i < |rs| && HasBoth(rs[i], x)
    ensures Linked(rs, x)
  {
  }

  lemma {:induction false} FirstEnds(a: seq<Region>, b: seq<Region>)
    requires AllOk(a) && Separate(a) && AllOk(b) && Separate(b) && a != [] && b != [] && a[0].base == b[0].base
    requires forall x: nat :: Linked(b, x) ==> Linked(a, x)
    ensures End(b[0]) <= End(a[0])
  {
    if End(a[0]) < End(b[0]) {
      var x: nat := End(a[0]) - 1;
      forall j | 0 <= j < |a| ensures !HasBoth(a[j], x) {
        assert j > 0 ==> End(a[0]) <= a[j].base;
      }
      LinkedBy(b, 0, x);
    }
  }

  lemma {:induction false} FirstsAgree(a: seq<Region>, b: seq<Region>)
    requires AllOk(a) && Separate(a) && AllOk(b) && Separate(b) && a != [] && b != []
    requires forall x: nat :: Covered(a, x) <==> Covered(b, x)
    requires forall x: nat :: Linked(a, x) <==> Linked(b, x)
    ensures a[0] == b[0]
  {
    FirstReaches(a, b);
    FirstReaches(b, a);
    FirstEnds(a, b);
    FirstEnds(b, a);
  }

  lemma {:induction false} DropCover(a: seq<Region>, x: nat)
    requires AllOk(a) && Separate(a) && a != []
    ensures Covered(a[1..], x) <==> Covered(a, x) && !Has(a[0], x)
    ensures Linked(a[1..], x) <==> Linked(a, x) && !HasBoth(a[0], x)
  {
    assert forall j | 0 < j < |a| :: End(a[0]) <= a[j].base && a[1..][j - 1] == a[j];
    if Covered(a, x) && !Has(a[0], x) {
      var j :| 0 <= j < |a| && Has(a[j], x);
      assert Has(a[1..][j - 1], x);
    }
    if Linked(a, x) && !HasBoth(a[0], x) {
      var j :| 0 <= j < |a| && HasBoth(a[j], x);
      assert HasBoth(a[1..][j - 1], x);
    }
    if Covered(a[1..], x) {
      var j :| 0 <= j < |a| - 1 && Has(a[1..][j], x);
      assert Has(a[j + 1], x);
    }
    if Linked(a[1..], x) {
      var j :| 0 <= j < |a| - 1 && HasBoth(a[1..][j], x);
      assert HasBoth(a[j + 1], x);
    }
  }

  lemma {:induction false} TailsAgree(a: seq<Region>, b: seq<Region>)
    requires AllOk(a) && Separate(a) && AllOk(b) && Separate(b) && a != [] && b != [] && a[0] == b[0]
    requires forall x: nat :: Covered(a, x) <==> Covered(b, x)
    requires forall x: nat :: Linked(a, x) <==> Linked(b, x)
    ensures forall x: nat :: Covered(a[1..], x) <==> Covered(b[1..], x)
    ensures forall x: nat :: Linked(a[1..], x) <==> Linked(b[1..], x)
  {
    forall x: nat
      ensures Covered(a[1..], x) <==> Covered(b[1..], x)
      ensures Linked(a[1..], x) <==> Linked(b[1..], x)
    {
      DropCover(a, x);
      DropCover(b, x);
    }
  }

  lemma {:induction false} SortedCover(mems: seq<Region>, rs: seq<Region>)
    requires multiset(mems) == multiset(rs) && AllOk(mems)
    ensures SameCover(mems, rs) && AllOk(rs) && |rs| == |mems|
  {
    forall a: nat ensures Covered(mems, a) <==> Covered(rs, a) {
      SameElements(mems, rs, a);
    }
    SameElements(mems, rs, 0);
    assert |multiset(mems)| == |multiset(rs)|;
  }

  lemma {:induction false} SortedUncut(mems: seq<Region>, rs: seq<Region>, merged: seq<Region>)
    requires multiset(mems) == multiset(rs) && Uncut(rs, merged)
    ensures Uncut(mems, merged)
  {
    forall i | 0 <= i < |mems| ensures InOne(mems[i], merged) {
      assert mems[i] in multiset(mems);
      assert mems[i] in rs;
      var j :| 0 <= j < |rs| && rs[j] == mems[i];
      assert InOne(rs[j], merged);
    }
  }
}
