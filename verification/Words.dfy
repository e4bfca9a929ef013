/**
  64-bit words seen as eight bytes, lowest first: what masking and shifting by whole bytes do to
  each byte.
 */
module Words {

  type Byte = b: bv64 | b <= 0xFF

  const ONES: bv64 := 0xFFFF_FFFF_FFFF_FFFF

  function And(a: bv64, b: bv64): bv64 { a & b }

  function Or(a: bv64, b: bv64): bv64 { a | b }

  function AndNot(a: bv64, b: bv64): bv64 { !a & b }

  function Low(w: bv64): Byte { w & 0xFF }

  function Up(w: bv64): bv64 { w << 8 }

  function Down(w: bv64): bv64 { w >> 8 }

  function ByteOf(w: bv64, i: nat): Byte
    decreases i
  {
    if i == 0 then Low(w) else ByteOf(Down(w), i - 1)
  }

  // Shifts by `k` whole bytes.
  function ShiftUp(w: bv64, k: nat): bv64
    decreases k
  {
    if k == 0 then w else ShiftUp(Up(w), k - 1)
  }

  function ShiftDown(w: bv64, k: nat): bv64
    decreases k
  {
    if k == 0 then w else ShiftDown(Down(w), k - 1)
  }

  /* ---------- every byte ---------- */

  predicate AndAt(a: bv64, b: bv64, i: nat) {
    ByteOf(And(a, b), i) == And(ByteOf(a, i), ByteOf(b, i))
  }

  lemma {:induction false} ByteAnd(a: bv64, b: bv64, i: nat)
    ensures AndAt(a, b, i)
    decreases i
  {
    if i > 0 {
      ByteAnd(Down(a), Down(b), i - 1);
    }
  }

  predicate OrAt(a: bv64, b: bv64, i: nat) {
    ByteOf(Or(a, b), i) == Or(ByteOf(a, i), ByteOf(b, i))
  }

  lemma {:induction false} ByteOr(a: bv64, b: bv64, i: nat)
    ensures OrAt(a, b, i)
    decreases i
  {
    if i == 0 {
    } else {
      ByteOr(Down(a), Down(b), i - 1);
    }
  }

  predicate AndNotAt(a: bv64, b: bv64, i: nat) {
    ByteOf(AndNot(a, b), i) == AndNot(ByteOf(a, i), ByteOf(b, i))
  }

  lemma {:induction false} ByteAndNot(a: bv64, b: bv64, i: nat)
    ensures AndNotAt(a, b, i)
    decreases i
  {
    if i > 0 {
      ByteAndNot(Down(a), Down(b), i - 1);
    }
  }

  lemma {:induction false} ByteZero(i: nat)
    ensures ByteOf(0, i) == 0
  {
    if i > 0 {
      ByteZero(i - 1);
    }
  }

  lemma {:induction false} ByteBeyond(w: bv64, i: nat)
    requires i >= 8
    ensures ByteOf(w, i) == 0
  {
    ByteZero(i - 8);
    assert ByteOf(w, i) == ByteOf(ShiftDown(w, 8), i - 8) by {
      ByteShiftDown(w, 8, i - 8);
    }
  }

  lemma {:induction false} SevenBytes(i: nat)
    requires i < 7
    ensures ByteOf(0x00FF_FFFF_FFFF_FFFF, i) == 0xFF
  {
    assert ByteOf(0x00FF_FFFF_FFFF_FFFF, 0) == 0xFF;
    assert ByteOf(0x00FF_FFFF_FFFF_FFFF, 1) == 0xFF;
    assert ByteOf(0x00FF_FFFF_FFFF_FFFF, 2) == 0xFF;
    assert ByteOf(0x00FF_FFFF_FFFF_FFFF, 3) == 0xFF;
    assert ByteOf(0x00FF_FFFF_FFFF_FFFF, 4) == 0xFF;
    assert ByteOf(0x00FF_FFFF_FFFF_FFFF, 5) == 0xFF;
    assert ByteOf(0x00FF_FFFF_FFFF_FFFF, 6) == 0xFF;
  }

  lemma {:induction false} OnesBytes(i: nat)
    requires i < 8
    ensures ByteOf(ONES, i) == 0xFF
  {
    assert Down(ONES) == 0x00FF_FFFF_FFFF_FFFF;
    if i > 0 {
      SevenBytes(i - 1);
    }
  }

  lemma {:induction false} ByteUp(w: bv64, i: nat)
    requires i < 8
    ensures ByteOf(Up(w), i) == if i > 0 then ByteOf(w, i - 1) else 0
  {
    if i > 0 {
      ByteAnd(w, 0x00FF_FFFF_FFFF_FFFF, i - 1);
      assert AndAt(w, 0x00FF_FFFF_FFFF_FFFF, i - 1);
      SevenBytes(i - 1);
    }
  }

  lemma {:induction false} ByteShiftUp(w: bv64, k: nat, i: nat)
    requires i < 8
    ensures ByteOf(ShiftUp(w, k), i) == if k <= i then ByteOf(w, i - k) else 0
    decreases k
  {
    if k > 0 {
      ByteShiftUp(Up(w), k - 1, i);
      if k - 1 <= i {
        ByteUp(w, i - (k - 1));
      }
    }
  }

  lemma {:induction false} ByteShiftDown(w: bv64, k: nat, i: nat)
    ensures ByteOf(ShiftDown(w, k), i) == ByteOf(w, i + k)
    decreases k
  {
    if k > 0 {
      ByteShiftDown(Down(w), k - 1, i);
    }
  }

  /* ---------- bytes in order ---------- */

  // The word whose lowest bytes are `bs`, as a load of |bs| bytes returns it.
  function Pack(bs: seq<Byte>): bv64 {
    if bs == [] then 0 else Or(bs[0], Up(Pack(bs[1..])))
  }

  lemma {:induction false} BytePack(bs: seq<Byte>, i: nat)
    requires i < 8
    ensures ByteOf(Pack(bs), i) == if i < |bs| then bs[i] else 0
    decreases |bs|
  {
    if bs == [] {
      ByteZero(i);
    } else {
      var rest := Up(Pack(bs[1..]));
      ByteOr(bs[0], rest, i);
      assert OrAt(bs[0], rest, i);
      ByteUp(Pack(bs[1..]), i);
      if i > 0 {
        BytePack(bs[1..], i - 1);
        ByteZero(i - 1);
      }
    }
  }

  lemma {:induction false} SameBytesBelow(a: bv64, b: bv64, n: nat)
    requires forall i | 0 <= i < n :: ByteOf(a, i) == ByteOf(b, i)
    requires ShiftDown(a, n) == ShiftDown(b, n)
    ensures a == b
    decreases n
  {
    if n > 0 {
      assert ByteOf(a, 0) == ByteOf(b, 0);
      forall i | 0 <= i < n - 1 ensures ByteOf(Down(a), i) == ByteOf(Down(b), i) {
        assert ByteOf(a, i + 1) == ByteOf(b, i + 1);
      }
      SameBytesBelow(Down(a), Down(b), n - 1);
    }
  }

  // A word is determined by its eight bytes.
  lemma {:induction false} SameBytes(a: bv64, b: bv64)
    requires forall i | 0 <= i < 8 :: ByteOf(a, i) == ByteOf(b, i)
    ensures a == b
  {
    SameBytesBelow(a, b, 8);
  }
}
