/**
  The undo log for wrong-path stores: every store first logs the bytes it overwrites; a rollback
  drains the log newest first, merges the entries into one masked 8-byte word per aligned
  address, and writes the masked bytes back.
 */
module UndoLog {
  import opened Words

  // Mapped memory; a store to an unmapped address traps before it is logged or performed.
  type Memory = map<nat, Byte>

  datatype Store = Store(addr: nat, bytes: seq<Byte>)

  // What is logged: address, old bytes as one word, number of bytes.
  datatype Entry = Entry(addr: nat, data: bv64, len: nat)

  // A merged word; `mask` has 0xFF in the bytes to restore.
  datatype Clean = Clean(data: bv64, mask: bv64)

  type CleanMap = map<nat, Clean>

  /* ---------- stores and the simple undo ---------- */

  predicate Touches(addr: nat, len: nat, a: nat) {
    addr <= a < addr + len
  }

  predicate Mapped(m: Memory, addr: nat, len: nat) {
    forall a | addr <= a < addr + len :: a in m
  }

  function Write(m: Memory, addr: nat, bytes: seq<Byte>): (m': Memory)
    ensures m'.Keys == m.Keys
  {
    map a | a in m :: if Touches(addr, |bytes|, a) then bytes[a - addr] else m[a]
  }

  function ReadBytes(m: Memory, addr: nat, len: nat): (bs: seq<Byte>)
    requires Mapped(m, addr, len)
    ensures |bs| == len
  {
    seq(len, i requires 0 <= i < len => m[addr + i])
  }

  function Record(m: Memory, addr: nat, len: nat): Entry
    requires Mapped(m, addr, len)
  {
    Entry(addr, Pack(ReadBytes(m, addr, len)), len)
  }

  // The byte an entry holds for address `a`.
  function Held(e: Entry, a: nat): Byte
    requires e.addr <= a
  {
    ByteOf(e.data, a - e.addr)
  }

  function UndoOne(m: Memory, e: Entry): (m': Memory)
    ensures m'.Keys == m.Keys
  {
    map a | a in m :: if Touches(e.addr, e.len, a) then Held(e, a) else m[a]
  }

  // Undoes entries 0..k one at a time, newest first.
  function UndoAll(m: Memory, log: seq<Entry>, k: nat): (m': Memory)
    requires k <= |log|
    ensures m'.Keys == m.Keys
    decreases k
  {
    if k == 0 then m else UndoAll(UndoOne(m, log[k - 1]), log, k - 1)
  }

  /* ---------- the masked rollback ---------- */

  // (UINT64_MAX >> (64 - 8 * len)) << 8 * offset
  function MaskOf(len: nat, offset: nat): bv64
    requires len <= 8
  {
    ShiftUp(ShiftDown(ONES, 8 - len), offset)
  }

  // Takes one drained entry into the merged words; entries drained later are older and win.
  function Absorb(cl: CleanMap, e: Entry): CleanMap
    requires e.len <= 8
  {
    if e.addr == 0 then cl
    else
      var offset := e.addr % 8;
      var word := e.addr - offset;
      var data := ShiftUp(e.data, offset);
      var mask := MaskOf(e.len, offset);
      if word in cl then cl[word := Merge(cl[word], data, mask)] else cl[word := Clean(data, mask)]
  }

  function Merge(had: Clean, data: bv64, mask: bv64): Clean {
    var overlap := And(mask, had.mask);
    var newOnly := AndNot(overlap, mask);
    var oldOnly := AndNot(overlap, had.mask);
    Clean(Or(Or(And(oldOnly, had.data), And(newOnly, data)), And(overlap, data)), Or(mask, had.mask))
  }

  // Entries k.. of the log, drained newest first.
  function Drain(log: seq<Entry>, k: nat): CleanMap
    requires k <= |log| && forall i | 0 <= i < |log| :: log[i].len <= 8
    decreases |log| - k
  {
    if k == |log| then map[] else Absorb(Drain(log, k + 1), log[k])
  }

  // The byte the merged words hold for address `a`, if any.
  predicate Covers(cl: CleanMap, a: nat) {
    a - a % 8 in cl && ByteOf(cl[a - a % 8].mask, a % 8) == 0xFF
  }

  function Value(cl: CleanMap, a: nat): Byte
    requires Covers(cl, a)
  {
    ByteOf(cl[a - a % 8].data, a % 8)
  }

  function Restored(m: Memory, cl: CleanMap): (m': Memory)
    ensures m'.Keys == m.Keys
  {
    map a | a in m :: if Covers(cl, a) then Value(cl, a) else m[a]
  }

  /* ---------- what one merged entry does ---------- */

  // The rollback acts on byte `a` of an entry unless the entry is at address 0, which doubles as
  // the empty entry, or `a` lies in the next aligned word, whose bytes are shifted out.
  predicate Effective(addr: nat, len: nat, a: nat) {
    addr != 0 && Touches(addr, len, a) && a - a % 8 == addr - addr % 8
  }

  // Masks select whole bytes, and a byte that is not selected holds nothing.
  predicate MaskByteOk(c: Clean, i: nat) {
    (ByteOf(c.mask, i) == 0 && ByteOf(c.data, i) == 0) || ByteOf(c.mask, i) == 0xFF
  }

  predicate CleanOk(c: Clean) {
    forall i | 0 <= i < 8 :: MaskByteOk(c, i)
  }

  predicate CleanMapOk(cl: CleanMap) {
    forall w | w in cl :: CleanOk(cl[w])
  }

  lemma {:induction false} MaskByte(len: nat, offset: nat, i: nat)
    requires len <= 8 && i < 8
    ensures ByteOf(MaskOf(len, offset), i) == if offset <= i < offset + len then 0xFF else 0
  {
    ByteShiftUp(ShiftDown(ONES, 8 - len), offset, i);
    if offset <= i {
      ByteShiftDown(ONES, 8 - len, i - offset);
      var j := i - offset + (8 - len);
      if j < 8 { OnesBytes(j); } else { ByteBeyond(ONES, j); }
    }
  }

  // Bytewise merge: where the new mask is set the new data wins, elsewhere the old word stays.
  function MergeByte(m0: Byte, d0: Byte, m: Byte, d: Byte): (Byte, Byte) {
    var overlap := And(m, m0);
    (Or(Or(And(AndNot(overlap, m0), d0), And(AndNot(overlap, m), d)), And(overlap, d)), Or(m, m0))
  }

  lemma {:induction false} MergeIsBytewise(had: Clean, data: bv64, mask: bv64, i: nat)
    ensures (ByteOf(Merge(had, data, mask).data, i), ByteOf(Merge(had, data, mask).mask, i))
         == MergeByte(ByteOf(had.mask, i), ByteOf(had.data, i), ByteOf(mask, i), ByteOf(data, i))
  {
    var overlap := And(mask, had.mask);
    var newOnly := AndNot(overlap, mask);
    var oldOnly := AndNot(overlap, had.mask);
    var x, y, z := And(oldOnly, had.data), And(newOnly, data), And(overlap, data);
    ByteAnd(mask, had.mask, i);
    ByteAndNot(overlap, mask, i);
    ByteAndNot(overlap, had.mask, i);
    ByteAnd(oldOnly, had.data, i);
    ByteAnd(newOnly, data, i);
    ByteAnd(overlap, data, i);
    ByteOr(x, y, i);
    ByteOr(Or(x, y), z, i);
    ByteOr(mask, had.mask, i);
  }

  lemma {:induction false} MergeOutcome(had: Clean, data: bv64, mask: bv64, i: nat)
    requires MaskByteOk(had, i) && (ByteOf(mask, i) == 0 || ByteOf(mask, i) == 0xFF)
    ensures var c := Merge(had, data, mask);
            if ByteOf(mask, i) == 0xFF then ByteOf(c.mask, i) == 0xFF && ByteOf(c.data, i) == ByteOf(data, i)
            else ByteOf(c.mask, i) == ByteOf(had.mask, i) && ByteOf(c.data, i) == ByteOf(had.data, i)
  {
    MergeIsBytewise(had, data, mask, i);
  }

  // A logged entry holds nothing beyond its length.
  predicate EntryOk(e: Entry) {
    e.len <= 8 && forall j | e.len <= j < 8 :: ByteOf(e.data, j) == 0
  }

  lemma {:induction false} InsertedByte(e: Entry, i: nat)
    requires EntryOk(e) && i < 8
    ensures var offset := e.addr % 8;
            var c := Clean(ShiftUp(e.data, offset), MaskOf(e.len, offset));
            && MaskByteOk(c, i)
            && (ByteOf(c.mask, i) == 0xFF <==> offset <= i < offset + e.len)
            && (offset <= i ==> ByteOf(c.data, i) == ByteOf(e.data, i - offset))
  {
    MaskByte(e.len, e.addr % 8, i);
    ByteShiftUp(e.data, e.addr % 8, i);
  }

  lemma {:induction false} MergedByte(had: Clean, e: Entry, i: nat)
    requires EntryOk(e) && i < 8 && MaskByteOk(had, i)
    ensures var offset := e.addr % 8;
            var c := Merge(had, ShiftUp(e.data, offset), MaskOf(e.len, offset));
            && MaskByteOk(c, i)
            && (ByteOf(c.mask, i) == 0xFF <==> offset <= i < offset + e.len || ByteOf(had.mask, i) == 0xFF)
            && ByteOf(c.data, i)
               == if offset <= i < offset + e.len then ByteOf(e.data, i - offset) else ByteOf(had.data, i)
  {
    var offset := e.addr % 8;
    var data, mask := ShiftUp(e.data, offset), MaskOf(e.len, offset);
    InsertedByte(e, i);
    MergeOutcome(had, data, mask, i);
  }

  // One drained entry: it takes over the bytes it is effective on and leaves the others.
  lemma {:induction false} AbsorbByte(cl: CleanMap, e: Entry, a: nat)
    requires CleanMapOk(cl) && EntryOk(e)
    ensures Covers(Absorb(cl, e), a) <==> Effective(e.addr, e.len, a) || Covers(cl, a)
    ensures Covers(Absorb(cl, e), a) ==>
              Value(Absorb(cl, e), a) == if Effective(e.addr, e.len, a) then Held(e, a) else Value(cl, a)
  {
    var word, i := a - a % 8, a % 8;
    if e.addr != 0 && word == e.addr - e.addr % 8 {
      if word in cl {
        assert MaskByteOk(cl[word], i);
        MergedByte(cl[word], e, i);
      } else {
        InsertedByte(e, i);
      }
    }
  }

  lemma {:induction false} AbsorbKeepsOk(cl: CleanMap, e: Entry)
    requires CleanMapOk(cl) && EntryOk(e)
    ensures CleanMapOk(Absorb(cl, e))
  {
    if e.addr != 0 {
      var offset := e.addr % 8;
      var word := e.addr - offset;
      var c := Absorb(cl, e)[word];
      forall i | 0 <= i < 8 ensures MaskByteOk(c, i) {
        if word in cl {
          assert MaskByteOk(cl[word], i);
          MergedByte(cl[word], e, i);
        } else {
          InsertedByte(e, i);
        }
      }
    }
  }

  /* ---------- the rollback byte by byte ---------- */

  // Where stores go: enough to say which of them touch a byte and which are effective on it.
  datatype Shape = Shape(addr: nat, len: nat)

  // Oldest of the shapes from `k` on that touches `a`; the number of shapes if none does.
  function FirstTouch(shapes: seq<Shape>, k: nat, a: nat): (f: nat)
    requires k <= |shapes|
    ensures k <= f <= |shapes|
    ensures f < |shapes| ==> Touches(shapes[f].addr, shapes[f].len, a)
    ensures forall j | k <= j < f :: !Touches(shapes[j].addr, shapes[j].len, a)
    decreases |shapes| - k
  {
    if k == |shapes| || Touches(shapes[k].addr, shapes[k].len, a) then k else FirstTouch(shapes, k + 1, a)
  }

  // Likewise for the oldest that is effective on `a`.
  function FirstEffective(shapes: seq<Shape>, k: nat, a: nat): (f: nat)
    requires k <= |shapes|
    ensures k <= f <= |shapes|
    ensures f < |shapes| ==> Effective(shapes[f].addr, shapes[f].len, a)
    ensures forall j | k <= j < f :: !Effective(shapes[j].addr, shapes[j].len, a)
    decreases |shapes| - k
  {
    if k == |shapes| || Effective(shapes[k].addr, shapes[k].len, a) then k else FirstEffective(shapes, k + 1, a)
  }

  function ShapesOf(log: seq<Entry>): (shapes: seq<Shape>)
    ensures |shapes| == |log|
    ensures forall i | 0 <= i < |log| :: shapes[i] == Shape(log[i].addr, log[i].len)
  {
    seq(|log|, i requires 0 <= i < |log| => Shape(log[i].addr, log[i].len))
  }

  predicate LogOk(log: seq<Entry>) {
    forall i | 0 <= i < |log| :: EntryOk(log[i])
  }

  lemma {:induction false} DrainKeepsOk(log: seq<Entry>, k: nat)
    requires k <= |log| && LogOk(log)
    ensures CleanMapOk(Drain(log, k))
    decreases |log| - k
  {
    if k < |log| {
      DrainKeepsOk(log, k + 1);
      AbsorbKeepsOk(Drain(log, k + 1), log[k]);
    }
  }

  // The merged words hold, for every byte, what the oldest effective entry logged for it.
  lemma {:induction false} DrainByte(log: seq<Entry>, k: nat, a: nat)
    requires k <= |log| && LogOk(log)
    ensures var f := FirstEffective(ShapesOf(log), k, a);
            && (Covers(Drain(log, k), a) <==> f < |log|)
            && (f < |log| ==> Value(Drain(log, k), a) == Held(log[f], a))
    decreases |log| - k
  {
    if k < |log| {
      DrainByte(log, k + 1, a);
      DrainKeepsOk(log, k + 1);
      AbsorbByte(Drain(log, k + 1), log[k], a);
    }
  }

  // Undoing one at a time leaves, for every byte, what the oldest entry touching it logged.
  lemma {:induction false} UndoByte(m: Memory, log: seq<Entry>, k: nat, a: nat)
    requires k <= |log| && a in m
    ensures var f := FirstTouch(ShapesOf(log), 0, a);
            UndoAll(m, log, k)[a] == if f < k then Held(log[f], a) else m[a]
    decreases k
  {
    if k > 0 {
      UndoByte(UndoOne(m, log[k - 1]), log, k - 1, a);
    }
  }

  // An entry inside one aligned word and not at address 0.
  predicate InWord(shape: Shape) {
    shape.addr != 0 && shape.addr % 8 + shape.len <= 8
  }

  lemma {:induction false} InWordFirst(shapes: seq<Shape>, k: nat, a: nat)
    requires k <= |shapes| && forall i | 0 <= i < |shapes| :: InWord(shapes[i])
    ensures FirstEffective(shapes, k, a) == FirstTouch(shapes, k, a)
    decreases |shapes| - k
  {
    if k < |shapes| {
      InWordFirst(shapes, k + 1, a);
    }
  }

  // Main result: on every memory and every log of entries inside one aligned word at non-zero
  // addresses, the merged masked rollback is the one-at-a-time undo.
  lemma {:induction false} RollbackRefinesUndo(m: Memory, log: seq<Entry>)
    requires LogOk(log) && forall i | 0 <= i < |log| :: InWord(Shape(log[i].addr, log[i].len))
    ensures Restored(m, Drain(log, 0)) == UndoAll(m, log, |log|)
  {
    forall a | a in m ensures Restored(m, Drain(log, 0))[a] == UndoAll(m, log, |log|)[a] {
      DrainByte(log, 0, a);
      UndoByte(m, log, |log|, a);
      InWordFirst(ShapesOf(log), 0, a);
    }
  }

  /* ---------- logged stores ---------- */

  predicate StoreOk(m: Memory, st: Store) {
    |st.bytes| <= 8 && Mapped(m, st.addr, |st.bytes|)
  }

  predicate StoresOk(m: Memory, sts: seq<Store>) {
    forall i | 0 <= i < |sts| :: StoreOk(m, sts[i])
  }

  // Memory after the first `k` stores.
  function After(m: Memory, sts: seq<Store>, k: nat): (m': Memory)
    requires k <= |sts|
    ensures m'.Keys == m.Keys
  {
    if k == 0 then m else Write(After(m, sts, k - 1), sts[k - 1].addr, sts[k - 1].bytes)
  }

  function EntryFor(m: Memory, sts: seq<Store>, i: nat): Entry
    requires i < |sts| && StoresOk(m, sts)
  {
    assert StoreOk(m, sts[i]);
    Record(After(m, sts, i), sts[i].addr, |sts[i].bytes|)
  }

  // What the hook logs before each of the first `n` stores.
  function LogOf(m: Memory, sts: seq<Store>, n: nat): (log: seq<Entry>)
    requires n <= |sts| && StoresOk(m, sts)
    ensures |log| == n
  {
    if n == 0 then [] else LogOf(m, sts, n - 1) + [EntryFor(m, sts, n - 1)]
  }

  lemma {:induction false} LogAt(m: Memory, sts: seq<Store>, n: nat, i: nat)
    requires i < n <= |sts| && StoresOk(m, sts)
    ensures LogOf(m, sts, n)[i] == EntryFor(m, sts, i)
  {
    if i < n - 1 {
      LogAt(m, sts, n - 1, i);
    }
  }

  lemma {:induction false} LogShapes(m: Memory, sts: seq<Store>)
    requires StoresOk(m, sts)
    ensures ShapesOf(LogOf(m, sts, |sts|)) == StoreShapes(sts)
  {
    forall i | 0 <= i < |sts| ensures ShapesOf(LogOf(m, sts, |sts|))[i] == StoreShapes(sts)[i] {
      LogAt(m, sts, |sts|, i);
    }
  }

  lemma {:induction false} RecordIsOk(m: Memory, addr: nat, len: nat)
    requires len <= 8 && Mapped(m, addr, len)
    ensures EntryOk(Record(m, addr, len))
  {
    var bs := ReadBytes(m, addr, len);
    forall j | len <= j < 8 ensures ByteOf(Pack(bs), j) == 0 {
      BytePack(bs, j);
    }
  }

  // An entry holds the bytes that were in memory when it was logged.
  lemma {:induction false} RecordHolds(m: Memory, addr: nat, len: nat, a: nat)
    requires len <= 8 && Mapped(m, addr, len) && Touches(addr, len, a)
    ensures Held(Record(m, addr, len), a) == m[a]
  {
    BytePack(ReadBytes(m, addr, len), a - addr);
  }

  lemma {:induction false} LogIsOk(m: Memory, sts: seq<Store>)
    requires StoresOk(m, sts)
    ensures LogOk(LogOf(m, sts, |sts|))
  {
    forall i | 0 <= i < |sts| ensures EntryOk(LogOf(m, sts, |sts|)[i]) {
      assert StoreOk(m, sts[i]);
      LogAt(m, sts, |sts|, i);
      RecordIsOk(After(m, sts, i), sts[i].addr, |sts[i].bytes|);
    }
  }

  function StoreShapes(sts: seq<Store>): (shapes: seq<Shape>)
    ensures |shapes| == |sts|
    ensures forall i | 0 <= i < |sts| :: shapes[i] == Shape(sts[i].addr, |sts[i].bytes|)
  {
    seq(|sts|, i requires 0 <= i < |sts| => Shape(sts[i].addr, |sts[i].bytes|))
  }

  // A byte keeps its value until the first store that touches it.
  lemma {:induction false} UntouchedByte(m: Memory, sts: seq<Store>, k: nat, a: nat)
    requires k <= |sts| && a in m && k <= FirstTouch(StoreShapes(sts), 0, a)
    ensures After(m, sts, k)[a] == m[a]
  {
    if k > 0 {
      UntouchedByte(m, sts, k - 1, a);
      assert !Touches(StoreShapes(sts)[k - 1].addr, StoreShapes(sts)[k - 1].len, a);
    }
  }

  // The entry for store `f` holds the value a touched byte had before that store.
  lemma {:induction false} LogHolds(m: Memory, sts: seq<Store>, f: nat, a: nat)
    requires StoresOk(m, sts) && a in m && f < |sts| && Touches(sts[f].addr, |sts[f].bytes|, a)
    ensures Held(EntryFor(m, sts, f), a) == After(m, sts, f)[a]
  {
    assert StoreOk(m, sts[f]);
    RecordHolds(After(m, sts, f), sts[f].addr, |sts[f].bytes|, a);
  }

  // What the rollback leaves in a byte: its value before the oldest store effective on it.
  lemma {:induction false} RollbackByte(m: Memory, sts: seq<Store>, a: nat)
    requires StoresOk(m, sts) && a in m
    ensures LogOk(LogOf(m, sts, |sts|))
    ensures Restored(After(m, sts, |sts|), Drain(LogOf(m, sts, |sts|), 0))[a]
         == After(m, sts, FirstEffective(StoreShapes(sts), 0, a))[a]
  {
    LogIsOk(m, sts);
    LogShapes(m, sts);
    var log := LogOf(m, sts, |sts|);
    var f := FirstEffective(StoreShapes(sts), 0, a);
    RestoredByte(After(m, sts, |sts|), log, a);
    if f < |sts| {
      LogAt(m, sts, |sts|, f);
      LogHolds(m, sts, f, a);
    }
  }

  lemma {:induction false} RestoredByte(m: Memory, log: seq<Entry>, a: nat)
    requires LogOk(log) && a in m
    ensures var f := FirstEffective(ShapesOf(log), 0, a);
            Restored(m, Drain(log, 0))[a] == if f < |log| then Held(log[f], a) else m[a]
  {
    DrainByte(log, 0, a);
  }

  // The rollback can restore byte `a`: nobody touched it, or the first store that did is effective on it.
  predicate RecoverableAt(shapes: seq<Shape>, a: nat) {
    var f := FirstTouch(shapes, 0, a);
    f == |shapes| || Effective(shapes[f].addr, shapes[f].len, a)
  }

  ghost predicate Recoverable(shapes: seq<Shape>) {
    forall a: nat :: RecoverableAt(shapes, a)
  }

  lemma {:induction false} RecoverableFirst(shapes: seq<Shape>, a: nat)
    ensures RecoverableAt(shapes, a) <==> FirstEffective(shapes, 0, a) == FirstTouch(shapes, 0, a)
  {
  }

  // After recoverable stores the rollback gives back the memory before the first of them.
  lemma {:induction false} RollbackRestores(m: Memory, sts: seq<Store>)
    requires StoresOk(m, sts) && Recoverable(StoreShapes(sts))
    ensures LogOk(LogOf(m, sts, |sts|))
    ensures Restored(After(m, sts, |sts|), Drain(LogOf(m, sts, |sts|), 0)) == m
  {
    LogIsOk(m, sts);
    forall a | a in m ensures Restored(After(m, sts, |sts|), Drain(LogOf(m, sts, |sts|), 0))[a] == m[a] {
      assert RecoverableAt(StoreShapes(sts), a);
      RollbackByte(m, sts, a);
      RecoverableFirst(StoreShapes(sts), a);
      UntouchedByte(m, sts, FirstTouch(StoreShapes(sts), 0, a), a);
    }
  }

  lemma {:induction false} UndoRestoresByte(m: Memory, sts: seq<Store>, log: seq<Entry>, a: nat)
    requires StoresOk(m, sts) && a in m && log == LogOf(m, sts, |sts|) && ShapesOf(log) == StoreShapes(sts)
    ensures UndoAll(After(m, sts, |sts|), log, |sts|)[a] == m[a]
  {
    UndoByte(After(m, sts, |sts|), log, |sts|, a);
    var f := FirstTouch(StoreShapes(sts), 0, a);
    UntouchedByte(m, sts, f, a);
    if f < |sts| {
      LogAt(m, sts, |sts|, f);
      LogHolds(m, sts, f, a);
    }
  }

  // Undoing one at a time gives it back whatever the stores are.
  lemma {:induction false} UndoRestores(m: Memory, sts: seq<Store>)
    requires StoresOk(m, sts)
    ensures UndoAll(After(m, sts, |sts|), LogOf(m, sts, |sts|), |sts|) == m
  {
    LogShapes(m, sts);
    var log := LogOf(m, sts, |sts|);
    forall a | a in m ensures UndoAll(After(m, sts, |sts|), log, |sts|)[a] == m[a] {
      UndoRestoresByte(m, sts, log, a);
    }
  }

  /* ---------- exactly when the rollback is right ---------- */

  // The rollback restores memory after any stores of these shapes, whatever memory held and
  // whatever they wrote.
  ghost predicate AlwaysRestores(shapes: seq<Shape>) {
    forall m: Memory, sts: seq<Store> | StoresOk(m, sts) && StoreShapes(sts) == shapes ::
      RestoresAfter(m, sts)
  }

  ghost predicate RestoresAfter(m: Memory, sts: seq<Store>)
    requires StoresOk(m, sts)
  {
    LogOk(LogOf(m, sts, |sts|)) && Restored(After(m, sts, |sts|), Drain(LogOf(m, sts, |sts|), 0)) == m
  }

  // The failing family: memory all zero, every store writes 0xFF.
  function FillBytes(n: nat): (bs: seq<Byte>)
    ensures |bs| == n && forall j | 0 <= j < n :: bs[j] == 0xFF
  {
    if n == 0 then [] else FillBytes(n - 1) + [0xFF]
  }

  function Fill(shapes: seq<Shape>): (sts: seq<Store>)
    ensures |sts| == |shapes|
    ensures forall i | 0 <= i < |sts| :: sts[i] == Store(shapes[i].addr, FillBytes(shapes[i].len))
  {
    if shapes == [] then []
    else
      var n := |shapes| - 1;
      Fill(shapes[..n]) + [Store(shapes[n].addr, FillBytes(shapes[n].len))]
  }

  function End(shapes: seq<Shape>): (n: nat)
    ensures forall i | 0 <= i < |shapes| :: shapes[i].addr + shapes[i].len <= n
  {
    if shapes == [] then 0
    else
      var rest := shapes[..|shapes| - 1];
      var n, last := End(rest), shapes[|shapes| - 1];
      assert forall i | 0 <= i < |rest| :: rest[i] == shapes[i];
      if n < last.addr + last.len then last.addr + last.len else n
  }

  function Zeros(n: nat): (m: Memory)
    ensures forall a: nat :: a in m <==> a < n
    ensures forall a | a in m :: m[a] == 0
  {
    if n == 0 then map[] else Zeros(n - 1)[n - 1 := 0]
  }

  lemma {:induction false} FilledByte(m: Memory, shapes: seq<Shape>, k: nat, a: nat)
    requires k <= |shapes| && a in m && FirstTouch(shapes, 0, a) < k
    ensures After(m, Fill(shapes), k)[a] == 0xFF
  {
    if FirstTouch(shapes, 0, a) < k - 1 {
      FilledByte(m, shapes, k - 1, a);
    }
  }

  lemma {:induction false} UnrecoverableFails(shapes: seq<Shape>, a: nat)
    requires StoresOk(Zeros(End(shapes)), Fill(shapes)) && StoreShapes(Fill(shapes)) == shapes
    requires !RecoverableAt(shapes, a)
    ensures !RestoresAfter(Zeros(End(shapes)), Fill(shapes))
  {
    var m, sts := Zeros(End(shapes)), Fill(shapes);
    RollbackByte(m, sts, a);
    RecoverableFirst(shapes, a);
    FilledByte(m, shapes, FirstEffective(shapes, 0, a), a);
  }

  // Main result: the rollback restores memory, for every content and every data, if and only if
  // each byte touched by the stores is first touched by one that is not at address 0 and has the
  // byte in its own aligned word. Stores that stay inside a word and avoid address 0 always qualify.
  lemma {:induction false} AlwaysRestoresIff(shapes: seq<Shape>)
    requires forall i | 0 <= i < |shapes| :: shapes[i].len <= 8
    ensures AlwaysRestores(shapes) <==> Recoverable(shapes)
  {
    if Recoverable(shapes) {
      forall m: Memory, sts: seq<Store> | StoresOk(m, sts) && StoreShapes(sts) == shapes ensures RestoresAfter(m, sts) {
        RollbackRestores(m, sts);
      }
    } else {
      var a: nat :| !RecoverableAt(shapes, a);
      UnrecoverableFails(shapes, a);
    }
  }

  lemma {:induction false} InWordIsRecoverable(shapes: seq<Shape>)
    requires forall i | 0 <= i < |shapes| :: InWord(shapes[i])
    ensures Recoverable(shapes)
  {
    forall a: nat ensures RecoverableAt(shapes, a) {
      InWordFirst(shapes, 0, a);
    }
  }

  // A concrete failure: one wrong-path byte stored at address 0 is never put back.
  lemma {:induction false} AddressZeroIsLost()
    ensures !AlwaysRestores([Shape(0, 1)])
  {
    assert !RecoverableAt([Shape(0, 1)], 0);
    AlwaysRestoresIff([Shape(0, 1)]);
  }
}
