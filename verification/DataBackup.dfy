/**
  The log as the object it is: a queue of groups, one per unresolved branch, filled at the back
  and drained newest first; and the rollback loop over it.
 */
module DataBackup {
  import opened Words
  import opened UndoLog

  function Flatten(groups: seq<seq<Entry>>): seq<Entry> {
    if groups == [] then [] else Flatten(groups[..|groups| - 1]) + groups[|groups| - 1]
  }

  lemma {:induction false} FlattenSnoc(groups: seq<seq<Entry>>, g: seq<Entry>)
    ensures Flatten(groups + [g]) == Flatten(groups) + g
  {
    assert (groups + [g])[..|groups|] == groups;
  }

  lemma {:induction false} FlattenFirst(groups: seq<seq<Entry>>)
    requires groups != []
    ensures Flatten(groups) == groups[0] + Flatten(groups[1..])
  {
    var n := |groups| - 1;
    if n > 0 {
      FlattenFirst(groups[..n]);
      assert groups[..n][1..] == groups[1..][..n - 1];
    } else {
      assert groups[..0] == [] && groups[1..] == [];
    }
  }

  function PushLast(groups: seq<seq<Entry>>, e: Entry): seq<seq<Entry>>
    requires groups != []
  {
    groups[|groups| - 1 := groups[|groups| - 1] + [e]]
  }

  // The entry handed out when the newest group is empty; its address marks it as empty.
  const NO_ENTRY := Entry(0, 0, 0)

  class Backup {
    var groups: seq<seq<Entry>>
    var stable: bool

    constructor ()
      ensures groups == [] && stable
    {
      groups, stable := [], true;
    }

    // Nothing is left to drain, neither an entry nor an open group.
    method IsEmpty() returns (r: bool)
      ensures r <==> Size(groups) == 0
    {
      r := |groups| == 0;
    }

    method MakeBackupEntry()
      requires stable
      modifies this
      ensures groups == old(groups) + [[]] && stable
      ensures Flatten(groups) == Flatten(old(groups))
    {
      FlattenSnoc(groups, []);
      groups := groups + [[]];
    }

    method Push(e: Entry)
      requires stable && groups != []
      modifies this
      ensures groups == PushLast(old(groups), e) && stable
      ensures Flatten(groups) == Flatten(old(groups)) + [e]
    {
      var n := |groups| - 1;
      assert PushLast(groups, e)[..n] == groups[..n];
      groups := groups[n := groups[n] + [e]];
    }

    // The log loses exactly what the oldest group holds.
    method Pop()
      requires stable && groups != []
      modifies this
      ensures groups == old(groups)[1..] && stable
      ensures Flatten(old(groups)) == old(groups)[0] + Flatten(groups)
    {
      FlattenFirst(groups);
      groups := groups[1..];
    }

    // Takes the newest entry, dropping groups as they run empty. An empty newest group costs one
    // call that hands out no entry. Either way entries plus groups go down, and the log becomes
    // usable again exactly when it is drained.
    method GetBackupEntry() returns (e: Entry)
      requires groups != []
      modifies this
      ensures Size(groups) < Size(old(groups))
      ensures if old(groups)[|old(groups)| - 1] == [] then e == NO_ENTRY && Flatten(groups) == Flatten(old(groups))
              else Flatten(old(groups)) == Flatten(groups) + [e]
      ensures stable <==> groups == []
    {
      stable := false;
      var n := |groups| - 1;
      var g := groups[n];
      assert Flatten(groups) == Flatten(groups[..n]) + g;
      if |g| == 0 {
        groups := groups[..n];
        e := NO_ENTRY;
      } else {
        e := g[|g| - 1];
        var g' := g[..|g| - 1];
        assert g == g' + [e];
        FlattenSnoc(groups[..n], g');
        groups := if |g'| == 0 then groups[..n] else groups[..n] + [g'];
      }
      if |groups| == 0 {
        stable := true;
      }
    }
  }

  function Size(groups: seq<seq<Entry>>): nat {
    if groups == [] then 0 else Size(groups[..|groups| - 1]) + 1 + |groups[|groups| - 1]|
  }

  /* ---------- the rollback ---------- */

  // Restored memory when only the words in `done` have been written back.
  function RestoredWords(m: Memory, cl: CleanMap, done: set<nat>): Memory {
    map a | a in m :: if a - a % 8 in done && Covers(cl, a) then Value(cl, a) else m[a]
  }

  predicate CoveredMapped(m: Memory, cl: CleanMap) {
    forall w, i | w in cl && 0 <= i < 8 && ByteOf(cl[w].mask, i) == 0xFF :: w + i in m
  }

  predicate Aligned(cl: CleanMap) {
    forall w | w in cl :: w % 8 == 0
  }

  // Drains the whole log into merged words.
  method DrainLog(log: Backup) returns (cl: CleanMap)
    requires LogOk(Flatten(log.groups))
    modifies log
    ensures log.groups == [] && (old(log.groups) != [] ==> log.stable)
    ensures LogOk(Flatten(old(log.groups))) && cl == Drain(Flatten(old(log.groups)), 0)
  {
    cl := map[];
    ghost var full := Flatten(log.groups);
    ghost var k: nat := |full|;
    var empty := log.IsEmpty();
    while !empty
      invariant empty <==> log.groups == []
      invariant k <= |full| && Flatten(log.groups) == full[..k]
      invariant cl == Drain(full, k)
      invariant log.groups == [] ==> k == 0
      invariant log.groups == [] && old(log.groups) != [] ==> log.stable
      decreases Size(log.groups)
    {
      ghost var before := log.groups;
      var e := log.GetBackupEntry();
      if before[|before| - 1] != [] {
        assert full[..k] == Flatten(log.groups) + [e];
        k := k - 1;
        assert full[..k + 1][..k] == full[..k] && e == full[k];
      }
      empty := log.IsEmpty();
      if e.addr == 0 {
        continue;
      }
      cl := Absorb(cl, e);
    }
  }

  lemma {:induction false} AllWordsDone(m: Memory, cl: CleanMap)
    ensures RestoredWords(m, cl, cl.Keys) == Restored(m, cl)
  {
  }

  // Writes the masked bytes of every merged word back, in whatever order the words come.
  method WriteBack(m: Memory, cl: CleanMap) returns (m': Memory)
    requires Aligned(cl) && CoveredMapped(m, cl)
    ensures m' == Restored(m, cl)
  {
    m' := m;
    var todo := cl.Keys;
    assert cl.Keys - todo == {};
    while todo != {}
      invariant todo <= cl.Keys
      invariant m' == RestoredWords(m, cl, cl.Keys - todo)
      decreases todo
    {
      var w :| w in todo;
      m' := WriteWord(m', m, cl, w, cl.Keys - todo);
      assert cl.Keys - (todo - {w}) == cl.Keys - todo + {w};
      todo := todo - {w};
    }
    assert cl.Keys - {} == cl.Keys;
    AllWordsDone(m, cl);
  }

  lemma {:induction false} WordOf(w: nat, a: nat)
    requires w % 8 == 0
    ensures a - a % 8 == w <==> w <= a < w + 8
    ensures w <= a < w + 8 ==> a % 8 == a - w
  {
  }

  // Memory with the first `i` bytes of word `w` written back.
  function WrittenBytes(m: Memory, cl: CleanMap, w: nat, i: nat): Memory {
    map a | a in m :: if w <= a < w + i && Covers(cl, a) then Value(cl, a) else m[a]
  }

  lemma {:induction false} WriteByte(m: Memory, cl: CleanMap, w: nat, i: nat)
    requires w in cl && w % 8 == 0 && i < 8
    requires ByteOf(cl[w].mask, i) == 0xFF ==> w + i in m
    ensures var m' := WrittenBytes(m, cl, w, i);
            WrittenBytes(m, cl, w, i + 1)
            == if ByteOf(cl[w].mask, i) == 0xFF then m'[w + i := ByteOf(cl[w].data, i)] else m'
  {
    WordOf(w, w + i);
    var m', m'' := WrittenBytes(m, cl, w, i), WrittenBytes(m, cl, w, i + 1);
    assert Covers(cl, w + i) <==> ByteOf(cl[w].mask, i) == 0xFF;
    forall a | a in m ensures m''[a] == if a == w + i && Covers(cl, a) then Value(cl, a) else m'[a] {
    }
  }

  lemma {:induction false} WriteWordDone(m: Memory, cl: CleanMap, done: set<nat>, w: nat)
    requires w % 8 == 0
    ensures WrittenBytes(RestoredWords(m, cl, done), cl, w, 8) == RestoredWords(m, cl, done + {w})
  {
    forall a | a in m ensures a - a % 8 == w <==> w <= a < w + 8 {
      WordOf(w, a);
    }
  }

  method WriteWord(m0: Memory, ghost m: Memory, cl: CleanMap, w: nat, ghost done: set<nat>) returns (m': Memory)
    requires w in cl && Aligned(cl) && CoveredMapped(m, cl)
    requires m0 == RestoredWords(m, cl, done)
    ensures m' == RestoredWords(m, cl, done + {w})
  {
    m' := m0;
    for i := 0 to 8
      invariant m' == WrittenBytes(m0, cl, w, i)
    {
      WriteByte(m0, cl, w, i);
      if ByteOf(cl[w].mask, i) == 0xFF {
        m' := m'[w + i := ByteOf(cl[w].data, i)];
      }
    }
    WriteWordDone(m, cl, done, w);
  }

  predicate LogMapped(m: Memory, log: seq<Entry>) {
    forall i | 0 <= i < |log| :: Mapped(m, log[i].addr, log[i].len)
  }

  lemma {:induction false} DrainAligned(log: seq<Entry>, k: nat)
    requires k <= |log| && LogOk(log)
    ensures Aligned(Drain(log, k))
    decreases |log| - k
  {
    if k < |log| {
      DrainAligned(log, k + 1);
    }
  }

  lemma {:induction false} CoveredIsMapped(m: Memory, log: seq<Entry>, a: nat)
    requires LogOk(log) && LogMapped(m, log) && Covers(Drain(log, 0), a)
    ensures a in m
  {
    DrainByte(log, 0, a);
    var f := FirstEffective(ShapesOf(log), 0, a);
    assert Mapped(m, log[f].addr, log[f].len);
  }

  lemma {:induction false} CoversAt(cl: CleanMap, w: nat, i: nat)
    requires w in cl && w % 8 == 0 && i < 8
    ensures Covers(cl, w + i) <==> ByteOf(cl[w].mask, i) == 0xFF
    ensures Covers(cl, w + i) ==> Value(cl, w + i) == ByteOf(cl[w].data, i)
  {
    WordOf(w, w + i);
  }

  lemma {:induction false} DrainMapped(m: Memory, log: seq<Entry>)
    requires LogOk(log) && LogMapped(m, log)
    ensures CoveredMapped(m, Drain(log, 0))
  {
    var cl := Drain(log, 0);
    DrainAligned(log, 0);
    forall w, i | w in cl && 0 <= i < 8 && ByteOf(cl[w].mask, i) == 0xFF ensures w + i in m {
      CoversAt(cl, w, i);
      CoveredIsMapped(m, log, w + i);
    }
  }

  method MemoryRollBack(log: Backup, m: Memory) returns (m': Memory)
    requires LogOk(Flatten(log.groups)) && LogMapped(m, Flatten(log.groups))
    modifies log
    ensures log.groups == [] && (old(log.groups) != [] ==> log.stable)
    ensures LogOk(Flatten(old(log.groups))) && m' == Restored(m, Drain(Flatten(old(log.groups)), 0))
  {
    DrainMapped(m, Flatten(log.groups));
    DrainAligned(Flatten(log.groups), 0);
    var cl := DrainLog(log);
    m' := WriteBack(m, cl);
  }

  lemma {:induction false} ReferenceByte(m: Memory, c: Clean, w: nat, i: nat)
    requires Mapped(m, w, 8) && i < 8 && MaskByteOk(c, i)
    requires ByteOf(c.mask, i) == 0xFF ==> ByteOf(c.data, i) == m[w + i]
    ensures ByteOf(And(Pack(ReadBytes(m, w, 8)), c.mask), i) == ByteOf(c.data, i)
  {
    var word := Pack(ReadBytes(m, w, 8));
    ByteAnd(word, c.mask, i);
    assert AndAt(word, c.mask, i);
    BytePack(ReadBytes(m, w, 8), i);
  }

  // The check made before each word is written: the reference memory, which never saw a wrong-path
  // store, agrees with the merged word on the masked bytes. It cannot fail after recoverable stores.
  lemma {:induction false} ReferenceAgrees(m: Memory, sts: seq<Store>, w: nat)
    requires StoresOk(m, sts) && Recoverable(StoreShapes(sts))
    requires LogOk(LogOf(m, sts, |sts|)) && w in Drain(LogOf(m, sts, |sts|), 0)
    requires Mapped(m, w, 8)
    ensures var c := Drain(LogOf(m, sts, |sts|), 0)[w];
            And(Pack(ReadBytes(m, w, 8)), c.mask) == c.data
  {
    var log := LogOf(m, sts, |sts|);
    DrainAligned(log, 0);
    DrainKeepsOk(log, 0);
    RollbackRestores(m, sts);
    WordAgrees(After(m, sts, |sts|), m, Drain(log, 0), w);
  }

  lemma {:induction false} WordAgrees(m': Memory, m: Memory, cl: CleanMap, w: nat)
    requires Restored(m', cl) == m && w in cl && Aligned(cl) && CleanMapOk(cl) && Mapped(m, w, 8)
    ensures And(Pack(ReadBytes(m, w, 8)), cl[w].mask) == cl[w].data
  {
    var c := cl[w];
    forall i | 0 <= i < 8 ensures ByteOf(And(Pack(ReadBytes(m, w, 8)), c.mask), i) == ByteOf(c.data, i) {
      assert MaskByteOk(c, i);
      CoversAt(cl, w, i);
      RestoredByte(m', m, cl, w + i);
      ReferenceByte(m, c, w, i);
    }
    SameBytes(And(Pack(ReadBytes(m, w, 8)), c.mask), c.data);
  }

  lemma {:induction false} RestoredByte(m': Memory, m: Memory, cl: CleanMap, a: nat)
    requires Restored(m', cl) == m && a in m
    ensures Covers(cl, a) ==> Value(cl, a) == m[a]
  {
    assert a in Restored(m', cl);
  }
}
