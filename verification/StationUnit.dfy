/**
  The reservation station and the function unit as objects. Each handler of the source works on a
  group; it is proved to be so many single steps of the pipeline model's lane. `all` gives the
  registers of the instructions, which the source reaches through shared pointers.
 */
module StationUnit {
  import opened Prelude
  import opened RenameCore
  import opened Pipeline

  // The lane after `n` steps of one kind, or None if one of them was not possible.
  function Repeat(all: seq<Renamed>, l: Lane, le: LaneEvent, n: nat): Option<Lane> {
    if n == 0 then Some(l)
    else
      var r := Repeat(all, l, le, n - 1);
      if r.None? || !LaneEnabled(all, r.value, le) then None else Some(LaneNext(all, r.value, le))
  }

  // Some instruction waits for register `r`.
  predicate Awaited(tab1: Table, tab2: Table, r: nat) {
    Bucket(tab1, r) != [] || Bucket(tab2, r) != []
  }

  // When its turn comes, result `i` finds somebody waiting for its register.
  predicate Hits(all: seq<Renamed>, l: Lane, group: seq<nat>, i: nat)
    requires i < |group| && group[i] < |all|
  {
    var r := Repeat(all, l, Forward, i);
    r.Some? && Awaited(r.value.tab1, r.value.tab2, all[group[i]].pd)
  }

  class ReservationStation {
    const issueNum: nat
    const depth: nat
    var station: seq<Entry<Operands>>
    var tab1: Table
    var tab2: Table
    var credit: nat

    constructor (issueNum: nat, depth: nat)
      ensures this.issueNum == issueNum && this.depth == depth
      ensures Matches(StartLane(LaneParams({}, depth, 0)))
    {
      this.issueNum := issueNum;
      this.depth := depth;
      station, tab1, tab2, credit := [], map[], map[], 0;
    }

    // The station's part of lane `l`.
    ghost predicate Matches(l: Lane)
      reads this
    {
      l.entries == station && l.tab1 == tab1 && l.tab2 == tab2 && l.fuCredit == credit
    }

    method AcceptCredit(all: seq<Renamed>, more: nat, ghost l: Lane)
      requires Matches(l) && l.fuCreditMsg == more
      modifies this`credit
      ensures Matches(LaneNext(all, l, TakeFuCredit))
    {
      credit := credit + more;
    }

    // An operand not marked for forwarding is valid at once; the others are registered under their
    // register in the dependency table.
    method AllocateOne(all: seq<Renamed>, w: Waiting, ghost l: Lane)
      requires Matches(l) && l.arriving != [] && l.arriving[0] == w && w.uid < |all|
      modifies this
      ensures LaneEnabled(all, l, Arrive) && Matches(LaneNext(all, l, Arrive))
    {
      var valid1, valid2 := !w.f1, !w.f2;
      if !valid1 {
        var r := all[w.uid].p1;
        tab1 := tab1[r := Bucket(tab1, r) + [w.uid]];
      }
      if !valid2 {
        var r := all[w.uid].p2;
        tab2 := tab2[r := Bucket(tab2, r) + [w.uid]];
      }
      station := station + [Entry(w.uid, false, Operands(valid1, valid2))];
    }

    method AllocateReStation(all: seq<Renamed>, group: seq<Waiting>, ghost l: Lane) returns (ghost l': Lane)
      requires Matches(l) && l.arriving == group && forall i | 0 <= i < |group| :: group[i].uid < |all|
      modifies this
      ensures Repeat(all, l, Arrive, |group|) == Some(l') && Matches(l') && l'.arriving == []
    {
      l' := l;
      for i := 0 to |group|
        invariant Repeat(all, l, Arrive, i) == Some(l') && Matches(l') && l'.arriving == group[i..]
      {
        AllocateOne(all, group[i], l');
        l' := LaneNext(all, l', Arrive);
      }
    }

    // Validate the operands waiting for the result of `u` and empty the two buckets. The source
    // reaches the waiting entries through the pointers in the buckets.
    method Resolve(all: seq<Renamed>, u: nat, ghost l: Lane) returns (find: bool)
      requires Matches(l) && l.arriving == [] && l.forwards != [] && l.forwards[0] == u && u < |all|
      modifies this
      ensures LaneEnabled(all, l, Forward) && Matches(LaneNext(all, l, Forward))
      ensures find <==> old(Bucket(tab1, all[u].pd)) != [] || old(Bucket(tab2, all[u].pd)) != []
    {
      var r := all[u].pd;
      var b1, b2 := Bucket(tab1, r), Bucket(tab2, r);
      find := b1 != [] || b2 != [];
      var i, woken := 0, [];
      while i < |station|
        invariant 0 <= i <= |station| == |l.entries| && |woken| == i && station == l.entries
        invariant forall j | 0 <= j < i :: woken[j] == Wake(l, l.entries[j], r)
      {
        var e := station[i];
        woken := woken + [e.(operands := Operands(e.operands.v1 || e.uid in b1, e.operands.v2 || e.uid in b2))];
        i := i + 1;
      }
      station := woken;
      tab1 := tab1[r := []];
      tab2 := tab2[r := []];
    }

    method ForwardNext(all: seq<Renamed>, group: seq<nat>, i: nat, ghost l: Lane, ghost l1: Lane)
      returns (find: bool, ghost l': Lane)
      requires i < |group| && group[i] < |all| && Repeat(all, l, Forward, i) == Some(l1)
      requires Matches(l1) && l1.arriving == [] && l1.forwards == group[i..]
      modifies this
      ensures Repeat(all, l, Forward, i + 1) == Some(l') && Matches(l')
      ensures l'.arriving == [] && l'.forwards == group[i + 1..]
      ensures find <==> Hits(all, l, group, i)
    {
      find := Resolve(all, group[i], l1);
      l' := LaneNext(all, l1, Forward);
    }

    method GetForwardingData(all: seq<Renamed>, group: seq<nat>, ghost l: Lane) returns (find: bool, ghost l': Lane)
      requires Matches(l) && l.arriving == [] && l.forwards == group && forall i | 0 <= i < |group| :: group[i] < |all|
      modifies this
      ensures Repeat(all, l, Forward, |group|) == Some(l') && Matches(l') && l'.forwards == []
      ensures find <==> exists i :: 0 <= i < |group| && Hits(all, l, group, i)
    {
      find, l' := false, l;
      for i := 0 to |group|
        invariant Repeat(all, l, Forward, i) == Some(l') && Matches(l')
        invariant l'.arriving == [] && l'.forwards == group[i..]
        invariant find <==> exists j :: 0 <= j < i && Hits(all, l, group, j)
      {
        var one;
        one, l' := ForwardNext(all, group, i, l, l');
        find := find || one;
      }
    }

    // Only issued entries leave; the loop compares a growing index with a shrinking size, so at
    // most half of the entries, rounded up, leave in one go.
    method PopInst(all: seq<Renamed>, ghost l: Lane) returns (ghost n: nat, ghost l': Lane)
      requires Matches(l)
      modifies this`station
      ensures Repeat(all, l, Pop, n) == Some(l') && Matches(l')
      ensures n <= |old(station)| && station == old(station)[n..] && forall j | 0 <= j < n :: old(station)[j].issued
      ensures 2 * n <= |old(station)| + 1 && (2 * n < |old(station)| ==> !old(station)[n].issued)
    {
      n, l' := 0, l;
      var i := 0;
      while i < |station|
        invariant i == n && 2 * n <= |old(station)| + 1 && station == old(station)[n..]
        invariant Repeat(all, l, Pop, n) == Some(l') && Matches(l')
        invariant forall j | 0 <= j < n :: old(station)[j].issued
      {
        if station[0].issued {
          assert old(station)[n] == station[0];
          station := station[1..];
          l' := LaneNext(all, l', Pop);
        } else {
          return;
        }
        n := n + 1;
        i := i + 1;
      }
    }

    // Pass entry `i`, the first ready one, to the function unit.
    method PassOne(all: seq<Renamed>, i: nat, ghost l: Lane)
      requires Matches(l) && i < |station| && Ready(station[i]) && credit > 0
      requires forall j | 0 <= j < i :: !Ready(station[j])
      modifies this
      ensures LaneEnabled(all, l, Pass) && Matches(LaneNext(all, l, Pass))
      ensures station == old(station)[i := old(station)[i].(issued := true)] && credit == old(credit) - 1
      ensures LaneNext(all, l, Pass).fuSent == l.fuSent + [old(station)[i].uid]
      ensures LaneNext(all, l, Pass).creditMsg == l.creditMsg + 1
    {
      credit := credit - 1;
      station := station[i := station[i].(issued := true)];
    }

    // The oldest ready entries go to the function unit, as many as credit and width allow.
    method PassingInst(all: seq<Renamed>, ghost l: Lane) returns (group: seq<nat>, consumed: nat, ghost l': Lane)
      requires Matches(l)
      modifies this
      ensures Repeat(all, l, Pass, |group|) == Some(l') && Matches(l')
      ensures l'.fuSent == l.fuSent + group && consumed == |group| && l'.creditMsg == l.creditMsg + consumed
      ensures |group| <= Min(old(credit), issueNum)
      ensures |group| < Min(old(credit), issueNum) ==> FirstReady(station) == |station|
    {
      group, consumed, l' := [], 0, l;
      var produceNum := Min(credit, issueNum);
      var i := 0;
      while i < |station|
        invariant 0 <= i <= |station| && Matches(l') && Repeat(all, l, Pass, |group|) == Some(l')
        invariant forall j | 0 <= j < i :: !Ready(station[j])
        invariant l'.fuSent == l.fuSent + group && consumed == |group| && l'.creditMsg == l.creditMsg + consumed
        invariant |group| + produceNum == Min(old(credit), issueNum) && credit == old(credit) - |group|
      {
        if produceNum == 0 {
          return;
        }
        if Ready(station[i]) {
          var uid := station[i].uid;
          PassOne(all, i, l');
          l' := LaneNext(all, l', Pass);
          produceNum := produceNum - 1;
          group := group + [uid];
          consumed := consumed + 1;
        }
        i := i + 1;
      }
    }
  }

  // The function unit computes nothing; it is a queue of a given width.
  class PerfectFu {
    const aluWidth: nat
    var aluQueue: seq<nat>

    constructor (aluWidth: nat)
      ensures this.aluWidth == aluWidth && aluQueue == []
    {
      this.aluWidth := aluWidth;
      aluQueue := [];
    }

    method Allocate(all: seq<Renamed>, group: seq<nat>, ghost l: Lane) returns (ghost l': Lane)
      requires l.fuQueue == aluQueue && l.fuArriving == group
      modifies this
      ensures Repeat(all, l, FuArrive, |group|) == Some(l') && l'.fuQueue == aluQueue && l'.fuArriving == []
      ensures aluQueue == old(aluQueue) + group
    {
      l' := l;
      for i := 0 to |group|
        invariant Repeat(all, l, FuArrive, i) == Some(l') && l'.fuQueue == aluQueue && l'.fuArriving == group[i..]
        invariant aluQueue == old(aluQueue) + group[..i]
      {
        aluQueue := aluQueue + [group[i]];
        l' := LaneNext(all, l', FuArrive);
      }
    }

    method FinishOne(all: seq<Renamed>, ghost l: Lane) returns (u: nat)
      requires l.fuQueue == aluQueue != []
      modifies this
      ensures u == old(aluQueue)[0] && aluQueue == old(aluQueue)[1..]
      ensures LaneEnabled(all, l, FuFinish)
      ensures var l' := LaneNext(all, l, FuFinish);
              && l'.fuQueue == aluQueue && l'.wbArriving == l.wbArriving + [u]
              && l'.fuCreditMsg == l.fuCreditMsg + 1
    {
      u := aluQueue[0];
      aluQueue := aluQueue[1..];
    }

    // The oldest instructions leave, at most the width, each giving one credit back.
    method WriteBack(all: seq<Renamed>, ghost l: Lane) returns (group: seq<nat>, credit: nat, ghost l': Lane)
      requires l.fuQueue == aluQueue
      modifies this
      ensures Repeat(all, l, FuFinish, |group|) == Some(l') && l'.fuQueue == aluQueue
      ensures l'.wbArriving == l.wbArriving + group && credit == |group| && l'.fuCreditMsg == l.fuCreditMsg + credit
      ensures |group| == Min(aluWidth, |old(aluQueue)|)
      ensures group == old(aluQueue)[..|group|] && aluQueue == old(aluQueue)[|group|..]
    {
      group, l' := [], l;
      ghost var q := aluQueue;
      var i := 0;
      while i < aluWidth && aluQueue != []
        invariant 0 <= i <= aluWidth && i <= |q| && |group| == i && group == q[..i] && aluQueue == q[i..]
        invariant Repeat(all, l, FuFinish, i) == Some(l') && l'.fuQueue == aluQueue
        invariant l'.wbArriving == l.wbArriving + group && l'.fuCreditMsg == l.fuCreditMsg + i
      {
        var u := FinishOne(all, l');
        l' := LaneNext(all, l', FuFinish);
        group := group + [u];
        i := i + 1;
      }
      credit := |group|;
    }

    // One cycle on the unit's own schedule: write-back runs if and only if a group arrived, once.
    method Cycle(all: seq<Renamed>, arrived: seq<nat>, ghost l: Lane)
      returns (group: seq<nat>, credit: nat, ghost l1: Lane, ghost l': Lane)
      requires l.fuQueue == aluQueue && l.fuArriving == arrived
      modifies this
      ensures Repeat(all, l, FuArrive, |arrived|) == Some(l1) && Repeat(all, l1, FuFinish, |group|) == Some(l')
      ensures l'.fuQueue == aluQueue && credit == |group|
      ensures group + aluQueue == old(aluQueue) + arrived
      ensures aluQueue == [] <==> |old(aluQueue)| + |arrived| <= if arrived == [] then 0 else aluWidth
    {
      l1 := Allocate(all, arrived, l);
      group, credit, l' := [], 0, l1;
      if arrived != [] {
        group, credit, l' := WriteBack(all, l1);
      }
    }
  }
}
