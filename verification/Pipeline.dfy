/**
  The back end between renaming and commit as a clocked transition system: dispatch queue and
  scoreboard, one lane per reservation station (station, dependency table, function unit,
  write-back queue), reorder buffer, and the messages in transit between them.

  Every message with a one-cycle delay is put in a `sent` field and moves to the receiver's
  inbox when the clock ticks; messages with no delay go straight to an inbox. A tick needs all
  inboxes empty, so a message is handled in the cycle it arrives, in any order but one: the two
  ordering edges of the source are the guards of `Select` (write-back results first) and of
  `Forward` (allocation first). Handlers take one element at a time, so every order of the
  group handlers of the source is covered. Runs are flush-free.
 */
module Pipeline {
  import opened Prelude
  import opened RenameCore
  import opened RenameMachine

  // Instructions are named by their position in rename order.
  datatype Entry<T> = Entry(uid: nat, issued: bool, operands: T)

  datatype Operands = Operands(v1: bool, v2: bool)

  // An instruction on its way to a station, with the sources found busy at dispatch.
  datatype Waiting = Waiting(uid: nat, f1: bool, f2: bool)

  // One bucket of waiting instructions per physical register.
  type Table = map<nat, seq<nat>>

  datatype Lane = Lane(
    credit: nat, creditMsg: nat,                // room in the station, as dispatch knows it
    sent: seq<Waiting>, arriving: seq<Waiting>,
    entries: seq<Entry<Operands>>, tab1: Table, tab2: Table,
    forwards: seq<nat>,                         // write-back results still to be forwarded this cycle
    fuCredit: nat, fuCreditMsg: nat,            // room in the function unit, as the station knows it
    fuSent: seq<nat>, fuArriving: seq<nat>, fuQueue: seq<nat>,
    wbArriving: seq<nat>, wbQueue: seq<nat>)

  datatype LaneParams = LaneParams(supports: set<nat>, depth: nat, fuDepth: nat)

  datatype Front = Front(credit: nat, msg: nat, sent: seq<Inst>, arriving: seq<Inst>, queue: seq<Inst>)

  datatype Dispatch = Dispatch(
    credit: nat, msg: nat, sent: seq<nat>, arriving: seq<nat>,
    queue: seq<Entry<()>>, busy: set<nat>, cast: seq<nat>)

  datatype RobEntry = RobEntry(uid: nat, finish: bool)

  datatype Rob = Rob(
    credit: nat, msg: nat, sent: seq<nat>, arriving: seq<nat>,
    entries: seq<RobEntry>, cast: seq<nat>, retiring: seq<nat>)

  // `cast` is the group of results written back in this cycle.
  datatype Pipe = Pipe(core: Machine, front: Front, disp: Dispatch, rob: Rob, lanes: seq<Lane>, cast: seq<nat>)

  datatype Params = Params(regs: Config, frontDepth: nat, dispDepth: nat, robDepth: nat, lanes: seq<LaneParams>)

  datatype LaneEvent = TakeCredit | Arrive | Forward | Pass | Pop | TakeFuCredit | FuArrive | FuFinish | WbArrive

  datatype FrontEvent = Fetch(inst: Inst) | FetchArrive | FetchCredit

  datatype DispatchEvent = DispatchCredit | DispatchArrive | DispatchCast | DispatchPop

  datatype RobEvent = RobCredit | RobArrive | RobCast | Retire

  // The first four stay inside one unit; the others touch several.
  datatype Action =
    | InFront(fe: FrontEvent) | InDispatch(de: DispatchEvent) | InRob(re: RobEvent) | InLane(s: nat, le: LaneEvent)
    | RenameOne | Select(s: nat) | Arbitrate(s: nat) | RenameCommit | Tick

  /* ---------- lanes ---------- */

  function Bucket(tab: Table, r: nat): seq<nat> {
    if r in tab then tab[r] else []
  }

  function Register(tab: Table, wait: bool, r: nat, u: nat): Table {
    if wait then tab[r := Bucket(tab, r) + [u]] else tab
  }

  predicate Ready(e: Entry<Operands>) {
    !e.issued && e.operands == Operands(true, true)
  }

  // Oldest entry not yet passed on whose operands are both valid, or the length if there is none.
  function FirstReady(es: seq<Entry<Operands>>): (k: nat)
    ensures k <= |es|
    ensures k < |es| ==> Ready(es[k])
    ensures forall j | 0 <= j < k :: !Ready(es[j])
  {
    ReadyFrom(es, 0)
  }

  function ReadyFrom(es: seq<Entry<Operands>>, i: nat): (k: nat)
    requires i <= |es|
    ensures i <= k <= |es|
    ensures k < |es| ==> Ready(es[k])
    ensures forall j | i <= j < k :: !Ready(es[j])
    decreases |es| - i
  {
    if i == |es| || Ready(es[i]) then i else ReadyFrom(es, i + 1)
  }

  // Writing back register `r` validates the operands waiting for it and empties its buckets.
  function Wake(l: Lane, e: Entry<Operands>, r: nat): Entry<Operands> {
    e.(operands := Operands(e.operands.v1 || e.uid in Bucket(l.tab1, r), e.operands.v2 || e.uid in Bucket(l.tab2, r)))
  }

  function Resolve(l: Lane, r: nat): Lane {
    l.(entries := seq(|l.entries|, i requires 0 <= i < |l.entries| => Wake(l, l.entries[i], r)),
       tab1 := l.tab1[r := []], tab2 := l.tab2[r := []])
  }

  predicate LaneEnabled(all: seq<Renamed>, l: Lane, le: LaneEvent) {
    match le
    case TakeCredit => true
    case Arrive => l.arriving != [] && l.arriving[0].uid < |all|
    case Forward => l.arriving == [] && l.forwards != [] && l.forwards[0] < |all|
    case Pass => l.fuCredit > 0 && FirstReady(l.entries) < |l.entries|
    case Pop => l.entries != [] && l.entries[0].issued
    case TakeFuCredit => true
    case FuArrive => l.fuArriving != []
    case FuFinish => l.fuQueue != []
    case WbArrive => l.wbArriving != []
  }

  function LaneNext(all: seq<Renamed>, l: Lane, le: LaneEvent): Lane
    requires LaneEnabled(all, l, le)
  {
    match le
    case TakeCredit => l.(credit := l.credit + l.creditMsg, creditMsg := 0)
    case Arrive =>
      var w := l.arriving[0];
      l.(arriving := l.arriving[1..],
         entries := l.entries + [Entry(w.uid, false, Operands(!w.f1, !w.f2))],
         tab1 := Register(l.tab1, w.f1, all[w.uid].p1, w.uid),
         tab2 := Register(l.tab2, w.f2, all[w.uid].p2, w.uid))
    case Forward => Resolve(l, all[l.forwards[0]].pd).(forwards := l.forwards[1..])
    case Pass =>
      var k := FirstReady(l.entries);
      l.(entries := l.entries[k := l.entries[k].(issued := true)],
         fuSent := l.fuSent + [l.entries[k].uid],
         fuCredit := l.fuCredit - 1, creditMsg := l.creditMsg + 1)
    case Pop => l.(entries := l.entries[1..])
    case TakeFuCredit => l.(fuCredit := l.fuCredit + l.fuCreditMsg, fuCreditMsg := 0)
    case FuArrive => l.(fuArriving := l.fuArriving[1..], fuQueue := l.fuQueue + [l.fuArriving[0]])
    case FuFinish =>
      l.(fuQueue := l.fuQueue[1..], wbArriving := l.wbArriving + [l.fuQueue[0]], fuCreditMsg := l.fuCreditMsg + 1)
    case WbArrive => l.(wbArriving := l.wbArriving[1..], wbQueue := l.wbQueue + [l.wbArriving[0]])
  }

  predicate LaneQuiet(l: Lane) {
    && l.arriving == [] && l.forwards == [] && l.fuArriving == [] && l.wbArriving == []
    && l.creditMsg == 0 && l.fuCreditMsg == 0
  }

  function LaneTick(l: Lane, cast: seq<nat>): Lane {
    l.(arriving := l.sent, sent := [], forwards := cast, fuArriving := l.fuSent, fuSent := [])
  }

  /* ---------- the whole pipeline ---------- */

  predicate Eligible(all: seq<Renamed>, supports: set<nat>, e: Entry<()>) {
    !e.issued && e.uid < |all| && all[e.uid].inst.fu in supports
  }

  // Oldest queue entry a lane may take, or the length if there is none.
  function FirstEligible(all: seq<Renamed>, supports: set<nat>, q: seq<Entry<()>>): (k: nat)
    ensures k <= |q|
    ensures k < |q| ==> Eligible(all, supports, q[k])
    ensures forall j | 0 <= j < k :: !Eligible(all, supports, q[j])
  {
    EligibleFrom(all, supports, q, 0)
  }

  function EligibleFrom(all: seq<Renamed>, supports: set<nat>, q: seq<Entry<()>>, i: nat): (k: nat)
    requires i <= |q|
    ensures i <= k <= |q|
    ensures k < |q| ==> Eligible(all, supports, q[k])
    ensures forall j | i <= j < k :: !Eligible(all, supports, q[j])
    decreases |q| - i
  {
    if i == |q| || Eligible(all, supports, q[i]) then i else EligibleFrom(all, supports, q, i + 1)
  }

  function MarkFinish(es: seq<RobEntry>, u: nat): seq<RobEntry> {
    seq(|es|, i requires 0 <= i < |es| => if es[i].uid == u then es[i].(finish := true) else es[i])
  }

  predicate FrontEnabled(cfg: Config, f: Front, fe: FrontEvent) {
    match fe
    case Fetch(i) => Encodable(cfg, i) && f.credit > 0
    case FetchArrive => f.arriving != []
    case FetchCredit => true
  }

  function FrontNext(cfg: Config, f: Front, fe: FrontEvent): Front
    requires FrontEnabled(cfg, f, fe)
  {
    match fe
    case Fetch(i) => f.(credit := f.credit - 1, sent := f.sent + [i])
    case FetchArrive => f.(arriving := f.arriving[1..], queue := f.queue + [f.arriving[0]])
    case FetchCredit => f.(credit := f.credit + f.msg, msg := 0)
  }

  predicate DispatchEnabled(all: seq<Renamed>, d: Dispatch, de: DispatchEvent) {
    match de
    case DispatchCredit => true
    case DispatchArrive => d.arriving != [] && d.arriving[0] < |all|
    case DispatchCast => d.cast != [] && d.cast[0] < |all|
    case DispatchPop => d.queue != [] && d.queue[0].issued
  }

  // Physical register 0 never becomes busy.
  function DispatchNext(all: seq<Renamed>, d: Dispatch, de: DispatchEvent): Dispatch
    requires DispatchEnabled(all, d, de)
  {
    match de
    case DispatchCredit => d.(credit := d.credit + d.msg, msg := 0)
    case DispatchArrive =>
      d.(arriving := d.arriving[1..], queue := d.queue + [Entry(d.arriving[0], false, ())],
         busy := d.busy + ({all[d.arriving[0]].pd} - {0}))
    case DispatchCast => d.(cast := d.cast[1..], busy := d.busy - {all[d.cast[0]].pd})
    case DispatchPop => d.(queue := d.queue[1..])
  }

  predicate RobEnabled(r: Rob, re: RobEvent) {
    match re
    case RobCredit => true
    case RobArrive => r.arriving != []
    case RobCast => r.cast != []
    case Retire => r.entries != [] && r.entries[0].finish
  }

  function RobNext(r: Rob, re: RobEvent): Rob
    requires RobEnabled(r, re)
  {
    match re
    case RobCredit => r.(credit := r.credit + r.msg, msg := 0)
    case RobArrive => r.(arriving := r.arriving[1..], entries := r.entries + [RobEntry(r.arriving[0], false)])
    case RobCast => r.(cast := r.cast[1..], entries := MarkFinish(r.entries, r.cast[0]))
    case Retire => r.(entries := r.entries[1..], retiring := r.retiring + [r.entries[0].uid], msg := r.msg + 1)
  }

  predicate Quiet(st: Pipe) {
    && st.front.arriving == [] && st.front.msg == 0
    && st.disp.arriving == [] && st.disp.cast == [] && st.disp.msg == 0
    && st.rob.arriving == [] && st.rob.cast == [] && st.rob.retiring == [] && st.rob.msg == 0
    && forall s | 0 <= s < |st.lanes| :: LaneQuiet(st.lanes[s])
  }

  predicate WellShaped(p: Params, st: Pipe) {
    ValidConfig(p.regs) && WellFormed(p.regs, st.core) && |st.lanes| == |p.lanes|
  }

  predicate Allowed(p: Params, st: Pipe, a: Action)
    requires WellShaped(p, st)
  {
    match a
    case InFront(fe) => FrontEnabled(p.regs, st.front, fe)
    case InDispatch(de) => DispatchEnabled(st.core.all, st.disp, de)
    case InRob(re) => RobEnabled(st.rob, re)
    case InLane(s, le) => s < |st.lanes| && LaneEnabled(st.core.all, st.lanes[s], le)
    case RenameOne =>
      && st.front.queue != [] && Enabled(p.regs, st.core, Rename(st.front.queue[0]))
      && st.disp.credit > 0 && st.rob.credit > 0
    case Select(s) =>
      && s < |st.lanes| && st.disp.cast == [] && st.lanes[s].credit > 0
      && FirstEligible(st.core.all, p.lanes[s].supports, st.disp.queue) < |st.disp.queue|
    case Arbitrate(s) =>
      s < |st.lanes| && st.lanes[s].wbQueue != [] && st.lanes[s].wbQueue[0] < |st.core.all|
    case RenameCommit =>
      && st.rob.retiring != [] && st.core.committed < |st.core.all|
      && var u := st.rob.retiring[0];
         u < |st.core.all| && st.core.all[u].inst.rd < p.regs.isaRegs
         && (st.core.all[u].pd != 0 ==> st.core.regs.freeBackup != [])
    case Tick => Quiet(st)
  }

  function AfterRenameOne(p: Params, sem: Semantics, st: Pipe): (st': Pipe)
    requires WellShaped(p, st) && Allowed(p, st, RenameOne)
    ensures WellShaped(p, st')
  {
    var u := |st.core.all|;
    st.(core := Next(p.regs, sem, st.core, Rename(st.front.queue[0])),
        front := st.front.(queue := st.front.queue[1..], msg := st.front.msg + 1),
        disp := st.disp.(credit := st.disp.credit - 1, sent := st.disp.sent + [u]),
        rob := st.rob.(credit := st.rob.credit - 1, sent := st.rob.sent + [u]))
  }

  function AfterSelect(p: Params, st: Pipe, s: nat): (st': Pipe)
    requires WellShaped(p, st) && Allowed(p, st, Select(s))
    ensures WellShaped(p, st')
  {
    var k := FirstEligible(st.core.all, p.lanes[s].supports, st.disp.queue);
    var u := st.disp.queue[k].uid;
    var r := st.core.all[u];
    var l := st.lanes[s];
    st.(disp := st.disp.(queue := st.disp.queue[k := st.disp.queue[k].(issued := true)], msg := st.disp.msg + 1),
        lanes := st.lanes[s := l.(credit := l.credit - 1,
                                  sent := l.sent + [Waiting(u, r.p1 in st.disp.busy, r.p2 in st.disp.busy)])])
  }

  function AfterArbitrate(p: Params, sem: Semantics, st: Pipe, s: nat): (st': Pipe)
    requires WellShaped(p, st) && Allowed(p, st, Arbitrate(s))
    ensures WellShaped(p, st')
  {
    var l := st.lanes[s];
    st.(core := AfterExecute(sem, st.core, l.wbQueue[0]),
        lanes := st.lanes[s := l.(wbQueue := l.wbQueue[1..])],
        cast := st.cast + [l.wbQueue[0]])
  }

  function AfterRenameCommit(p: Params, st: Pipe): (st': Pipe)
    requires WellShaped(p, st) && Allowed(p, st, RenameCommit)
    ensures WellShaped(p, st')
  {
    var m := st.core;
    st.(core := m.(regs := AfterCommit(m.regs, m.all[st.rob.retiring[0]]), committed := m.committed + 1),
        rob := st.rob.(retiring := st.rob.retiring[1..]))
  }

  function AfterTick(p: Params, st: Pipe): (st': Pipe)
    requires WellShaped(p, st)
    ensures WellShaped(p, st')
  {
    st.(front := st.front.(arriving := st.front.sent, sent := []),
        disp := st.disp.(arriving := st.disp.sent, sent := [], cast := st.cast),
        rob := st.rob.(arriving := st.rob.sent, sent := [], cast := st.cast),
        lanes := seq(|st.lanes|, i requires 0 <= i < |st.lanes| => LaneTick(st.lanes[i], st.cast)),
        cast := [])
  }

  function Act(p: Params, sem: Semantics, st: Pipe, a: Action): (st': Pipe)
    requires WellShaped(p, st) && Allowed(p, st, a)
    ensures WellShaped(p, st')
  {
    match a
    case InFront(fe) => st.(front := FrontNext(p.regs, st.front, fe))
    case InDispatch(de) => st.(disp := DispatchNext(st.core.all, st.disp, de))
    case InRob(re) => st.(rob := RobNext(st.rob, re))
    case InLane(s, le) => st.(lanes := st.lanes[s := LaneNext(st.core.all, st.lanes[s], le)])
    case RenameOne => AfterRenameOne(p, sem, st)
    case Select(s) => AfterSelect(p, st, s)
    case Arbitrate(s) => AfterArbitrate(p, sem, st, s)
    case RenameCommit => AfterRenameCommit(p, st)
    case Tick => AfterTick(p, st)
  }

  // Nothing in flight anywhere; every unit has announced its depth as credit.
  function StartLane(lp: LaneParams): Lane {
    Lane(0, lp.depth, [], [], [], map[], map[], [], 0, lp.fuDepth, [], [], [], [], [])
  }

  function Start(p: Params): Pipe
    requires ValidConfig(p.regs)
  {
    Pipe(Initial(p.regs),
         Front(0, p.frontDepth, [], [], []),
         Dispatch(0, p.dispDepth, [], [], [], {}, []),
         Rob(0, p.robDepth, [], [], [], [], []),
         seq(|p.lanes|, i requires 0 <= i < |p.lanes| => StartLane(p.lanes[i])),
         [])
  }

  // The state after a sequence of actions, or None if one of them was not possible.
  function Drive(p: Params, sem: Semantics, acts: seq<Action>): (r: Option<Pipe>)
    requires ValidConfig(p.regs)
    ensures r.Some? ==> WellShaped(p, r.value)
  {
    if acts == [] then Some(Start(p))
    else
      var r := Drive(p, sem, acts[..|acts| - 1]);
      if r.None? || !Allowed(p, r.value, acts[|acts| - 1]) then None
      else Some(Act(p, sem, r.value, acts[|acts| - 1]))
  }
}
