/**
  The memory controller as a state and the steps that change it: transaction queues, command queues, the
  prediction of row state, starvation counters and refresh bookkeeping.
*/
module Controller {
  import opened Device

  datatype Option<T> = None | Some(value: T)

  datatype Config = Config(
    ranks: nat, banks: nat, subs: nat, rows: nat, rbSize: nat, closePage: nat, starvationThreshold: nat,
    perRank: bool, rankFirst: bool, useRefresh: bool, banksPerRefresh: nat, refreshThreshold: nat)

  predicate GoodConfig(cfg: Config) {
    && cfg.ranks >= 1 && cfg.banks >= 1 && cfg.subs >= 1 && cfg.rbSize >= 1
    && cfg.banksPerRefresh >= 1 && cfg.banks % cfg.banksPerRefresh == 0 && cfg.refreshThreshold >= 1
  }

  datatype Address = Address(row: nat, col: nat, bank: nat, rank: nat, sub: nat)
  datatype BankId = BankId(rank: nat, bank: nat)
  datatype SubId = SubId(bankId: BankId, sub: nat)
  datatype Group = Group(rank: nat, index: nat)

  // A transaction: a read or write, with the flags the scheduler sets on it.
  datatype Req = Req(id: nat, op: Op, addr: Address, arrival: nat, last: bool, forced: bool)

  // A command for the device.  `tag` is its identity; `req` is the transaction a column command serves.
  datatype Cmd = Cmd(op: Op, addr: Address, req: Option<Req>, issued: bool, tag: nat)

  function BankOf(a: Address): BankId { BankId(a.rank, a.bank) }
  function SubOf(a: Address): SubId { SubId(BankOf(a), a.sub) }
  function MuxLevel(cfg: Config, a: Address): nat
    requires cfg.rbSize >= 1
  {
    a.col / cfg.rbSize
  }

  predicate InRange(cfg: Config, a: Address) {
    a.row < cfg.rows && a.bank < cfg.banks && a.rank < cfg.ranks && a.sub < cfg.subs
  }

  // ----- Command queues -----

  function QueueCount(cfg: Config): nat {
    if cfg.perRank then cfg.ranks else cfg.ranks * cfg.banks
  }

  function QueueId(cfg: Config, b: BankId): nat {
    if cfg.perRank then b.rank
    else if cfg.rankFirst then b.bank * cfg.ranks + b.rank
    else b.rank * cfg.banks + b.bank
  }

  datatype Lines = Lines(queues: map<nat, seq<Cmd>>, nextTag: nat)

  function QueueAt(l: Lines, q: nat): seq<Cmd> {
    if q in l.queues then l.queues[q] else []
  }

  function Pushed(l: Lines, q: nat, c: Cmd): Lines {
    Lines(l.queues[q := QueueAt(l, q) + [c.(tag := l.nextTag)]], l.nextTag + 1)
  }

  function PushedAll(l: Lines, q: nat, cmds: seq<Cmd>): Lines
    decreases |cmds|
  {
    if cmds == [] then l else PushedAll(Pushed(l, q, cmds[0]), q, cmds[1..])
  }

  function Unissued(cmds: seq<Cmd>): seq<Cmd> {
    if cmds == [] then []
    else if cmds[0].issued then Unissued(cmds[1..])
    else [cmds[0]] + Unissued(cmds[1..])
  }

  function Cleaned(l: Lines): Lines {
    l.(queues := map q | q in l.queues :: Unissued(l.queues[q]))
  }

  // ----- Prediction -----

  datatype Prediction = Prediction(
    activateQueued: set<BankId>, activeSubArray: set<SubId>,
    effectiveRow: map<SubId, nat>, effectiveMuxedRow: map<SubId, nat>)

  // Every row starts out as ROWS, the invalid row.
  function EffectiveRow(cfg: Config, p: Prediction, s: SubId): nat {
    if s in p.effectiveRow then p.effectiveRow[s] else cfg.rows
  }

  function EffectiveMux(cfg: Config, p: Prediction, s: SubId): nat {
    if s in p.effectiveMuxedRow then p.effectiveMuxedRow[s] else cfg.rows
  }

  function Opened(p: Prediction, s: SubId, row: nat, mux: nat): Prediction {
    Prediction(p.activateQueued + {s.bankId}, p.activeSubArray + {s}, p.effectiveRow[s := row],
               p.effectiveMuxedRow[s := mux])
  }

  predicate AnyActive(p: Prediction, b: BankId) {
    exists s :: s in p.activeSubArray && s.bankId == b
  }

  // A subarray closes; the bank stays queued as active while another of its subarrays is.
  function ClosedSub(cfg: Config, p: Prediction, s: SubId): Prediction {
    var p' := p.(activeSubArray := p.activeSubArray - {s}, effectiveRow := p.effectiveRow[s := cfg.rows],
                 effectiveMuxedRow := p.effectiveMuxedRow[s := cfg.rows]);
    if AnyActive(p', s.bankId) then p' else p'.(activateQueued := p'.activateQueued - {s.bankId})
  }

  function SubsBelow(b: BankId, n: nat): set<SubId> {
    set i | 0 <= i < n :: SubId(b, i)
  }

  function SubsOf(cfg: Config, b: BankId): set<SubId> { SubsBelow(b, cfg.subs) }

  // The invalid row for the first n subarrays of a bank.
  function ClosedRows(cfg: Config, b: BankId, n: nat): map<SubId, nat> {
    map s | s in SubsBelow(b, n) :: cfg.rows
  }

  function ClosedBank(cfg: Config, p: Prediction, b: BankId): Prediction {
    Prediction(p.activateQueued - {b}, p.activeSubArray - SubsOf(cfg, b), p.effectiveRow + ClosedRows(cfg, b, cfg.subs),
               p.effectiveMuxedRow + ClosedRows(cfg, b, cfg.subs))
  }

  // ----- Refresh bookkeeping -----

  datatype Refresh = Refresh(
    delayed: map<Group, nat>, bankNeedRefresh: set<BankId>, refreshQueued: set<BankId>,
    nextRank: nat, nextBank: nat)

  function GroupOf(cfg: Config, b: BankId): Group
    requires cfg.banksPerRefresh >= 1
  {
    Group(b.rank, b.bank / cfg.banksPerRefresh)
  }

  function Delayed(r: Refresh, g: Group): nat {
    if g in r.delayed then r.delayed[g] else 0
  }

  predicate NeedRefresh(cfg: Config, r: Refresh, g: Group) {
    cfg.useRefresh && Delayed(r, g) >= cfg.refreshThreshold
  }

  function BanksFrom(rank: nat, head: nat, n: nat): set<BankId> {
    set i | head <= i < head + n :: BankId(rank, i)
  }

  // The banks of a group.
  function GroupBanks(cfg: Config, g: Group): set<BankId> {
    BanksFrom(g.rank, g.index * cfg.banksPerRefresh, cfg.banksPerRefresh)
  }

  // A refresh pulse for a group.
  function PulsedRefresh(cfg: Config, r: Refresh, g: Group): Refresh {
    var r' := r.(delayed := r.delayed[g := Delayed(r, g) + 1]);
    if NeedRefresh(cfg, r', g) then r'.(bankNeedRefresh := r'.bankNeedRefresh + GroupBanks(cfg, g)) else r'
  }

  // One delayed refresh of a group becomes a command; the round-robin pointer moves to the next group.
  function SentRefresh(cfg: Config, r: Refresh, g: Group): Refresh
    requires Delayed(r, g) >= 1
  {
    var r' := r.(delayed := r.delayed[g := Delayed(r, g) - 1], refreshQueued := r.refreshQueued + GroupBanks(cfg, g));
    var r'' := if NeedRefresh(cfg, r', g) then r' else r'.(bankNeedRefresh := r'.bankNeedRefresh - GroupBanks(cfg, g));
    var next := r''.nextBank + cfg.banksPerRefresh;
    if next < cfg.banks then r''.(nextBank := next)
    else r''.(nextBank := 0, nextRank := if r''.nextRank + 1 == cfg.ranks then 0 else r''.nextRank + 1)
  }

  // ----- The whole controller -----

  datatype State = State(
    transactions: seq<seq<Req>>, lines: Lines, pred: Prediction, starvation: map<SubId, nat>, refresh: Refresh,
    lastIssueCycle: nat, handledRefresh: Option<nat>, curQueue: nat)

  function Starvation(st: State, s: SubId): nat {
    if s in st.starvation then st.starvation[s] else 0
  }

  function Initial(queues: nat): State {
    State(seq(queues, _ => []), Lines(map[], 0), Prediction({}, {}, map[], map[]), map[],
          Refresh(map[], {}, {}, 0, 0), 0, None, 0)
  }

  // ----- Selecting a transaction -----

  datatype Selector = Starved | RowBufferHit | OldestReady | ClosedBankRequest

  // The request does not hit what the controller expects to find open.
  predicate Misses(cfg: Config, p: Prediction, a: Address)
    requires cfg.rbSize >= 1
  {
    || SubOf(a) !in p.activeSubArray
    || EffectiveRow(cfg, p, SubOf(a)) != a.row
    || EffectiveMux(cfg, p, SubOf(a)) != MuxLevel(cfg, a)
  }

  predicate Unblocked(cfg: Config, st: State, r: Req, now: nat) {
    && QueueAt(st.lines, QueueId(cfg, BankOf(r.addr))) == []
    && BankOf(r.addr) !in st.refresh.bankNeedRefresh
    && BankOf(r.addr) !in st.refresh.refreshQueued
    && r.arrival != now
  }

  predicate Eligible(cfg: Config, st: State, sel: Selector, r: Req, now: nat)
    requires cfg.rbSize >= 1
  {
    && Unblocked(cfg, st, r, now)
    && match sel
       case Starved =>
         && BankOf(r.addr) in st.pred.activateQueued && Misses(cfg, st.pred, r.addr)
         && Starvation(st, SubOf(r.addr)) >= cfg.starvationThreshold
       case RowBufferHit => BankOf(r.addr) in st.pred.activateQueued && !Misses(cfg, st.pred, r.addr)
       case OldestReady => BankOf(r.addr) in st.pred.activateQueued
       case ClosedBankRequest => BankOf(r.addr) !in st.pred.activateQueued
  }

  // The first eligible request of a queue, or its length.
  function FirstEligible(cfg: Config, st: State, sel: Selector, queue: seq<Req>, now: nat): (i: nat)
    requires cfg.rbSize >= 1
    ensures i <= |queue|
    ensures forall j :: 0 <= j < i ==> !Eligible(cfg, st, sel, queue[j], now)
    ensures i < |queue| ==> Eligible(cfg, st, sel, queue[i], now)
  {
    if queue == [] || Eligible(cfg, st, sel, queue[0], now) then 0
    else 1 + FirstEligible(cfg, st, sel, queue[1..], now)
  }

  // Under relaxed close-page a request is the last of its row when no other one waits for that row.
  predicate IsLastRequest(cfg: Config, queue: seq<Req>, r: Req) {
    if cfg.closePage == 0 then false
    else if cfg.closePage == 1 then
      forall j :: 0 <= j < |queue| ==>
        !(SubOf(queue[j].addr) == SubOf(r.addr) && queue[j].addr.row == r.addr.row)
    else true
  }

  function Removed<T>(s: seq<T>, i: nat): seq<T>
    requires i < |s|
  {
    s[..i] + s[i + 1..]
  }

  // ----- Turning a transaction into commands -----

  datatype Branch = OpenRow | SwitchRow | UseRow | Reject

  function BranchFor(cfg: Config, l: Lines, p: Prediction, r: Req): Branch
    requires cfg.rbSize >= 1
  {
    var empty := QueueAt(l, QueueId(cfg, BankOf(r.addr))) == [];
    if BankOf(r.addr) !in p.activateQueued then (if empty then OpenRow else Reject)
    else if Misses(cfg, p, r.addr) then (if empty then SwitchRow else Reject)
    else UseRow
  }

  function ImplicitPrecharge(r: Req): Req {
    r.(op := if r.op == READ then READ_PRECHARGE else if r.op == WRITE then WRITE_PRECHARGE else r.op)
  }

  function ColumnCmd(r: Req): Cmd { Cmd(r.op, r.addr, Some(r), false, 0) }
  function ActivateCmd(a: Address): Cmd { Cmd(ACTIVATE, a, None, false, 0) }
  function PrechargeCmd(a: Address, row: nat): Cmd { Cmd(PRECHARGE, a.(row := row, col := 0), None, false, 0) }
  function PrechargeAllCmd(b: BankId): Cmd { Cmd(PRECHARGE_ALL, Address(0, 0, b.bank, b.rank, 0), None, false, 0) }
  function RefreshCmd(b: BankId): Cmd { Cmd(REFRESH, Address(0, 0, b.bank, b.rank, 0), None, false, 0) }

  function CommandsFor(cfg: Config, p: Prediction, r: Req, b: Branch): seq<Cmd> {
    var column := if r.last && b != SwitchRow then ColumnCmd(ImplicitPrecharge(r)) else ColumnCmd(r);
    match b
    case OpenRow => [ActivateCmd(r.addr), column]
    case SwitchRow =>
      (if SubOf(r.addr) in p.activeSubArray then
         [PrechargeCmd(r.addr, EffectiveRow(cfg, p, SubOf(r.addr)))]
       else [])
      + [ActivateCmd(r.addr), column]
    case UseRow => [column]
    case Reject => []
  }

  function PredictionAfter(cfg: Config, p: Prediction, r: Req, b: Branch): Prediction
    requires cfg.rbSize >= 1
  {
    var s := SubOf(r.addr);
    var withRow := Opened(p, s, r.addr.row, MuxLevel(cfg, r.addr));
    match b
    case OpenRow =>
      if r.last then
        Prediction(p.activateQueued - {s.bankId}, p.activeSubArray - {s}, p.effectiveRow[s := cfg.rows],
                   p.effectiveMuxedRow[s := cfg.rows])
      else withRow
    case SwitchRow => withRow
    case UseRow => if r.last then ClosedSub(cfg, p, s) else p
    case Reject => p
  }

  function MemoryCommandsIssued(cfg: Config, st: State, r: Req): State
    requires cfg.rbSize >= 1
  {
    var b := BranchFor(cfg, st.lines, st.pred, r);
    var s := SubOf(r.addr);
    if b == Reject then st
    else
      st.(lines := PushedAll(st.lines, QueueId(cfg, s.bankId), CommandsFor(cfg, st.pred, r, b)),
          pred := PredictionAfter(cfg, st.pred, r, b),
          starvation := st.starvation[s := if b == UseRow then Starvation(st, s) + 1 else 0])
  }

  // Take request i of transaction queue t and issue it; nothing happens when it is not eligible.
  function ScheduledAt(cfg: Config, st: State, t: nat, i: nat, sel: Selector, force: bool, now: nat): State
    requires cfg.rbSize >= 1
  {
    if t >= |st.transactions| then st
    else
      var queue := st.transactions[t];
      if i >= |queue| || !Eligible(cfg, st, sel, queue[i], now) then st
      else
        var rest := Removed(queue, i);
        var r := queue[i].(last := queue[i].last || IsLastRequest(cfg, rest, queue[i]),
                           forced := queue[i].forced || force);
        MemoryCommandsIssued(cfg, st.(transactions := st.transactions[t := rest]), r)
  }

  // Select the first eligible request.
  function Scheduled(cfg: Config, st: State, t: nat, sel: Selector, force: bool, now: nat): State
    requires cfg.rbSize >= 1
  {
    if t >= |st.transactions| then st
    else ScheduledAt(cfg, st, t, FirstEligible(cfg, st, sel, st.transactions[t], now), sel, force, now)
  }

  // ----- Refresh commands -----

  function ClosedIfActive(cfg: Config, l: Lines, p: Prediction, b: BankId): (Lines, Prediction) {
    if b in p.activateQueued then (Pushed(l, QueueId(cfg, b), PrechargeAllCmd(b)), ClosedBank(cfg, p, b)) else (l, p)
  }

  // The banks of a group are closed one after the other, n of them.
  function ClosedForRefresh(cfg: Config, l: Lines, p: Prediction, g: Group, n: nat): (Lines, Prediction) {
    if n == 0 then (l, p)
    else
      var (l', p') := ClosedForRefresh(cfg, l, p, g, n - 1);
      ClosedIfActive(cfg, l', p', BankId(g.rank, g.index * cfg.banksPerRefresh + (n - 1)))
  }

  function GroupHead(cfg: Config, g: Group): BankId {
    BankId(g.rank, g.index * cfg.banksPerRefresh)
  }

  // Queue the precharges a refresh of the group needs, and the refresh itself.
  function RefreshHandled(cfg: Config, st: State, g: Group, now: nat): State
    requires Delayed(st.refresh, g) >= 1
  {
    var (l, p) := ClosedForRefresh(cfg, st.lines, st.pred, g, cfg.banksPerRefresh);
    var head := GroupHead(cfg, g);
    st.(lines := Pushed(l, QueueId(cfg, head), RefreshCmd(head)), pred := p,
        refresh := SentRefresh(cfg, st.refresh, g), handledRefresh := Some(now))
  }

  // ----- Sending commands to the device -----

  function HeadIssued(l: Lines, q: nat): Lines
    requires QueueAt(l, q) != []
  {
    var queue := QueueAt(l, q);
    l.(queues := l.queues[q := [queue[0].(issued := true)] + queue[1..]])
  }

  // The device acknowledges the head of queue q.
  function Sent(cfg: Config, st: State, q: nat, now: nat): State
    requires cfg.banksPerRefresh >= 1 && QueueAt(st.lines, q) != []
  {
    var c := QueueAt(st.lines, q)[0];
    st.(lines := HeadIssued(st.lines, q), lastIssueCycle := now,
        refresh := if c.op == REFRESH then
                     st.refresh.(refreshQueued :=
                       st.refresh.refreshQueued - GroupBanks(cfg, GroupOf(cfg, BankOf(c.addr))))
                   else st.refresh,
        curQueue := if st.curQueue + 1 > QueueCount(cfg) then 0 else st.curQueue + 1)
  }
}
