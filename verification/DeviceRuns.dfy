/**
  The controller and its banks in one run: the row map the controller's runs move is at every moment what the
  subarrays, with all their timing state, hold; and the rank's gate on REFRESH is what the banks enforce.
*/
module DeviceRuns {
  import opened Arithmetic
  import opened Device
  import opened Controller
  import opened ControllerRuns
  import opened ControllerEvents
  import Banks
  import Coherence
  import Conservation
  import RefreshAccounting
  import SubArrayRuns
  import SubArrays

  // The controller's world, the banks, and the cycle they are all in.
  datatype System = System(w: World, banks: map<BankId, Banks.BankMachine>, now: nat)

  // A move of the controller other than sending; sending the head of a queue, as a request of the device's;
  // an event of a subarray; and the next cycle, which starts with the cleanup of issued commands.
  datatype Step =
    | Control(m: Move)
    | Issue(q: nat, req: SubArrays.Request, cs: seq<SubArrays.Choice>)
    | DeviceEvent(b: BankId, k: nat, e: SubArrays.Action)
    | NextCycle

  function AllBanks(cfg: Config): set<BankId> {
    set r, b | 0 <= r < cfg.ranks && 0 <= b < cfg.banks :: BankId(r, b)
  }

  // The banks a command is passed to.
  function Addressed(cfg: Config, c: Cmd): set<BankId>
    requires cfg.banksPerRefresh >= 1
  {
    if c.op == REFRESH then GroupBanks(cfg, GroupOf(cfg, BankOf(c.addr))) else {BankOf(c.addr)}
  }

  predicate Carries(req: SubArrays.Request, c: Cmd) { req.op == c.op && req.row == c.addr.row }

  // Every bank the command is passed to says it can take it; the rank may refuse for reasons of its own, which
  // is a step not taken.
  ghost predicate Takes(cfg: Config, p: SubArrays.Timing, banks: map<BankId, Banks.BankMachine>, c: Cmd,
      req: SubArrays.Request, now: nat)
    requires cfg.banksPerRefresh >= 1
  {
    forall b :: b in Addressed(cfg, c) ==> b in banks && Banks.BankIssuable(p, banks[b].bank, c.addr.sub, req, now)
  }

  ghost predicate MayIssue(cfg: Config, p: SubArrays.Timing, m: System, q: nat, req: SubArrays.Request,
      cs: seq<SubArrays.Choice>)
    requires cfg.banksPerRefresh >= 1
  {
    && q < QueueCount(cfg) && QueueAt(m.w.st.lines, q) != []
    && m.w.st.lastIssueCycle != m.now && m.w.st.handledRefresh != Some(m.now)
    && Carries(req, QueueAt(m.w.st.lines, q)[0]) && |cs| == cfg.subs
    && Takes(cfg, p, m.banks, QueueAt(m.w.st.lines, q)[0], req, m.now)
  }

  function BanksAfter(cfg: Config, p: SubArrays.Timing, banks: map<BankId, Banks.BankMachine>, c: Cmd,
      req: SubArrays.Request, cs: seq<SubArrays.Choice>): map<BankId, Banks.BankMachine>
    requires cfg.banksPerRefresh >= 1 && SubArrays.NoWrap(p)
  {
    map b | b in banks ::
      if b in Addressed(cfg, c) then Banks.BankAct(p, banks[b], Banks.BankAction.Request(c.addr.sub, req, cs))
      else banks[b]
  }

  function BanksTicked(p: SubArrays.Timing, banks: map<BankId, Banks.BankMachine>): map<BankId, Banks.BankMachine>
    requires SubArrays.NoWrap(p)
  {
    map b | b in banks :: Banks.BankAct(p, banks[b], Banks.NextCycle)
  }

  predicate AllQuiet(banks: map<BankId, Banks.BankMachine>) {
    forall b, i :: b in banks && 0 <= i < |banks[b].bank.subs| ==> SubArrays.NothingDue(banks[b].bank.subs[i])
  }

  // A step that is not possible changes nothing.
  ghost function Stepped(cfg: Config, p: SubArrays.Timing, m: System, step: Step): System
    requires GoodConfig(cfg) && SubArrays.NoWrap(p)
  {
    match step
    case Control(move) => if move.Send? then m else m.(w := Moved(cfg, m.w, move, m.now))
    case Issue(q, req, cs) =>
      if MayIssue(cfg, p, m, q, req, cs) then
        m.(w := Launched(cfg, m.w, q, m.now),
           banks := BanksAfter(cfg, p, m.banks, QueueAt(m.w.st.lines, q)[0], req, cs))
      else m
    case DeviceEvent(b, k, e) =>
      if b in m.banks then m.(banks := m.banks[b := Banks.BankAct(p, m.banks[b], Banks.Event(k, e))]) else m
    case NextCycle =>
      if AllQuiet(m.banks) then
        System(CleanedUp(m.w), BanksTicked(p, m.banks), m.now + 1)
      else m
  }

  ghost function SystemRun(cfg: Config, p: SubArrays.Timing, queues: nat, poweredDown: bool, steps: seq<Step>): System
    requires GoodConfig(cfg) && SubArrays.NoWrap(p)
  {
    if steps == [] then
      System(Start(queues), map b | b in AllBanks(cfg) :: Banks.BankRun(p, cfg.subs, poweredDown, []), 0)
    else Stepped(cfg, p, SystemRun(cfg, p, queues, poweredDown, steps[..|steps| - 1]), steps[|steps| - 1])
  }

  // ----- Every queued command names a subarray there is -----

  predicate CmdExists(cfg: Config, c: Cmd) {
    c.addr.rank < cfg.ranks && c.addr.bank < cfg.banks && c.addr.sub < cfg.subs
  }

  ghost predicate QueuedExist(cfg: Config, l: Lines) {
    forall q, c :: c in QueueAt(l, q) ==> CmdExists(cfg, c)
  }

  lemma PushedExist(cfg: Config, l: Lines, q: nat, c: Cmd)
    requires QueuedExist(cfg, l) && CmdExists(cfg, c)
    ensures QueuedExist(cfg, Pushed(l, q, c))
  {
    forall r, d | d in QueueAt(Pushed(l, q, c), r) ensures CmdExists(cfg, d) {
      assert d in QueueAt(l, r) || d == c.(tag := l.nextTag);
    }
  }

  lemma {:induction false} PushedAllExist(cfg: Config, l: Lines, q: nat, cmds: seq<Cmd>)
    requires QueuedExist(cfg, l) && forall c :: c in cmds ==> CmdExists(cfg, c)
    ensures QueuedExist(cfg, PushedAll(l, q, cmds))
    decreases |cmds|
  {
    hide QueuedExist;
    if cmds != [] {
      assert cmds[0] in cmds && forall c :: c in cmds[1..] ==> c in cmds;
      PushedExist(cfg, l, q, cmds[0]);
      PushedAllExist(cfg, Pushed(l, q, cmds[0]), q, cmds[1..]);
    }
  }

  lemma {:induction false} ClosedForRefreshExist(cfg: Config, l: Lines, p: Prediction, g: Group, n: nat)
    requires GoodConfig(cfg) && Conservation.GroupInRange(cfg, g) && n <= cfg.banksPerRefresh && QueuedExist(cfg, l)
    ensures QueuedExist(cfg, ClosedForRefresh(cfg, l, p, g, n).0)
  {
    hide QueuedExist;
    if n > 0 {
      ClosedForRefreshExist(cfg, l, p, g, n - 1);
      Conservation.GroupBankInRange(cfg, g, n - 1);
      var b := BankId(g.rank, g.index * cfg.banksPerRefresh + (n - 1));
      PushedExist(cfg, ClosedForRefresh(cfg, l, p, g, n - 1).0, QueueId(cfg, b), PrechargeAllCmd(b));
    }
  }

  lemma CommandsExist(cfg: Config, p: Prediction, r: Req, b: Branch)
    requires InRange(cfg, r.addr)
    ensures forall c :: c in CommandsFor(cfg, p, r, b) ==> CmdExists(cfg, c)
  {
  }

  lemma ScheduledExist(cfg: Config, st: State, t: nat, i: nat, sel: Selector, force: bool, now: nat)
    requires GoodConfig(cfg) && QueuedExist(cfg, st.lines) && Coherence.TransactionsOk(cfg, st)
    ensures QueuedExist(cfg, ScheduledAt(cfg, st, t, i, sel, force, now).lines)
  {
    if t < |st.transactions| {
      var queue := st.transactions[t];
      if i < |queue| && Eligible(cfg, st, sel, queue[i], now) {
        var rest := Removed(queue, i);
        var r := queue[i].(last := queue[i].last || IsLastRequest(cfg, rest, queue[i]),
                           forced := queue[i].forced || force);
        assert Coherence.RequestOk(cfg, queue[i]);
        var b := BranchFor(cfg, st.lines, st.pred, r);
        hide QueuedExist, CmdExists, CommandsFor, BranchFor, Eligible;
        CommandsExist(cfg, st.pred, r, b);
        PushedAllExist(cfg, st.lines, QueueId(cfg, BankOf(r.addr)), CommandsFor(cfg, st.pred, r, b));
      }
    }
  }

  lemma RefreshExist(cfg: Config, st: State, g: Group, now: nat)
    requires GoodConfig(cfg) && QueuedExist(cfg, st.lines) && Conservation.GroupInRange(cfg, g)
    requires Delayed(st.refresh, g) >= 1
    ensures QueuedExist(cfg, RefreshHandled(cfg, st, g, now).lines)
  {
    hide QueuedExist;
    ClosedForRefreshExist(cfg, st.lines, st.pred, g, cfg.banksPerRefresh);
    Conservation.GroupBankInRange(cfg, g, 0);
    var head := GroupHead(cfg, g);
    PushedExist(cfg, ClosedForRefresh(cfg, st.lines, st.pred, g, cfg.banksPerRefresh).0, QueueId(cfg, head),
                RefreshCmd(head));
  }

  lemma MoveKeepsExist(cfg: Config, w: World, m: Move, now: nat)
    requires GoodConfig(cfg) && QueuedExist(cfg, w.st.lines) && Sound(cfg, w) && !m.Send?
    ensures QueuedExist(cfg, Moved(cfg, w, m, now).st.lines)
  {
    hide QueuedExist, ScheduledAt, RefreshHandled;
    match m
    case Accept(t, r, front) =>
    case Schedule(t, i, sel, force) => ScheduledExist(cfg, w.st, t, i, sel, force, now);
    case Pulse(g) =>
    case HandleRefresh =>
      RefreshAccounting.ScanCovers(cfg, w.st.refresh);
      var g := RefreshAccounting.Chosen(cfg, w.st.refresh, 0, 0);
      if g.Some? {
        RefreshExist(cfg, w.st, g.value, now);
      }
    case Complete(id) =>
  }

  lemma SentExist(cfg: Config, l: Lines, q: nat)
    requires QueuedExist(cfg, l) && QueueAt(l, q) != []
    ensures QueuedExist(cfg, HeadIssued(l, q))
  {
    var c := QueueAt(l, q)[0];
    assert c in QueueAt(l, q);
    assert CmdExists(cfg, c) && CmdExists(cfg, c.(issued := true));
    hide CmdExists;
    forall r, d | d in QueueAt(HeadIssued(l, q), r) ensures CmdExists(cfg, d) {
      assert d in QueueAt(l, r) || d == c.(issued := true);
    }
  }

  lemma CleanedExist(cfg: Config, l: Lines)
    requires QueuedExist(cfg, l)
    ensures QueuedExist(cfg, Cleaned(l))
  {
    forall q, c | c in QueueAt(Cleaned(l), q) ensures CmdExists(cfg, c) {
      Coherence.UnissuedWithin(QueueAt(l, q));
      assert QueueAt(Cleaned(l), q) == Unissued(QueueAt(l, q));
    }
  }

  // The banks a queued command is passed to exist.
  lemma AddressedExist(cfg: Config, c: Cmd)
    requires GoodConfig(cfg) && CmdExists(cfg, c)
    ensures Addressed(cfg, c) <= AllBanks(cfg)
  {
    var g := GroupOf(cfg, BankOf(c.addr));
    var d := cfg.banksPerRefresh;
    assert cfg.banks == (cfg.banks / d) * d;
    QuotientBelow(c.addr.bank, d, cfg.banks / d);
    forall b | b in Addressed(cfg, c) ensures b in AllBanks(cfg) {
      if c.op == REFRESH {
        Conservation.GroupBankInRange(cfg, g, b.bank - g.index * d);
      }
      assert b == BankId(b.rank, b.bank);
    }
  }

  // ----- What holds of every subarray -----

  // The accepted commands keep every timing distance and walk the row automaton.
  ghost predicate SafeSub(p: SubArrays.Timing, s: SubArrays.Machine)
    requires SubArrays.NoWrap(p)
  {
    && SubArrayRuns.TimeInv(p, s) && SubArrayRuns.TimingSafe(p, s.trace)
    && SubArrayRuns.RowInv(p, s) && SubArrayRuns.RowsLegal(s.trace)
  }

  ghost predicate GoodTiming(p: SubArrays.Timing) {
    SubArrays.NoWrap(p) && p.tRP >= 1 && p.usePrecharge && !p.writePausing
  }

  lemma ActKeepsSafe(p: SubArrays.Timing, s: SubArrays.Machine, a: SubArrays.Action)
    requires GoodTiming(p) && SafeSub(p, s)
    ensures SafeSub(p, SubArrays.Act(p, s, a))
  {
    hide SubArrays.Act, SubArrayRuns.TimeInv, SubArrayRuns.TimingSafe, SubArrayRuns.RowInv, SubArrayRuns.RowsLegal;
    SubArrayRuns.ActInTime(p, s, a);
    SubArrayRuns.ActLegal(p, s, a);
    match a
    case Command(req, c) =>
      SubArrayRuns.CommandKeepsTime(p, s, req, c);
      SubArrayRuns.CommandKeepsRow(p, s, req, c);
    case _ =>
      SubArrayRuns.FireKeepsTime(p, s, a);
      SubArrayRuns.FireKeepsRow(p, s, a);
  }

  ghost predicate SubsSafe(p: SubArrays.Timing, subs: seq<SubArrays.Machine>)
    requires SubArrays.NoWrap(p)
  {
    forall k :: 0 <= k < |subs| ==> SafeSub(p, subs[k])
  }

  ghost predicate BankOk(cfg: Config, p: SubArrays.Timing, b: Banks.BankMachine, now: nat)
    requires SubArrays.NoWrap(p)
  {
    |b.bank.subs| == cfg.subs && b.now == now && Banks.Agrees(p, b.bank, now) && SubsSafe(p, b.bank.subs)
  }

  // The row of every subarray as it counts is the one the controller's runs have for it.
  ghost predicate SameRows(rows: map<SubId, Row>, id: BankId, b: Banks.BankMachine) {
    forall k: nat :: k < |b.bank.subs| ==> Coherence.RowOf(rows, SubId(id, k)) == SubArrayRuns.RowOf(b.bank.subs[k])
  }

  // ----- One bank -----

  lemma CommandKeepsSubs(p: SubArrays.Timing, subs: seq<SubArrays.Machine>, targets: seq<nat>, req: SubArrays.Request,
      cs: seq<SubArrays.Choice>)
    requires GoodTiming(p) && |cs| == |subs| && Banks.Distinct(targets) && SubsSafe(p, subs)
    ensures SubsSafe(p, Banks.SubsAfter(p, subs, targets, req, cs))
  {
    hide SafeSub, SubArrays.Act;
    Banks.SubsAfterAt(p, subs, targets, req, cs);
    forall k | 0 <= k < |subs| ensures SafeSub(p, Banks.SubsAfter(p, subs, targets, req, cs)[k]) {
      ActKeepsSafe(p, subs[k], SubArrays.Command(req, cs[k]));
    }
  }

  lemma TargetsDistinct(p: SubArrays.Timing, b: Banks.Bank, k: nat, op: Op, now: nat)
    requires Banks.Agrees(p, b, now)
    ensures Banks.Distinct(Banks.Targets(b, k, op)) && Banks.Distinct(b.active)
  {
  }

  // A bank that takes a command stays in order, and its rows move as the controller's runs have it.
  lemma BankTakes(cfg: Config, p: SubArrays.Timing, id: BankId, b: Banks.BankMachine, c: Cmd, req: SubArrays.Request,
      cs: seq<SubArrays.Choice>, rows: map<SubId, Row>)
    requires GoodConfig(cfg) && GoodTiming(p) && BankOk(cfg, p, b, b.now) && |cs| == cfg.subs
    requires id in Addressed(cfg, c) && c.addr.sub < cfg.subs && Carries(req, c)
    requires Banks.BankIssuable(p, b.bank, c.addr.sub, req, b.now) && SameRows(rows, id, b)
    ensures var b' := Banks.BankAct(p, b, Banks.BankAction.Request(c.addr.sub, req, cs));
      BankOk(cfg, p, b', b.now) && SameRows(Coherence.DeviceStep(cfg, rows, c), id, b')
  {
    var k := c.addr.sub;
    var b' := Banks.BankAct(p, b, Banks.BankAction.Request(k, req, cs));
    hide Banks.BankIssuable, SafeSub, SubArrayRuns.RowEvents, SubArrayRuns.RowOf, Coherence.DeviceStep;
    TargetsDistinct(p, b.bank, k, req.op, b.now);
    Banks.IssuedAgrees(p, b.bank, k, req, b.now, cs);
    Banks.IssuedMovesRows(p, b.bank, k, req, b.now, cs);
    CommandKeepsSubs(p, b.bank.subs, Banks.Targets(b.bank, k, req.op), req, cs);
    forall i: nat | i < |b.bank.subs|
      ensures Coherence.RowOf(Coherence.DeviceStep(cfg, rows, c), SubId(id, i)) == SubArrayRuns.RowOf(b'.bank.subs[i])
    {
      Coherence.DeviceStepAt(cfg, rows, c, SubId(id, i));
      HitIsTarget(cfg, p, id, b, c, i);
    }
  }

  // The subarrays a command reaches in the controller's runs are those the bank passes it to, but for closed
  // ones that PRECHARGE_ALL need not close.
  lemma HitIsTarget(cfg: Config, p: SubArrays.Timing, id: BankId, b: Banks.BankMachine, c: Cmd, i: nat)
    requires cfg.banksPerRefresh >= 1 && Banks.Agrees(p, b.bank, b.now) && i < |b.bank.subs|
    requires id in Addressed(cfg, c)
    ensures var r := SubArrayRuns.RowOf(b.bank.subs[i]);
      (if i in Banks.Targets(b.bank, c.addr.sub, c.op) then RowStep(r, c.op, c.addr.row) else r) ==
      Coherence.CmdStep(cfg, r, c, SubId(id, i))
  {
    if c.op == REFRESH {
      Coherence.InGroup(cfg, GroupOf(cfg, BankOf(c.addr)), id);
    }
  }

  // A bank the command is not passed to keeps its rows.
  lemma BankUntouched(cfg: Config, id: BankId, b: Banks.BankMachine, c: Cmd, rows: map<SubId, Row>)
    requires cfg.banksPerRefresh >= 1 && id !in Addressed(cfg, c) && SameRows(rows, id, b)
    ensures SameRows(Coherence.DeviceStep(cfg, rows, c), id, b)
  {
    forall i: nat | i < |b.bank.subs|
      ensures Coherence.RowOf(Coherence.DeviceStep(cfg, rows, c), SubId(id, i)) ==
              Coherence.RowOf(rows, SubId(id, i))
    {
      Coherence.DeviceStepAt(cfg, rows, c, SubId(id, i));
      if c.op == REFRESH {
        Coherence.InGroup(cfg, GroupOf(cfg, BankOf(c.addr)), id);
      }
    }
  }

  lemma BankEvent(cfg: Config, p: SubArrays.Timing, id: BankId, b: Banks.BankMachine, k: nat, e: SubArrays.Action,
      rows: map<SubId, Row>)
    requires GoodTiming(p) && BankOk(cfg, p, b, b.now) && SameRows(rows, id, b)
    ensures var b' := Banks.BankAct(p, b, Banks.Event(k, e)); BankOk(cfg, p, b', b.now) && SameRows(rows, id, b')
  {
    hide SafeSub, SubArrays.Act, SubArrayRuns.RowOf, SubArrayRuns.RowEvents;
    Banks.EventAgrees(p, b, k, e);
    if k < |b.bank.subs| && (e.FireRow? || e.FireReply?) {
      ActKeepsSafe(p, b.bank.subs[k], e);
      Banks.EventKeepsRow(p, b.bank.subs[k], e);
    }
  }

  lemma BankTicks(cfg: Config, p: SubArrays.Timing, id: BankId, b: Banks.BankMachine, rows: map<SubId, Row>)
    requires GoodTiming(p) && BankOk(cfg, p, b, b.now) && SameRows(rows, id, b)
    requires forall i :: 0 <= i < |b.bank.subs| ==> SubArrays.NothingDue(b.bank.subs[i])
    ensures var b' := Banks.BankAct(p, b, Banks.NextCycle); BankOk(cfg, p, b', b.now + 1) && SameRows(rows, id, b')
  {
    Banks.NextCycleAgrees(p, b);
    var b' := Banks.BankAct(p, b, Banks.NextCycle);
    hide SafeSub, Banks.Agrees;
    forall i: nat | i < |b.bank.subs|
      ensures SafeSub(p, b'.bank.subs[i]) && SubArrayRuns.RowOf(b'.bank.subs[i]) == SubArrayRuns.RowOf(b.bank.subs[i])
    {
      ActKeepsSafe(p, b.bank.subs[i], SubArrays.Tick);
    }
  }

  // ----- The whole system -----

  ghost predicate BanksOk(cfg: Config, p: SubArrays.Timing, rows: map<SubId, Row>,
      banks: map<BankId, Banks.BankMachine>, now: nat)
    requires SubArrays.NoWrap(p)
  {
    && banks.Keys == AllBanks(cfg)
    && forall b :: b in banks ==> BankOk(cfg, p, banks[b], now) && SameRows(rows, b, banks[b])
  }

  ghost predicate Together(cfg: Config, p: SubArrays.Timing, m: System)
    requires cfg.banksPerRefresh >= 1 && SubArrays.NoWrap(p)
  {
    AtCycle(cfg, m.w, m.now) && QueuedExist(cfg, m.w.st.lines) && BanksOk(cfg, p, m.w.rows, m.banks, m.now)
  }

  // What the banks take the rank's gate lets through: a REFRESH finds the subarrays it reaches closed.
  lemma TakenIsAllowed(cfg: Config, p: SubArrays.Timing, m: System, q: nat, req: SubArrays.Request,
      cs: seq<SubArrays.Choice>)
    requires GoodConfig(cfg) && GoodTiming(p) && Together(cfg, p, m) && MayIssue(cfg, p, m, q, req, cs)
    ensures CanSend(cfg, m.w, q, m.now)
  {
    var c := QueueAt(m.w.st.lines, q)[0];
    if c.op == REFRESH {
      forall s | s in m.w.rows && Coherence.Hits(cfg, c, s) ensures m.w.rows[s] == Closed {
        Coherence.InGroup(cfg, GroupOf(cfg, BankOf(c.addr)), s.bankId);
        assert s.bankId in Addressed(cfg, c) && s == SubId(s.bankId, c.addr.sub);
        var b := m.banks[s.bankId];
        assert SameRows(m.w.rows, s.bankId, b);
        RefreshFindsClosed(p, b.bank, c.addr.sub, req, m.now);
      }
    }
  }

  // Every bank the head of a queue is passed to exists, and has the subarray.
  lemma NoBankMissing(cfg: Config, p: SubArrays.Timing, m: System, q: nat)
    requires GoodConfig(cfg) && SubArrays.NoWrap(p) && Together(cfg, p, m) && QueueAt(m.w.st.lines, q) != []
    ensures var c := QueueAt(m.w.st.lines, q)[0];
      Addressed(cfg, c) <= m.banks.Keys && forall b :: b in Addressed(cfg, c) ==> c.addr.sub < |m.banks[b].bank.subs|
  {
    var c := QueueAt(m.w.st.lines, q)[0];
    assert c in QueueAt(m.w.st.lines, q);
    AddressedExist(cfg, c);
    hide Addressed, AllBanks, AtCycle;
  }

  lemma RefreshFindsClosed(p: SubArrays.Timing, b: Banks.Bank, k: nat, req: SubArrays.Request, now: nat)
    requires p.usePrecharge && req.op == REFRESH && Banks.BankIssuable(p, b, k, req, now)
    ensures k < |b.subs| && SubArrayRuns.RowOf(b.subs[k]) == Closed
  {
  }

  lemma IssueKeepsBanks(cfg: Config, p: SubArrays.Timing, rows: map<SubId, Row>, banks: map<BankId, Banks.BankMachine>,
      c: Cmd, req: SubArrays.Request, cs: seq<SubArrays.Choice>, now: nat)
    requires GoodConfig(cfg) && GoodTiming(p) && BanksOk(cfg, p, rows, banks, now) && |cs| == cfg.subs
    requires CmdExists(cfg, c) && Carries(req, c) && Takes(cfg, p, banks, c, req, now)
    ensures BanksOk(cfg, p, Coherence.DeviceStep(cfg, rows, c), BanksAfter(cfg, p, banks, c, req, cs), now)
  {
    hide BankOk, SameRows, Banks.BankIssuable, Banks.BankAct, Coherence.DeviceStep, Addressed, AllBanks;
    var banks' := BanksAfter(cfg, p, banks, c, req, cs);
    assert banks'.Keys == banks.Keys;
    forall b | b in banks
      ensures BankOk(cfg, p, banks'[b], now) && SameRows(Coherence.DeviceStep(cfg, rows, c), b, banks'[b])
    {
      SameClock(cfg, p, banks[b], now);
      if b in Addressed(cfg, c) {
        BankTakes(cfg, p, b, banks[b], c, req, cs, rows);
      } else {
        BankUntouched(cfg, b, banks[b], c, rows);
      }
    }
  }

  lemma SameClock(cfg: Config, p: SubArrays.Timing, b: Banks.BankMachine, now: nat)
    requires SubArrays.NoWrap(p) && BankOk(cfg, p, b, now)
    ensures b.now == now
  {
  }

  lemma IssueKeepsTogether(cfg: Config, p: SubArrays.Timing, m: System, q: nat, req: SubArrays.Request,
      cs: seq<SubArrays.Choice>)
    requires GoodConfig(cfg) && GoodTiming(p) && Together(cfg, p, m) && MayIssue(cfg, p, m, q, req, cs)
    ensures Together(cfg, p, Stepped(cfg, p, m, Step.Issue(q, req, cs)))
  {
    TakenIsAllowed(cfg, p, m, q, req, cs);
    hide BanksOk, AtCycle, CanSend, QueuedExist, Takes, Addressed, BanksAfter, HeadIssued, Coherence.DeviceStep;
    HeadExists(cfg, m.w.st.lines, q);
    IssueKeepsBanks(cfg, p, m.w.rows, m.banks, QueueAt(m.w.st.lines, q)[0], req, cs, m.now);
    SentExist(cfg, m.w.st.lines, q);
    SendKeepsCycle(cfg, m.w, q, m.now);
  }

  lemma HeadExists(cfg: Config, l: Lines, q: nat)
    requires QueuedExist(cfg, l) && QueueAt(l, q) != []
    ensures CmdExists(cfg, QueueAt(l, q)[0])
  {
    assert QueueAt(l, q)[0] in QueueAt(l, q);
  }

  lemma MoveKeepsRows(cfg: Config, w: World, m: Move, now: nat)
    requires GoodConfig(cfg) && !m.Send?
    ensures Moved(cfg, w, m, now).rows == w.rows
  {
  }

  lemma ControlKeepsTogether(cfg: Config, p: SubArrays.Timing, m: System, move: Move)
    requires GoodConfig(cfg) && GoodTiming(p) && Together(cfg, p, m) && !move.Send?
    ensures Together(cfg, p, Stepped(cfg, p, m, Control(move)))
  {
    hide BanksOk, Moved, QueuedExist, Sound;
    MoveKeepsCycle(cfg, m.w, move, m.now);
    MoveKeepsExist(cfg, m.w, move, m.now);
    MoveKeepsRows(cfg, m.w, move, m.now);
  }

  lemma EventKeepsTogether(cfg: Config, p: SubArrays.Timing, m: System, b: BankId, k: nat, e: SubArrays.Action)
    requires GoodConfig(cfg) && GoodTiming(p) && Together(cfg, p, m)
    ensures Together(cfg, p, Stepped(cfg, p, m, DeviceEvent(b, k, e)))
  {
    hide AtCycle, QueuedExist, BankOk, SameRows, Banks.BankAct, AllBanks;
    if b in m.banks {
      SameClock(cfg, p, m.banks[b], m.now);
      BankEvent(cfg, p, b, m.banks[b], k, e, m.w.rows);
      assert m.banks[b := Banks.BankAct(p, m.banks[b], Banks.Event(k, e))].Keys == m.banks.Keys;
    }
  }

  lemma TickKeepsBanks(cfg: Config, p: SubArrays.Timing, rows: map<SubId, Row>, banks: map<BankId, Banks.BankMachine>,
      now: nat)
    requires GoodTiming(p) && BanksOk(cfg, p, rows, banks, now) && AllQuiet(banks)
    ensures BanksOk(cfg, p, rows, BanksTicked(p, banks), now + 1)
  {
    hide BankOk, SameRows, Banks.BankAct, AllBanks, SubArrays.NothingDue;
    var banks' := BanksTicked(p, banks);
    assert banks'.Keys == banks.Keys;
    forall b | b in banks ensures BankOk(cfg, p, banks'[b], now + 1) && SameRows(rows, b, banks'[b]) {
      SameClock(cfg, p, banks[b], now);
      BankTicks(cfg, p, b, banks[b], rows);
    }
  }

  lemma TickKeepsTogether(cfg: Config, p: SubArrays.Timing, m: System)
    requires GoodConfig(cfg) && GoodTiming(p) && Together(cfg, p, m) && AllQuiet(m.banks)
    ensures Together(cfg, p, Stepped(cfg, p, m, NextCycle))
  {
    hide QueuedExist, BanksOk, BanksTicked, Cleaned, CleanedUp, Sound, AllQuiet, AtCycle;
    NextCycleStarts(cfg, m.w, m.now);
    CleanedExist(cfg, m.w.st.lines);
    TickKeepsBanks(cfg, p, m.w.rows, m.banks, m.now);
  }

  lemma NextCycleStarts(cfg: Config, w: World, now: nat)
    requires GoodConfig(cfg) && AtCycle(cfg, w, now)
    ensures AtCycle(cfg, CleanedUp(w), now + 1)
    ensures CleanedUp(w).rows == w.rows && CleanedUp(w).st.lines == Cleaned(w.st.lines)
  {
    hide Sound, Cleaned;
    CleanupKeepsCycle(cfg, w, now + 1);
  }

  lemma StartsTogether(cfg: Config, p: SubArrays.Timing, queues: nat, poweredDown: bool)
    requires GoodConfig(cfg) && GoodTiming(p)
    ensures Together(cfg, p, SystemRun(cfg, p, queues, poweredDown, []))
  {
    StartsSound(cfg, queues);
    var m := SystemRun(cfg, p, queues, poweredDown, []);
    hide Sound;
    assert AtCycle(cfg, m.w, 0);
  }

  lemma StepKeepsTogether(cfg: Config, p: SubArrays.Timing, m: System, step: Step)
    requires GoodConfig(cfg) && GoodTiming(p) && Together(cfg, p, m)
    ensures Together(cfg, p, Stepped(cfg, p, m, step))
  {
    hide Together, MayIssue, Moved, Launched, CleanedUp;
    match step
    case Control(move) =>
      if !move.Send? {
        ControlKeepsTogether(cfg, p, m, move);
      }
    case Issue(q, req, cs) =>
      if MayIssue(cfg, p, m, q, req, cs) {
        IssueKeepsTogether(cfg, p, m, q, req, cs);
      }
    case DeviceEvent(b, k, e) => EventKeepsTogether(cfg, p, m, b, k, e);
    case NextCycle =>
      if AllQuiet(m.banks) {
        TickKeepsTogether(cfg, p, m);
      }
  }

  lemma {:induction false} SystemKeepsTogether(cfg: Config, p: SubArrays.Timing, queues: nat, poweredDown: bool,
      steps: seq<Step>)
    requires GoodConfig(cfg) && GoodTiming(p)
    ensures Together(cfg, p, SystemRun(cfg, p, queues, poweredDown, steps))
  {
    hide Together, Stepped;
    if steps == [] {
      StartsTogether(cfg, p, queues, poweredDown);
    } else {
      SystemKeepsTogether(cfg, p, queues, poweredDown, steps[..|steps| - 1]);
      StepKeepsTogether(cfg, p, SystemRun(cfg, p, queues, poweredDown, steps[..|steps| - 1]), steps[|steps| - 1]);
    }
  }

  // In every run of the controller with its banks, every subarray there is holds the row the controller's runs
  // say; where no command waits for its bank that is the row the controller predicts; and what the subarray
  // has accepted keeps every timing distance and is a legal run of the row automaton.
  lemma DeviceMatchesController(cfg: Config, p: SubArrays.Timing, queues: nat, poweredDown: bool, steps: seq<Step>,
      b: BankId, k: nat)
    requires GoodConfig(cfg) && GoodTiming(p) && b.rank < cfg.ranks && b.bank < cfg.banks && k < cfg.subs
    ensures var m := SystemRun(cfg, p, queues, poweredDown, steps);
      && Sound(cfg, m.w) && b in m.banks && k < |m.banks[b].bank.subs|
      && var s := m.banks[b].bank.subs[k];
         && SubArrayRuns.RowOf(s) == Coherence.RowOf(m.w.rows, SubId(b, k))
         && (Unissued(QueueAt(m.w.st.lines, QueueId(cfg, b))) == [] ==>
               SubArrayRuns.RowOf(s) == Coherence.PredictedRow(cfg, m.w.st.pred, SubId(b, k)))
         && SubArrayRuns.TimingSafe(p, s.trace) && SubArrayRuns.RowsLegal(s.trace)
  {
    SystemKeepsTogether(cfg, p, queues, poweredDown, steps);
    var m := SystemRun(cfg, p, queues, poweredDown, steps);
    hide SystemRun, Conserved, Accounted, QueuedFlagsOk, AssertsOk, InOrder, SubArrayRuns.TimingSafe,
        SubArrayRuns.RowsLegal, SubArrayRuns.RowInv, SubArrayRuns.TimeInv, Banks.Agrees;
    assert b in AllBanks(cfg);
    assert BankOk(cfg, p, m.banks[b], m.now) && SameRows(m.w.rows, b, m.banks[b]);
    assert SafeSub(p, m.banks[b].bank.subs[k]);
    assert Coherence.LeadsTo(cfg, m.w.st.lines, Coherence.RowOf(m.w.rows, SubId(b, k)), SubId(b, k),
                             Coherence.PredictedRow(cfg, m.w.st.pred, SubId(b, k)));
  }
}
