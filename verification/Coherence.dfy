/**
  Prediction coherence: replaying the unissued commands of a bank's queue on the rows the device holds is
  legal at every step and ends exactly in what the controller predicts.
*/
module Coherence {
  import opened Arithmetic
  import opened Device
  import opened Controller

  // ----- The device's rows, and replaying commands on them -----

  function RowOf(rows: map<SubId, Row>, s: SubId): Row {
    if s in rows then rows[s] else Closed
  }

  // The subarrays a command reaches: PRECHARGE_ALL a whole bank, REFRESH the subarray it names in every bank
  // of a group, as the rank passes it to each bank and the bank to that subarray.
  predicate Hits(cfg: Config, c: Cmd, s: SubId)
    requires cfg.banksPerRefresh >= 1
  {
    if c.op == PRECHARGE_ALL then BankOf(c.addr) == s.bankId
    else if c.op == REFRESH then GroupOf(cfg, BankOf(c.addr)) == GroupOf(cfg, s.bankId) && c.addr.sub == s.sub
    else SubOf(c.addr) == s
  }

  predicate CmdLegal(cfg: Config, r: Row, c: Cmd, s: SubId)
    requires cfg.banksPerRefresh >= 1
  {
    Hits(cfg, c, s) ==> RowLegal(r, c.op, c.addr.row)
  }

  function CmdStep(cfg: Config, r: Row, c: Cmd, s: SubId): Row
    requires cfg.banksPerRefresh >= 1
  {
    if Hits(cfg, c, s) then RowStep(r, c.op, c.addr.row) else r
  }

  function Replay(cfg: Config, r: Row, cmds: seq<Cmd>, s: SubId): Row
    requires cfg.banksPerRefresh >= 1
    decreases |cmds|
  {
    if cmds == [] then r else Replay(cfg, CmdStep(cfg, r, cmds[0], s), cmds[1..], s)
  }

  predicate Legal(cfg: Config, r: Row, cmds: seq<Cmd>, s: SubId)
    requires cfg.banksPerRefresh >= 1
    decreases |cmds|
  {
    cmds == [] || (CmdLegal(cfg, r, cmds[0], s) && Legal(cfg, CmdStep(cfg, r, cmds[0], s), cmds[1..], s))
  }

  // The device carries out a command.
  function DeviceStep(cfg: Config, rows: map<SubId, Row>, c: Cmd): map<SubId, Row>
    requires cfg.banksPerRefresh >= 1
  {
    var moved := map s | s in rows :: CmdStep(cfg, rows[s], c, s);
    if c.op == ACTIVATE then moved[SubOf(c.addr) := Open(c.addr.row)] else moved
  }

  lemma DeviceStepAt(cfg: Config, rows: map<SubId, Row>, c: Cmd, s: SubId)
    requires cfg.banksPerRefresh >= 1
    ensures RowOf(DeviceStep(cfg, rows, c), s) == CmdStep(cfg, RowOf(rows, s), c, s)
  {
  }

  lemma {:induction false} ReplayAppend(cfg: Config, r: Row, a: seq<Cmd>, b: seq<Cmd>, s: SubId)
    requires cfg.banksPerRefresh >= 1
    ensures Replay(cfg, r, a + b, s) == Replay(cfg, Replay(cfg, r, a, s), b, s)
    ensures Legal(cfg, r, a + b, s) <==> Legal(cfg, r, a, s) && Legal(cfg, Replay(cfg, r, a, s), b, s)
    decreases |a|
  {
    if a == [] {
      assert a + b == b;
    } else {
      assert (a + b)[1..] == a[1..] + b;
      ReplayAppend(cfg, CmdStep(cfg, r, a[0], s), a[1..], b, s);
    }
  }

  lemma ReplayCons(cfg: Config, r: Row, c: Cmd, cmds: seq<Cmd>, s: SubId)
    requires cfg.banksPerRefresh >= 1
    ensures Replay(cfg, r, [c] + cmds, s) == Replay(cfg, CmdStep(cfg, r, c, s), cmds, s)
    ensures Legal(cfg, r, [c] + cmds, s) <==> CmdLegal(cfg, r, c, s) && Legal(cfg, CmdStep(cfg, r, c, s), cmds, s)
  {
    assert ([c] + cmds)[1..] == cmds;
  }

  lemma {:induction false} UnissuedAppend(a: seq<Cmd>, b: seq<Cmd>)
    ensures Unissued(a + b) == Unissued(a) + Unissued(b)
    decreases |a|
  {
    if a == [] {
      assert a + b == b;
    } else {
      assert (a + b)[1..] == a[1..] + b;
      UnissuedAppend(a[1..], b);
    }
  }

  lemma {:induction false} UnissuedTwice(a: seq<Cmd>)
    ensures Unissued(Unissued(a)) == Unissued(a)
  {
    if a != [] {
      UnissuedTwice(a[1..]);
      if !a[0].issued {
        assert Unissued(a)[1..] == Unissued(a[1..]);
      }
    }
  }

  lemma {:induction false} UnissuedWithin(cmds: seq<Cmd>)
    ensures forall c :: c in Unissued(cmds) ==> c in cmds && !c.issued
  {
    if cmds != [] {
      UnissuedWithin(cmds[1..]);
    }
  }

  // ----- The invariant -----

  function PredictedRow(cfg: Config, p: Prediction, s: SubId): Row {
    if s in p.activeSubArray then Open(EffectiveRow(cfg, p, s)) else Closed
  }

  // The unissued commands of the bank's queue take the subarray from the device's row to `end`.
  predicate LeadsTo(cfg: Config, l: Lines, r: Row, s: SubId, end: Row)
    requires cfg.banksPerRefresh >= 1
  {
    var cmds := Unissued(QueueAt(l, QueueId(cfg, s.bankId)));
    Legal(cfg, r, cmds, s) && Replay(cfg, r, cmds, s) == end
  }

  ghost predicate Predicts(cfg: Config, l: Lines, p: Prediction, rows: map<SubId, Row>)
    requires cfg.banksPerRefresh >= 1
  {
    forall s :: LeadsTo(cfg, l, RowOf(rows, s), s, PredictedRow(cfg, p, s))
  }

  // A bank counts as activated iff one of its subarrays is active; only subarrays the bank has can be; and a
  // subarray is inactive iff its predicted row is ROWS.  The mux level of an inactive one is ROWS too.
  ghost predicate FlagsAgree(cfg: Config, p: Prediction) {
    && (forall b :: b in p.activateQueued <==> AnyActive(p, b))
    && (forall s :: s in p.activeSubArray ==> s.sub < cfg.subs)
    && (forall s :: s in p.activeSubArray <==> EffectiveRow(cfg, p, s) < cfg.rows)
    && (forall s :: s !in p.activeSubArray ==> EffectiveRow(cfg, p, s) == cfg.rows == EffectiveMux(cfg, p, s))
  }

  predicate NamesGroupHead(cfg: Config, c: Cmd)
    requires cfg.banksPerRefresh >= 1
  {
    c.op == REFRESH ==> BankOf(c.addr) == GroupHead(cfg, GroupOf(cfg, BankOf(c.addr)))
  }

  predicate Placed(cfg: Config, c: Cmd, q: nat)
    requires cfg.banksPerRefresh >= 1
  {
    QueueId(cfg, BankOf(c.addr)) == q && NamesGroupHead(cfg, c)
  }

  // Every command sits in the queue its bank maps to, and a REFRESH names the first bank of its group.
  ghost predicate WellPlaced(cfg: Config, l: Lines)
    requires cfg.banksPerRefresh >= 1
  {
    forall q, k :: 0 <= k < |QueueAt(l, q)| ==> Placed(cfg, QueueAt(l, q)[k], q)
  }

  // Transactions are reads and writes to addresses the memory has.
  ghost predicate TransactionsOk(cfg: Config, st: State) {
    forall t, k :: 0 <= t < |st.transactions| && 0 <= k < |st.transactions[t]| ==>
      RequestOk(cfg, st.transactions[t][k])
  }

  predicate RequestOk(cfg: Config, r: Req) {
    InRange(cfg, r.addr) && (r.op == READ || r.op == WRITE)
  }

  ghost predicate Coherent(cfg: Config, st: State, rows: map<SubId, Row>)
    requires cfg.banksPerRefresh >= 1
  {
    && Predicts(cfg, st.lines, st.pred, rows)
    && FlagsAgree(cfg, st.pred)
    && WellPlaced(cfg, st.lines)
    && TransactionsOk(cfg, st)
  }

  lemma InitiallyCoherent(cfg: Config, queues: nat)
    requires GoodConfig(cfg)
    ensures Coherent(cfg, Initial(queues), map[])
  {
  }

  // ----- Queueing commands -----

  // A command that no subarray of another queue could notice.
  predicate StaysPut(c: Cmd) { !c.issued && (c.op == ACTIVATE || IsRead(c.op) || IsWrite(c.op) || IsPrecharge(c.op)) }

  lemma PushedLeads(cfg: Config, l: Lines, c: Cmd, r: Row, s: SubId, end: Row)
    requires cfg.banksPerRefresh >= 1 && !c.issued && LeadsTo(cfg, l, r, s, end)
    requires QueueId(cfg, s.bankId) == QueueId(cfg, BankOf(c.addr)) ==> CmdLegal(cfg, end, c, s)
    requires StaysPut(c) || c.op == REFRESH
    ensures LeadsTo(cfg, Pushed(l, QueueId(cfg, BankOf(c.addr)), c), r, s, CmdStep(cfg, end, c, s))
  {
    var q := QueueId(cfg, BankOf(c.addr));
    if QueueId(cfg, s.bankId) == q {
      var c' := c.(tag := l.nextTag);
      UnissuedAppend(QueueAt(l, q), [c']);
      ReplayCons(cfg, end, c', [], s);
      assert [c'] + [] == [c'] == Unissued([c']);
      ReplayAppend(cfg, r, Unissued(QueueAt(l, q)), [c'], s);
      assert CmdStep(cfg, end, c', s) == CmdStep(cfg, end, c, s);
    }
  }

  lemma {:induction false} PushedAllLeads(cfg: Config, l: Lines, q: nat, cmds: seq<Cmd>, r: Row, s: SubId, end: Row)
    requires cfg.banksPerRefresh >= 1 && LeadsTo(cfg, l, r, s, end)
    requires forall c :: c in cmds ==> StaysPut(c) && QueueId(cfg, BankOf(c.addr)) == q
    requires Legal(cfg, end, cmds, s)
    ensures LeadsTo(cfg, PushedAll(l, q, cmds), r, s, Replay(cfg, end, cmds, s))
    decreases |cmds|
  {
    if cmds != [] {
      assert cmds[0] in cmds && forall c :: c in cmds[1..] ==> c in cmds;
      PushedLeads(cfg, l, cmds[0], r, s, end);
      PushedAllLeads(cfg, Pushed(l, q, cmds[0]), q, cmds[1..], r, s, CmdStep(cfg, end, cmds[0], s));
    }
  }

  lemma PushedWellPlaced(cfg: Config, l: Lines, c: Cmd)
    requires cfg.banksPerRefresh >= 1 && WellPlaced(cfg, l) && NamesGroupHead(cfg, c)
    ensures WellPlaced(cfg, Pushed(l, QueueId(cfg, BankOf(c.addr)), c))
  {
    var q0 := QueueId(cfg, BankOf(c.addr));
    var l' := Pushed(l, q0, c);
    forall q, k | 0 <= k < |QueueAt(l', q)| ensures Placed(cfg, QueueAt(l', q)[k], q) {
      if q != q0 || k < |QueueAt(l, q)| {
        assert QueueAt(l', q)[k] == QueueAt(l, q)[k];
      } else {
        assert QueueAt(l', q)[k] == c.(tag := l.nextTag);
      }
    }
  }

  lemma {:induction false} PushedAllWellPlaced(cfg: Config, l: Lines, q: nat, cmds: seq<Cmd>)
    requires cfg.banksPerRefresh >= 1 && WellPlaced(cfg, l)
    requires forall c :: c in cmds ==> QueueId(cfg, BankOf(c.addr)) == q && c.op != REFRESH
    ensures WellPlaced(cfg, PushedAll(l, q, cmds))
    decreases |cmds|
  {
    if cmds != [] {
      assert cmds[0] in cmds && forall c :: c in cmds[1..] ==> c in cmds;
      PushedWellPlaced(cfg, l, cmds[0]);
      PushedAllWellPlaced(cfg, Pushed(l, q, cmds[0]), q, cmds[1..]);
    }
  }

  // ----- Scheduling a transaction -----

  // The branch agrees with the prediction; the empty-queue guards play no part here.
  predicate BranchFits(cfg: Config, p: Prediction, r: Req, b: Branch)
    requires cfg.rbSize >= 1
  {
    match b
    case OpenRow => BankOf(r.addr) !in p.activateQueued
    case SwitchRow => BankOf(r.addr) in p.activateQueued && Misses(cfg, p, r.addr)
    case UseRow => BankOf(r.addr) in p.activateQueued && !Misses(cfg, p, r.addr)
    case Reject => true
  }

  ghost predicate Follows(cfg: Config, p: Prediction, r: Req, b: Branch, s: SubId)
    requires GoodConfig(cfg)
  {
    && Legal(cfg, PredictedRow(cfg, p, s), CommandsFor(cfg, p, r, b), s)
    && Replay(cfg, PredictedRow(cfg, p, s), CommandsFor(cfg, p, r, b), s)
    == PredictedRow(cfg, PredictionAfter(cfg, p, r, b), s)
  }

  lemma {:induction false} MissedReplay(cfg: Config, r: Row, cmds: seq<Cmd>, s: SubId)
    requires cfg.banksPerRefresh >= 1 && forall c :: c in cmds ==> !Hits(cfg, c, s)
    ensures Legal(cfg, r, cmds, s) && Replay(cfg, r, cmds, s) == r
    decreases |cmds|
  {
    if cmds != [] {
      assert cmds[0] in cmds && forall c :: c in cmds[1..] ==> c in cmds;
      MissedReplay(cfg, r, cmds[1..], s);
    }
  }

  lemma OthersFollow(cfg: Config, p: Prediction, r: Req, b: Branch, s: SubId)
    requires GoodConfig(cfg) && RequestOk(cfg, r) && s != SubOf(r.addr)
    ensures Follows(cfg, p, r, b, s)
  {
    MissedReplay(cfg, PredictedRow(cfg, p, s), CommandsFor(cfg, p, r, b), s);
  }

  lemma SwitchFollows(cfg: Config, p: Prediction, r: Req)
    requires GoodConfig(cfg) && RequestOk(cfg, r) && FlagsAgree(cfg, p)
    requires BranchFits(cfg, p, r, SwitchRow)
    ensures Follows(cfg, p, r, SwitchRow, SubOf(r.addr))
  {
    var s := SubOf(r.addr);
    var start := PredictedRow(cfg, p, s);
    var pre := PrechargeCmd(r.addr, EffectiveRow(cfg, p, s));
    var mid := if s in p.activeSubArray then CmdStep(cfg, start, pre, s) else start;
    var tail := [ActivateCmd(r.addr)] + ([ColumnCmd(r)] + []);
    ReplayCons(cfg, mid, ActivateCmd(r.addr), [ColumnCmd(r)] + [], s);
    ReplayCons(cfg, CmdStep(cfg, mid, ActivateCmd(r.addr), s), ColumnCmd(r), [], s);
    if s in p.activeSubArray {
      assert CommandsFor(cfg, p, r, SwitchRow) == [pre] + tail;
      ReplayCons(cfg, start, pre, tail, s);
    } else {
      assert CommandsFor(cfg, p, r, SwitchRow) == tail;
    }
  }

  // The commands for a transaction are legal after the predicted row and lead to the new prediction.
  lemma CommandsFollowPrediction(cfg: Config, p: Prediction, r: Req, b: Branch, s: SubId)
    requires GoodConfig(cfg) && RequestOk(cfg, r) && FlagsAgree(cfg, p) && BranchFits(cfg, p, r, b)
    ensures Follows(cfg, p, r, b, s)
  {
    var own := SubOf(r.addr);
    var cmds := CommandsFor(cfg, p, r, b);
    var start := PredictedRow(cfg, p, s);
    if s != own {
      OthersFollow(cfg, p, r, b, s);
    } else if b == OpenRow {
      assert own in p.activeSubArray ==> own.bankId in p.activateQueued;
      assert cmds == [cmds[0]] + ([cmds[1]] + []);
      ReplayCons(cfg, start, cmds[0], [cmds[1]] + [], s);
      ReplayCons(cfg, CmdStep(cfg, start, cmds[0], s), cmds[1], [], s);
    } else if b == SwitchRow {
      SwitchFollows(cfg, p, r);
    } else if b == UseRow {
      assert cmds == [cmds[0]] + [];
      ReplayCons(cfg, start, cmds[0], [], s);
    }
  }

  lemma FlagsAfterBranch(cfg: Config, p: Prediction, r: Req, b: Branch)
    requires GoodConfig(cfg) && RequestOk(cfg, r) && FlagsAgree(cfg, p) && BranchFits(cfg, p, r, b)
    ensures FlagsAgree(cfg, PredictionAfter(cfg, p, r, b))
  {
    var own := SubOf(r.addr);
    var p' := PredictionAfter(cfg, p, r, b);
    assert forall s :: s != own ==> (s in p'.activeSubArray <==> s in p.activeSubArray);
    forall bank ensures bank in p'.activateQueued <==> AnyActive(p', bank) {
      if bank == own.bankId {
        if own in p'.activeSubArray { assert AnyActive(p', bank); }
      } else if s :| s in p.activeSubArray && s.bankId == bank {
        assert s in p'.activeSubArray;
      }
    }
  }

  lemma CommandsStayPut(cfg: Config, p: Prediction, r: Req, b: Branch)
    requires RequestOk(cfg, r)
    ensures forall c :: c in CommandsFor(cfg, p, r, b) ==>
      StaysPut(c) && QueueId(cfg, BankOf(c.addr)) == QueueId(cfg, BankOf(r.addr))
  {
  }

  lemma IssuedLeads(cfg: Config, l: Lines, p: Prediction, r: Req, b: Branch, row: Row, s: SubId)
    requires GoodConfig(cfg) && RequestOk(cfg, r) && FlagsAgree(cfg, p) && BranchFits(cfg, p, r, b)
    requires LeadsTo(cfg, l, row, s, PredictedRow(cfg, p, s))
    ensures LeadsTo(cfg, PushedAll(l, QueueId(cfg, BankOf(r.addr)), CommandsFor(cfg, p, r, b)), row, s,
                    PredictedRow(cfg, PredictionAfter(cfg, p, r, b), s))
  {
    hide LeadsTo, PredictedRow, CommandsFor, PredictionAfter, Legal, Replay;
    CommandsStayPut(cfg, p, r, b);
    CommandsFollowPrediction(cfg, p, r, b, s);
    PushedAllLeads(cfg, l, QueueId(cfg, BankOf(r.addr)), CommandsFor(cfg, p, r, b), row, s, PredictedRow(cfg, p, s));
  }

  lemma IssuedCoherent(cfg: Config, st: State, rows: map<SubId, Row>, r: Req)
    requires GoodConfig(cfg) && Coherent(cfg, st, rows) && RequestOk(cfg, r)
    ensures Coherent(cfg, MemoryCommandsIssued(cfg, st, r), rows)
  {
    hide LeadsTo, PredictedRow, CommandsFor, PredictionAfter;
    var b := BranchFor(cfg, st.lines, st.pred, r);
    var st' := MemoryCommandsIssued(cfg, st, r);
    if b != Reject {
      var q := QueueId(cfg, BankOf(r.addr));
      var cmds := CommandsFor(cfg, st.pred, r, b);
      CommandsStayPut(cfg, st.pred, r, b);
      FlagsAfterBranch(cfg, st.pred, r, b);
      PushedAllWellPlaced(cfg, st.lines, q, cmds);
      forall s ensures LeadsTo(cfg, st'.lines, RowOf(rows, s), s, PredictedRow(cfg, st'.pred, s)) {
        IssuedLeads(cfg, st.lines, st.pred, r, b, RowOf(rows, s), s);
      }
      assert Predicts(cfg, st'.lines, st'.pred, rows);
    }
  }

  lemma ScheduledCoherent(cfg: Config, st: State, rows: map<SubId, Row>, t: nat, i: nat, sel: Selector, force: bool,
      now: nat)
    requires GoodConfig(cfg) && Coherent(cfg, st, rows)
    ensures Coherent(cfg, ScheduledAt(cfg, st, t, i, sel, force, now), rows)
  {
    if t < |st.transactions| {
      var queue := st.transactions[t];
      if i < |queue| && Eligible(cfg, st, sel, queue[i], now) {
        var rest := Removed(queue, i);
        var st1 := st.(transactions := st.transactions[t := rest]);
        assert RequestOk(cfg, queue[i]);
        forall u, k | 0 <= u < |st1.transactions| && 0 <= k < |st1.transactions[u]|
          ensures RequestOk(cfg, st1.transactions[u][k])
        {
          if u == t {
            assert st1.transactions[u][k] == queue[if k < i then k else k + 1];
          } else {
            assert st1.transactions[u] == st.transactions[u];
          }
        }
        var r := queue[i].(last := queue[i].last || IsLastRequest(cfg, rest, queue[i]),
                           forced := queue[i].forced || force);
        IssuedCoherent(cfg, st1, rows, r);
      }
    }
  }

  // ----- Queueing a refresh -----

  lemma InGroup(cfg: Config, g: Group, b: BankId)
    requires cfg.banksPerRefresh >= 1
    ensures b in GroupBanks(cfg, g) <==> GroupOf(cfg, b) == g
  {
    if GroupOf(cfg, b) == g {
      assert g.index * cfg.banksPerRefresh <= b.bank < (g.index + 1) * cfg.banksPerRefresh;
      assert b == BankId(g.rank, b.bank);
    } else if b in GroupBanks(cfg, g) {
      DivideExact(b.bank, cfg.banksPerRefresh, g.index);
    }
  }

  lemma ClosedBankAgrees(cfg: Config, p: Prediction, b: BankId)
    requires FlagsAgree(cfg, p)
    ensures FlagsAgree(cfg, ClosedBank(cfg, p, b))
    ensures forall s: SubId :: PredictedRow(cfg, ClosedBank(cfg, p, b), s) ==
                        if s.bankId == b then Closed else PredictedRow(cfg, p, s)
  {
    var p' := ClosedBank(cfg, p, b);
    SubsOfBank(cfg, b);
    forall c ensures c in p'.activateQueued <==> AnyActive(p', c) {
      ClosedBankActive(cfg, p, b, c);
    }
    hide AnyActive, SubsOf, ClosedRows;
    assert forall s: SubId :: s in p'.activeSubArray <==> s in p.activeSubArray && s.bankId != b;
    forall s: SubId
      ensures EffectiveRow(cfg, p', s) == if s in SubsOf(cfg, b) then cfg.rows else EffectiveRow(cfg, p, s)
      ensures EffectiveMux(cfg, p', s) == if s in SubsOf(cfg, b) then cfg.rows else EffectiveMux(cfg, p, s)
    {
      ClosedRowsAt(cfg, b, s);
    }
    hide ClosedBank, EffectiveRow, EffectiveMux;
  }

  lemma ClosedRowsAt(cfg: Config, b: BankId, s: SubId)
    ensures s in ClosedRows(cfg, b, cfg.subs) <==> s in SubsOf(cfg, b)
    ensures s in SubsOf(cfg, b) ==> ClosedRows(cfg, b, cfg.subs)[s] == cfg.rows
  {
  }

  lemma SubsOfBank(cfg: Config, b: BankId)
    ensures forall s: SubId :: s in SubsOf(cfg, b) <==> s.bankId == b && s.sub < cfg.subs
  {
    forall s: SubId ensures s in SubsOf(cfg, b) <==> s.bankId == b && s.sub < cfg.subs {
      assert s == SubId(s.bankId, s.sub);
    }
  }

  lemma ClosedBankActive(cfg: Config, p: Prediction, b: BankId, c: BankId)
    requires FlagsAgree(cfg, p)
    ensures c in ClosedBank(cfg, p, b).activateQueued <==> AnyActive(ClosedBank(cfg, p, b), c)
  {
    SubsOfBank(cfg, b);
    hide SubsOf;
    var p' := ClosedBank(cfg, p, b);
    if c != b && AnyActive(p, c) {
      var s :| s in p.activeSubArray && s.bankId == c;
      assert s in p'.activeSubArray;
    }
  }

  ghost predicate QueuesAgree(cfg: Config, l: Lines, p: Prediction, rows: map<SubId, Row>)
    requires cfg.banksPerRefresh >= 1
  {
    Predicts(cfg, l, p, rows) && FlagsAgree(cfg, p) && WellPlaced(cfg, l)
  }

  lemma ClosedIfActiveCoherent(cfg: Config, l: Lines, p: Prediction, rows: map<SubId, Row>, b: BankId)
    requires GoodConfig(cfg) && QueuesAgree(cfg, l, p, rows)
    ensures QueuesAgree(cfg, ClosedIfActive(cfg, l, p, b).0, ClosedIfActive(cfg, l, p, b).1, rows)
    ensures ClosedIfActive(cfg, l, p, b).1.activateQueued == p.activateQueued - {b}
  {
    if b in p.activateQueued {
      var c := PrechargeAllCmd(b);
      assert BankOf(c.addr) == b;
      ClosedBankAgrees(cfg, p, b);
      PushedWellPlaced(cfg, l, c);
      forall s ensures LeadsTo(cfg, Pushed(l, QueueId(cfg, b), c), RowOf(rows, s), s,
                               PredictedRow(cfg, ClosedBank(cfg, p, b), s))
      {
        assert LeadsTo(cfg, l, RowOf(rows, s), s, PredictedRow(cfg, p, s));
        PushedLeads(cfg, l, c, RowOf(rows, s), s, PredictedRow(cfg, p, s));
      }
    }
  }

  // The first n banks of the group are predicted closed.
  ghost predicate QuietBanks(cfg: Config, p: Prediction, g: Group, n: nat) {
    forall b: BankId ::
      b.rank == g.rank && g.index * cfg.banksPerRefresh <= b.bank < g.index * cfg.banksPerRefresh + n ==>
      b !in p.activateQueued
  }

  lemma {:induction false} ClosedForRefreshCoherent(cfg: Config, l: Lines, p: Prediction, rows: map<SubId, Row>,
                                                    g: Group, n: nat)
    requires GoodConfig(cfg) && QueuesAgree(cfg, l, p, rows)
    ensures QueuesAgree(cfg, ClosedForRefresh(cfg, l, p, g, n).0, ClosedForRefresh(cfg, l, p, g, n).1, rows)
    ensures QuietBanks(cfg, ClosedForRefresh(cfg, l, p, g, n).1, g, n)
  {
    hide QueuesAgree, ClosedIfActive;
    if n > 0 {
      ClosedForRefreshCoherent(cfg, l, p, rows, g, n - 1);
      var (l1, p1) := ClosedForRefresh(cfg, l, p, g, n - 1);
      ClosedIfActiveCoherent(cfg, l1, p1, rows, BankId(g.rank, g.index * cfg.banksPerRefresh + (n - 1)));
    }
  }

  lemma RefreshCoherent(cfg: Config, st: State, rows: map<SubId, Row>, g: Group, now: nat)
    requires GoodConfig(cfg) && Coherent(cfg, st, rows) && Delayed(st.refresh, g) >= 1
    ensures Coherent(cfg, RefreshHandled(cfg, st, g, now), rows)
  {
    ClosedForRefreshCoherent(cfg, st.lines, st.pred, rows, g, cfg.banksPerRefresh);
    var (l, p) := ClosedForRefresh(cfg, st.lines, st.pred, g, cfg.banksPerRefresh);
    var c := RefreshCmd(GroupHead(cfg, g));
    assert BankOf(c.addr) == GroupHead(cfg, g);
    DivideExact(GroupHead(cfg, g).bank, cfg.banksPerRefresh, g.index);
    PushedWellPlaced(cfg, l, c);
    forall s ensures LeadsTo(cfg, Pushed(l, QueueId(cfg, GroupHead(cfg, g)), c), RowOf(rows, s), s,
                             PredictedRow(cfg, p, s))
    {
      if Hits(cfg, c, s) {
        InGroup(cfg, g, s.bankId);
        assert s.bankId.rank == g.rank && s.bankId !in p.activateQueued;
        assert s !in p.activeSubArray;
      }
      PushedLeads(cfg, l, c, RowOf(rows, s), s, PredictedRow(cfg, p, s));
    }
  }

  // ----- Issuing and cleaning up -----

  lemma SentCoherent(cfg: Config, st: State, rows: map<SubId, Row>, q: nat, now: nat)
    requires GoodConfig(cfg) && Coherent(cfg, st, rows)
    requires QueueAt(st.lines, q) != [] && !QueueAt(st.lines, q)[0].issued
    ensures Coherent(cfg, Sent(cfg, st, q, now), DeviceStep(cfg, rows, QueueAt(st.lines, q)[0]))
    // The device meets the command in a row state that allows it.
    ensures forall s: SubId :: QueueId(cfg, s.bankId) == q ==> CmdLegal(cfg, RowOf(rows, s), QueueAt(st.lines, q)[0], s)
  {
    var queue := QueueAt(st.lines, q);
    var c := queue[0];
    var st' := Sent(cfg, st, q, now);
    var rows' := DeviceStep(cfg, rows, c);
    assert QueueId(cfg, BankOf(c.addr)) == q;
    assert QueueAt(st'.lines, q)[1..] == queue[1..];
    assert Unissued(QueueAt(st'.lines, q)) == Unissued(queue[1..]);
    assert Unissued(queue) == [c] + Unissued(queue[1..]);
    forall s ensures LeadsTo(cfg, st'.lines, RowOf(rows', s), s, PredictedRow(cfg, st.pred, s))
      ensures QueueId(cfg, s.bankId) == q ==> CmdLegal(cfg, RowOf(rows, s), c, s)
    {
      DeviceStepAt(cfg, rows, c, s);
      assert LeadsTo(cfg, st.lines, RowOf(rows, s), s, PredictedRow(cfg, st.pred, s));
      if QueueId(cfg, s.bankId) == q {
        ReplayCons(cfg, RowOf(rows, s), c, Unissued(queue[1..]), s);
      } else {
        assert QueueAt(st'.lines, QueueId(cfg, s.bankId)) == QueueAt(st.lines, QueueId(cfg, s.bankId));
      }
    }
    assert Predicts(cfg, st'.lines, st'.pred, rows');
    forall q', k | 0 <= k < |QueueAt(st'.lines, q')| ensures Placed(cfg, QueueAt(st'.lines, q')[k], q') {
      assert QueueAt(st'.lines, q')[k].addr == QueueAt(st.lines, q')[k].addr;
      assert QueueAt(st'.lines, q')[k].op == QueueAt(st.lines, q')[k].op;
    }
  }

  lemma {:induction false} UnissuedFrom(cmds: seq<Cmd>, k: nat) returns (j: nat)
    requires k < |Unissued(cmds)|
    ensures j < |cmds| && cmds[j] == Unissued(cmds)[k]
  {
    if cmds[0].issued {
      j := UnissuedFrom(cmds[1..], k);
      j := j + 1;
    } else if k == 0 {
      j := 0;
    } else {
      j := UnissuedFrom(cmds[1..], k - 1);
      j := j + 1;
    }
  }

  lemma CleanedCoherent(cfg: Config, st: State, rows: map<SubId, Row>)
    requires GoodConfig(cfg) && Coherent(cfg, st, rows)
    ensures Coherent(cfg, st.(lines := Cleaned(st.lines)), rows)
  {
    var l' := Cleaned(st.lines);
    assert forall q :: QueueAt(l', q) == Unissued(QueueAt(st.lines, q));
    forall s ensures LeadsTo(cfg, l', RowOf(rows, s), s, PredictedRow(cfg, st.pred, s)) {
      assert LeadsTo(cfg, st.lines, RowOf(rows, s), s, PredictedRow(cfg, st.pred, s));
      UnissuedTwice(QueueAt(st.lines, QueueId(cfg, s.bankId)));
    }
    forall q, k | 0 <= k < |QueueAt(l', q)| ensures Placed(cfg, QueueAt(l', q)[k], q) {
      var j := UnissuedFrom(QueueAt(st.lines, q), k);
    }
  }
}
