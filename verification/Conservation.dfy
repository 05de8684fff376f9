/**
  Request conservation: scheduling takes exactly one eligible request out of its queue, never refuses
  it, and every step keeps the requests that wait in transaction and command queues, until the device has them.
*/
module Conservation {
  import opened Arithmetic
  import opened Controller
  import opened Coherence

  // ----- How often a request x waits in a queue -----

  function ReqCount(queue: seq<Req>, x: nat): nat {
    if queue == [] then 0 else One(queue[0].id == x) + ReqCount(queue[1..], x)
  }

  function TransCount(ts: seq<seq<Req>>, x: nat): nat {
    if ts == [] then 0 else ReqCount(ts[0], x) + TransCount(ts[1..], x)
  }

  function Carries(c: Cmd, x: nat): nat {
    One(c.req.Some? && c.req.value.id == x)
  }

  function CmdCount(cmds: seq<Cmd>, x: nat): nat {
    if cmds == [] then 0 else Carries(cmds[0], x) + CmdCount(cmds[1..], x)
  }

  // Over the first n command queues, what has not been issued.
  function LineCount(l: Lines, n: nat, x: nat): nat {
    if n == 0 then 0 else LineCount(l, n - 1, x) + CmdCount(Unissued(QueueAt(l, n - 1)), x)
  }

  // How often the request waits in the controller.
  function Waiting(cfg: Config, st: State, x: nat): nat {
    TransCount(st.transactions, x) + LineCount(st.lines, QueueCount(cfg), x)
  }

  // ----- Sums -----

  lemma {:induction false} ReqCountAppend(a: seq<Req>, b: seq<Req>, x: nat)
    ensures ReqCount(a + b, x) == ReqCount(a, x) + ReqCount(b, x)
    decreases |a|
  {
    if a == [] {
      assert a + b == b;
    } else {
      assert (a + b)[1..] == a[1..] + b;
      ReqCountAppend(a[1..], b, x);
    }
  }

  lemma {:induction false} CmdCountAppend(a: seq<Cmd>, b: seq<Cmd>, x: nat)
    ensures CmdCount(a + b, x) == CmdCount(a, x) + CmdCount(b, x)
    decreases |a|
  {
    if a == [] {
      assert a + b == b;
    } else {
      assert (a + b)[1..] == a[1..] + b;
      CmdCountAppend(a[1..], b, x);
    }
  }

  lemma RemovedCount(queue: seq<Req>, i: nat, x: nat)
    requires i < |queue|
    ensures ReqCount(queue, x) == ReqCount(Removed(queue, i), x) + One(queue[i].id == x)
  {
    assert queue == queue[..i] + ([queue[i]] + queue[i + 1..]);
    ReqCountAppend(queue[..i], [queue[i]] + queue[i + 1..], x);
    ReqCountAppend([queue[i]], queue[i + 1..], x);
    ReqCountAppend(queue[..i], queue[i + 1..], x);
  }

  lemma {:induction false} TransCountUpdate(ts: seq<seq<Req>>, t: nat, queue: seq<Req>, x: nat)
    requires t < |ts|
    ensures TransCount(ts[t := queue], x) + ReqCount(ts[t], x) == TransCount(ts, x) + ReqCount(queue, x)
    decreases t
  {
    if t == 0 {
      assert ts[t := queue][1..] == ts[1..];
    } else {
      assert ts[t := queue][1..] == ts[1..][t - 1 := queue];
      TransCountUpdate(ts[1..], t - 1, queue, x);
    }
  }

  // Queue q gains d unissued copies of x; the others keep theirs.
  lemma {:induction false} LineCountChange(l: Lines, l': Lines, q: nat, d: int, n: nat, x: nat)
    requires forall i: nat :: CmdCount(Unissued(QueueAt(l', i)), x) ==
                              CmdCount(Unissued(QueueAt(l, i)), x) + (if i == q then d else 0)
    ensures LineCount(l', n, x) == LineCount(l, n, x) + (if q < n then d else 0)
  {
    if n > 0 {
      LineCountChange(l, l', q, d, n - 1, x);
    }
  }

  lemma PushedCount(l: Lines, q: nat, c: Cmd, n: nat, x: nat)
    requires q < n && !c.issued
    ensures LineCount(Pushed(l, q, c), n, x) == LineCount(l, n, x) + Carries(c, x)
  {
    var l' := Pushed(l, q, c);
    var c' := c.(tag := l.nextTag);
    assert Unissued([c']) == [c'];
    UnissuedAppend(QueueAt(l, q), [c']);
    CmdCountAppend(Unissued(QueueAt(l, q)), [c'], x);
    assert CmdCount([c'], x) == Carries(c, x);
    LineCountChange(l, l', q, Carries(c, x), n, x);
  }

  lemma {:induction false} PushedAllCount(l: Lines, q: nat, cmds: seq<Cmd>, n: nat, x: nat)
    requires q < n && forall c :: c in cmds ==> !c.issued
    ensures LineCount(PushedAll(l, q, cmds), n, x) == LineCount(l, n, x) + CmdCount(cmds, x)
    decreases |cmds|
  {
    if cmds != [] {
      assert cmds[0] in cmds && forall c :: c in cmds[1..] ==> c in cmds;
      PushedCount(l, q, cmds[0], n, x);
      PushedAllCount(Pushed(l, q, cmds[0]), q, cmds[1..], n, x);
    }
  }

  lemma QueueInRange(cfg: Config, b: BankId)
    requires b.rank < cfg.ranks && b.bank < cfg.banks
    ensures QueueId(cfg, b) < QueueCount(cfg)
  {
    if !cfg.perRank && cfg.rankFirst {
      MulStep(b.bank, cfg.banks, cfg.ranks);
      assert (b.bank + 1) * cfg.ranks == b.bank * cfg.ranks + cfg.ranks;
    } else if !cfg.perRank {
      MulStep(b.rank, cfg.ranks, cfg.banks);
      assert (b.rank + 1) * cfg.banks == b.rank * cfg.banks + cfg.banks;
    }
  }

  // ----- Scheduling -----

  // A request any selector finds is never refused afterwards.
  lemma SelectedIsAccepted(cfg: Config, st: State, sel: Selector, r: Req, now: nat, transactions: seq<seq<Req>>,
                           last: bool, forced: bool)
    requires GoodConfig(cfg) && Eligible(cfg, st, sel, r, now)
    ensures BranchFor(cfg, st.(transactions := transactions).lines, st.pred, r.(last := last, forced := forced))
         != Reject
  {
  }

  lemma CmdCountLast(front: seq<Cmd>, c: Cmd, x: nat)
    requires forall d :: d in front ==> d.req.None?
    ensures CmdCount(front + [c], x) == Carries(c, x)
  {
    CmdCountAppend(front, [c], x);
    NoRequests(front, x);
  }

  lemma CommandsCarryRequest(cfg: Config, p: Prediction, r: Req, b: Branch, x: nat)
    requires b != Reject
    ensures CmdCount(CommandsFor(cfg, p, r, b), x) == One(r.id == x)
  {
    var column := ColumnCmd(if r.last && b != SwitchRow then ImplicitPrecharge(r) else r);
    var activate := ActivateCmd(r.addr);
    match b
    case OpenRow =>
      assert CommandsFor(cfg, p, r, b) == [activate] + [column];
      CmdCountLast([activate], column, x);
    case SwitchRow =>
      var pre := if SubOf(r.addr) in p.activeSubArray then
                   [PrechargeCmd(r.addr, EffectiveRow(cfg, p, SubOf(r.addr)))]
                 else [];
      assert CommandsFor(cfg, p, r, b) == (pre + [activate]) + [column];
      CmdCountLast(pre + [activate], column, x);
    case UseRow =>
      assert CommandsFor(cfg, p, r, b) == [] + [column];
      CmdCountLast([], column, x);
  }

  lemma {:induction false} NoRequests(cmds: seq<Cmd>, x: nat)
    requires forall c :: c in cmds ==> c.req.None?
    ensures CmdCount(cmds, x) == 0
  {
    if cmds != [] {
      assert cmds[0] in cmds && forall c :: c in cmds[1..] ==> c in cmds;
      NoRequests(cmds[1..], x);
    }
  }

  // A selected request moves from its transaction queue to a command queue.
  lemma SelectedConserves(cfg: Config, st: State, t: nat, i: nat, r: Req, x: nat)
    requires GoodConfig(cfg) && t < |st.transactions| && i < |st.transactions[t]|
    requires r.id == st.transactions[t][i].id && RequestOk(cfg, r)
    requires BranchFor(cfg, st.lines, st.pred, r) != Reject
    ensures var st' := MemoryCommandsIssued(cfg,
                         st.(transactions := st.transactions[t := Removed(st.transactions[t], i)]), r);
      Waiting(cfg, st', x) == Waiting(cfg, st, x)
  {
    var queue := st.transactions[t];
    var b := BranchFor(cfg, st.lines, st.pred, r);
    RemovedCount(queue, i, x);
    TransCountUpdate(st.transactions, t, Removed(queue, i), x);
    QueueInRange(cfg, BankOf(r.addr));
    CommandsStayPut(cfg, st.pred, r, b);
    PushedAllCount(st.lines, QueueId(cfg, BankOf(r.addr)), CommandsFor(cfg, st.pred, r, b), QueueCount(cfg), x);
    CommandsCarryRequest(cfg, st.pred, r, b, x);
  }

  // Selecting removes the eligible request and nothing else; what waits stays the same.
  lemma ScheduledConserves(cfg: Config, st: State, t: nat, i: nat, sel: Selector, force: bool, now: nat, x: nat)
    requires GoodConfig(cfg) && TransactionsOk(cfg, st)
    ensures Waiting(cfg, ScheduledAt(cfg, st, t, i, sel, force, now), x) == Waiting(cfg, st, x)
    ensures ScheduledAt(cfg, st, t, i, sel, force, now).transactions ==
            if t < |st.transactions| && i < |st.transactions[t]| && Eligible(cfg, st, sel, st.transactions[t][i], now)
            then st.transactions[t := Removed(st.transactions[t], i)]
            else st.transactions
  {
    if t < |st.transactions| {
      var queue := st.transactions[t];
      if i < |queue| && Eligible(cfg, st, sel, queue[i], now) {
        var rest := Removed(queue, i);
        var r := queue[i].(last := queue[i].last || IsLastRequest(cfg, rest, queue[i]),
                           forced := queue[i].forced || force);
        assert RequestOk(cfg, queue[i]);
        SelectedIsAccepted(cfg, st, sel, queue[i], now, st.transactions[t := rest], r.last, r.forced);
        SelectedConserves(cfg, st, t, i, r, x);
      }
    }
  }

  // ----- Refreshing, issuing, cleaning up -----

  predicate GroupInRange(cfg: Config, g: Group)
    requires cfg.banksPerRefresh >= 1
  {
    g.rank < cfg.ranks && g.index < cfg.banks / cfg.banksPerRefresh
  }

  lemma GroupBankInRange(cfg: Config, g: Group, i: nat)
    requires GoodConfig(cfg) && GroupInRange(cfg, g) && i < cfg.banksPerRefresh
    ensures g.index * cfg.banksPerRefresh + i < cfg.banks
  {
    var d := cfg.banksPerRefresh;
    assert cfg.banks == (cfg.banks / d) * d;
    MulStep(g.index, cfg.banks / d, d);
    assert (g.index + 1) * d == g.index * d + d;
  }

  lemma {:induction false} ClosedForRefreshCount(cfg: Config, l: Lines, p: Prediction, g: Group, n: nat, x: nat)
    requires GoodConfig(cfg) && GroupInRange(cfg, g) && n <= cfg.banksPerRefresh
    ensures LineCount(ClosedForRefresh(cfg, l, p, g, n).0, QueueCount(cfg), x) == LineCount(l, QueueCount(cfg), x)
  {
    if n > 0 {
      ClosedForRefreshCount(cfg, l, p, g, n - 1, x);
      var b := BankId(g.rank, g.index * cfg.banksPerRefresh + (n - 1));
      GroupBankInRange(cfg, g, n - 1);
      QueueInRange(cfg, b);
      PushedCount(ClosedForRefresh(cfg, l, p, g, n - 1).0, QueueId(cfg, b), PrechargeAllCmd(b), QueueCount(cfg), x);
    }
  }

  lemma RefreshConserves(cfg: Config, st: State, g: Group, now: nat, x: nat)
    requires GoodConfig(cfg) && GroupInRange(cfg, g) && Delayed(st.refresh, g) >= 1
    ensures Waiting(cfg, RefreshHandled(cfg, st, g, now), x) == Waiting(cfg, st, x)
  {
    var head := GroupHead(cfg, g);
    ClosedForRefreshCount(cfg, st.lines, st.pred, g, cfg.banksPerRefresh, x);
    GroupBankInRange(cfg, g, 0);
    QueueInRange(cfg, head);
    PushedCount(ClosedForRefresh(cfg, st.lines, st.pred, g, cfg.banksPerRefresh).0, QueueId(cfg, head),
                RefreshCmd(head), QueueCount(cfg), x);
  }

  // An issued command takes its request along, if it has one.
  lemma SentConserves(cfg: Config, st: State, q: nat, now: nat, x: nat)
    requires GoodConfig(cfg) && q < QueueCount(cfg)
    requires QueueAt(st.lines, q) != [] && !QueueAt(st.lines, q)[0].issued
    ensures Waiting(cfg, st, x) == Waiting(cfg, Sent(cfg, st, q, now), x) + Carries(QueueAt(st.lines, q)[0], x)
  {
    var l' := HeadIssued(st.lines, q);
    var c := QueueAt(st.lines, q)[0];
    var rest := QueueAt(st.lines, q)[1..];
    assert QueueAt(l', q) == [c.(issued := true)] + rest;
    assert Unissued(QueueAt(l', q)) == Unissued(rest);
    assert Unissued(QueueAt(st.lines, q)) == [c] + Unissued(rest);
    CmdCountAppend([c], Unissued(rest), x);
    LineCountChange(st.lines, l', q, 0 - Carries(c, x) as int, QueueCount(cfg), x);
  }

  lemma {:induction false} CleanedCount(l: Lines, n: nat, x: nat)
    ensures LineCount(Cleaned(l), n, x) == LineCount(l, n, x)
  {
    if n > 0 {
      CleanedCount(l, n - 1, x);
      UnissuedTwice(QueueAt(l, n - 1));
    }
  }
}
