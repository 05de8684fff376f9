/**
  Refresh accounting: where every refresh pulse of a bank group is, which banks wait for one, and the
  round-robin scan that picks the next group.
*/
module RefreshAccounting {
  import opened Arithmetic
  import opened Device
  import opened Controller
  import opened Coherence
  import opened Conservation

  // ----- The round-robin scan -----

  function Groups(cfg: Config): nat
    requires cfg.banksPerRefresh >= 1
  {
    cfg.banks / cfg.banksPerRefresh
  }

  lemma GroupsPositive(cfg: Config)
    requires GoodConfig(cfg)
    ensures Groups(cfg) >= 1 && cfg.banks == Groups(cfg) * cfg.banksPerRefresh
  {
  }

  // The group the scan looks at in step `bank` of rank step `rank`.
  function ScanAt(cfg: Config, r: Refresh, rank: nat, bank: nat): Group
    requires GoodConfig(cfg)
  {
    Group((r.nextRank + rank) % cfg.ranks,
          ((r.nextBank + bank * cfg.banksPerRefresh) % cfg.banks) / cfg.banksPerRefresh)
  }

  // The first group, from the given position on, that needs a refresh.
  function Chosen(cfg: Config, r: Refresh, rank: nat, bank: nat): (g: Option<Group>)
    requires GoodConfig(cfg)
    ensures g.Some? ==> NeedRefresh(cfg, r, g.value) && Delayed(r, g.value) >= 1
    decreases cfg.ranks - rank, Groups(cfg) - bank
  {
    if rank >= cfg.ranks then None
    else if bank >= Groups(cfg) then Chosen(cfg, r, rank + 1, 0)
    else if NeedRefresh(cfg, r, ScanAt(cfg, r, rank, bank)) then Some(ScanAt(cfg, r, rank, bank))
    else Chosen(cfg, r, rank, bank + 1)
  }

  predicate PointersOk(cfg: Config, rank: nat, bank: nat)
    requires cfg.banksPerRefresh >= 1
  {
    rank < cfg.ranks && bank < cfg.banks && bank % cfg.banksPerRefresh == 0
  }

  // The round-robin pointer is at the first bank of a group.
  predicate RoundRobinOk(cfg: Config, r: Refresh)
    requires cfg.banksPerRefresh >= 1
  {
    PointersOk(cfg, r.nextRank, r.nextBank)
  }

  lemma ScaledMod(a: nat, n: nat, d: nat)
    requires n >= 1 && d >= 1
    ensures n * d >= 1
    ensures (a * d) % (n * d) == (a % n) * d
  {
    var q := a / n;
    var m := a % n;
    assert a == q * n + m;
    assert a * d == q * (n * d) + m * d;
    MulStep(m, n, d);
    assert (m + 1) * d == m * d + d;
    ModIs(a * d, n * d, q, m * d);
  }

  // The scan looks at group head h + bank, counted around the groups.
  lemma ScanIndex(cfg: Config, r: Refresh, rank: nat, bank: nat)
    requires GoodConfig(cfg) && RoundRobinOk(cfg, r)
    ensures Groups(cfg) >= 1
    ensures ScanAt(cfg, r, rank, bank).index == (r.nextBank / cfg.banksPerRefresh + bank) % Groups(cfg)
    ensures GroupInRange(cfg, ScanAt(cfg, r, rank, bank))
  {
    GroupsPositive(cfg);
    var d := cfg.banksPerRefresh;
    var h := r.nextBank / d;
    assert r.nextBank == h * d;
    assert r.nextBank + bank * d == (h + bank) * d;
    ScaledMod(h + bank, Groups(cfg), d);
    var i := (h + bank) % Groups(cfg);
    assert (i + 1) * d == i * d + d;
    DivideExact(i * d, d, i);
  }

  // Going around a circle of n places from h reaches i.
  lemma Reaches(h: nat, i: nat, n: nat) returns (k: nat)
    requires h < n && i < n
    ensures k < n && (h + k) % n == i
  {
    if i >= h {
      k := i - h;
    } else {
      k := i + n - h;
      ModIs(h + k, n, 1, i);
    }
  }

  lemma {:induction false} ChosenNone(cfg: Config, r: Refresh, rank: nat, bank: nat, k: nat, m: nat)
    requires GoodConfig(cfg) && Chosen(cfg, r, rank, bank).None?
    requires k < cfg.ranks && m < Groups(cfg) && (rank < k || (rank == k && bank <= m))
    ensures !NeedRefresh(cfg, r, ScanAt(cfg, r, k, m))
    decreases cfg.ranks - rank, Groups(cfg) - bank
  {
    if bank >= Groups(cfg) {
      ChosenNone(cfg, r, rank + 1, 0, k, m);
    } else if rank < k || bank < m {
      ChosenNone(cfg, r, rank, bank + 1, k, m);
    }
  }

  lemma {:induction false} ChosenInRange(cfg: Config, r: Refresh, rank: nat, bank: nat)
    requires GoodConfig(cfg) && RoundRobinOk(cfg, r)
    ensures Chosen(cfg, r, rank, bank).Some? ==> GroupInRange(cfg, Chosen(cfg, r, rank, bank).value)
    decreases cfg.ranks - rank, Groups(cfg) - bank
  {
    if rank < cfg.ranks {
      if bank >= Groups(cfg) {
        ChosenInRange(cfg, r, rank + 1, 0);
      } else {
        ScanIndex(cfg, r, rank, bank);
        ChosenInRange(cfg, r, rank, bank + 1);
      }
    }
  }

  // The scan misses no group: it picks one exactly when some group needs a refresh.
  lemma ScanCovers(cfg: Config, r: Refresh)
    requires GoodConfig(cfg) && RoundRobinOk(cfg, r)
    ensures Chosen(cfg, r, 0, 0).Some? <==> exists g :: GroupInRange(cfg, g) && NeedRefresh(cfg, r, g)
    ensures Chosen(cfg, r, 0, 0).Some? ==> GroupInRange(cfg, Chosen(cfg, r, 0, 0).value)
  {
    ChosenInRange(cfg, r, 0, 0);
    if Chosen(cfg, r, 0, 0).None? {
      forall g | GroupInRange(cfg, g) ensures !NeedRefresh(cfg, r, g) {
        var k := Reaches(r.nextRank, g.rank, cfg.ranks);
        GroupsPositive(cfg);
        var h := r.nextBank / cfg.banksPerRefresh;
        assert r.nextBank == h * cfg.banksPerRefresh;
        BelowQuotient(h, Groups(cfg), cfg.banksPerRefresh);
        var m := Reaches(h, g.index, Groups(cfg));
        ScanIndex(cfg, r, k, m);
        assert ScanAt(cfg, r, k, m) == g;
        ChosenNone(cfg, r, 0, 0, k, m);
      }
    }
  }

  lemma BelowQuotient(h: nat, n: nat, d: nat)
    requires h * d < n * d
    ensures h < n
  {
    MulMonotone(n, h, d);
  }

  // ----- Where the pulses are -----

  predicate IsRefreshOf(c: Cmd, head: BankId) { c.op == REFRESH && BankOf(c.addr) == head }

  function CountRefresh(cmds: seq<Cmd>, head: BankId): nat {
    if cmds == [] then 0 else One(IsRefreshOf(cmds[0], head)) + CountRefresh(cmds[1..], head)
  }

  // REFRESH commands of the group that wait to be issued.
  function Outstanding(cfg: Config, l: Lines, g: Group): nat {
    CountRefresh(Unissued(QueueAt(l, QueueId(cfg, GroupHead(cfg, g)))), GroupHead(cfg, g))
  }

  lemma {:induction false} CountRefreshAppend(a: seq<Cmd>, b: seq<Cmd>, head: BankId)
    ensures CountRefresh(a + b, head) == CountRefresh(a, head) + CountRefresh(b, head)
    decreases |a|
  {
    if a == [] {
      assert a + b == b;
    } else {
      assert (a + b)[1..] == a[1..] + b;
      CountRefreshAppend(a[1..], b, head);
    }
  }

  lemma PushedOutstanding(cfg: Config, l: Lines, c: Cmd, g: Group)
    requires !c.issued
    ensures Outstanding(cfg, Pushed(l, QueueId(cfg, BankOf(c.addr)), c), g)
         == Outstanding(cfg, l, g) + One(IsRefreshOf(c, GroupHead(cfg, g)))
  {
    var q := QueueId(cfg, BankOf(c.addr));
    var c' := c.(tag := l.nextTag);
    if q == QueueId(cfg, GroupHead(cfg, g)) {
      assert Unissued([c']) == [c'];
      UnissuedAppend(QueueAt(l, q), [c']);
      CountRefreshAppend(Unissued(QueueAt(l, q)), [c'], GroupHead(cfg, g));
      assert CountRefresh([c'], GroupHead(cfg, g)) == One(IsRefreshOf(c, GroupHead(cfg, g)));
    }
  }

  lemma {:induction false} PushedAllOutstanding(cfg: Config, l: Lines, q: nat, cmds: seq<Cmd>, g: Group)
    requires forall c :: c in cmds ==> StaysPut(c) && QueueId(cfg, BankOf(c.addr)) == q
    ensures Outstanding(cfg, PushedAll(l, q, cmds), g) == Outstanding(cfg, l, g)
    decreases |cmds|
  {
    if cmds != [] {
      assert cmds[0] in cmds && forall c :: c in cmds[1..] ==> c in cmds;
      PushedOutstanding(cfg, l, cmds[0], g);
      PushedAllOutstanding(cfg, Pushed(l, q, cmds[0]), q, cmds[1..], g);
    }
  }

  lemma ScheduledOutstanding(cfg: Config, st: State, t: nat, i: nat, sel: Selector, force: bool, now: nat, g: Group)
    requires GoodConfig(cfg) && TransactionsOk(cfg, st)
    ensures Outstanding(cfg, ScheduledAt(cfg, st, t, i, sel, force, now).lines, g) == Outstanding(cfg, st.lines, g)
  {
    if t < |st.transactions| {
      var queue := st.transactions[t];
      if i < |queue| && Eligible(cfg, st, sel, queue[i], now) {
        var rest := Removed(queue, i);
        var r := queue[i].(last := queue[i].last || IsLastRequest(cfg, rest, queue[i]),
                           forced := queue[i].forced || force);
        assert RequestOk(cfg, queue[i]);
        var b := BranchFor(cfg, st.lines, st.pred, r);
        CommandsStayPut(cfg, st.pred, r, b);
        PushedAllOutstanding(cfg, st.lines, QueueId(cfg, BankOf(r.addr)), CommandsFor(cfg, st.pred, r, b), g);
      }
    }
  }

  lemma {:induction false} ClosedForRefreshOutstanding(cfg: Config, l: Lines, p: Prediction, g0: Group, n: nat,
      g: Group)
    ensures Outstanding(cfg, ClosedForRefresh(cfg, l, p, g0, n).0, g) == Outstanding(cfg, l, g)
  {
    if n > 0 {
      ClosedForRefreshOutstanding(cfg, l, p, g0, n - 1, g);
      var b := BankId(g0.rank, g0.index * cfg.banksPerRefresh + (n - 1));
      assert BankOf(PrechargeAllCmd(b).addr) == b;
      PushedOutstanding(cfg, ClosedForRefresh(cfg, l, p, g0, n - 1).0, PrechargeAllCmd(b), g);
    }
  }

  lemma GroupOfHead(cfg: Config, g: Group)
    requires cfg.banksPerRefresh >= 1
    ensures GroupOf(cfg, GroupHead(cfg, g)) == g
  {
    DivideExact(GroupHead(cfg, g).bank, cfg.banksPerRefresh, g.index);
  }

  lemma HeadsDiffer(cfg: Config, g: Group, g': Group)
    requires cfg.banksPerRefresh >= 1
    ensures GroupHead(cfg, g) == GroupHead(cfg, g') <==> g == g'
  {
    var d := cfg.banksPerRefresh;
    MulStep(g.index, g'.index, d);
    MulStep(g'.index, g.index, d);
    assert (g.index + 1) * d == g.index * d + d && (g'.index + 1) * d == g'.index * d + d;
  }

  lemma RefreshOutstanding(cfg: Config, st: State, g0: Group, now: nat, g: Group)
    requires GoodConfig(cfg) && Delayed(st.refresh, g0) >= 1
    ensures Outstanding(cfg, RefreshHandled(cfg, st, g0, now).lines, g) == Outstanding(cfg, st.lines, g) + One(g == g0)
    ensures Delayed(st.refresh, g) == Delayed(RefreshHandled(cfg, st, g0, now).refresh, g) + One(g == g0)
  {
    var head := GroupHead(cfg, g0);
    ClosedForRefreshOutstanding(cfg, st.lines, st.pred, g0, cfg.banksPerRefresh, g);
    assert BankOf(RefreshCmd(head).addr) == head;
    PushedOutstanding(cfg, ClosedForRefresh(cfg, st.lines, st.pred, g0, cfg.banksPerRefresh).0, RefreshCmd(head), g);
    HeadsDiffer(cfg, g, g0);
  }

  lemma SentOutstanding(cfg: Config, st: State, q: nat, now: nat, g: Group)
    requires cfg.banksPerRefresh >= 1 && WellPlaced(cfg, st.lines)
    requires QueueAt(st.lines, q) != [] && !QueueAt(st.lines, q)[0].issued
    ensures Outstanding(cfg, st.lines, g) == Outstanding(cfg, Sent(cfg, st, q, now).lines, g)
                                            + One(IsRefreshOf(QueueAt(st.lines, q)[0], GroupHead(cfg, g)))
  {
    var l' := HeadIssued(st.lines, q);
    var c := QueueAt(st.lines, q)[0];
    var rest := QueueAt(st.lines, q)[1..];
    assert QueueId(cfg, BankOf(c.addr)) == q;
    if q == QueueId(cfg, GroupHead(cfg, g)) {
      assert QueueAt(l', q) == [c.(issued := true)] + rest;
      assert Unissued(QueueAt(l', q)) == Unissued(rest);
      assert Unissued(QueueAt(st.lines, q)) == [c] + Unissued(rest);
      CountRefreshAppend([c], Unissued(rest), GroupHead(cfg, g));
    }
  }

  lemma CleanedOutstanding(cfg: Config, l: Lines, g: Group)
    ensures Outstanding(cfg, Cleaned(l), g) == Outstanding(cfg, l, g)
  {
    var q := QueueId(cfg, GroupHead(cfg, g));
    UnissuedTwice(QueueAt(l, q));
    assert QueueAt(Cleaned(l), q) == Unissued(QueueAt(l, q));
  }

  // ----- The flags -----

  // A bank waits for a refresh iff its group's counter has reached the threshold.
  ghost predicate NeedFlagsOk(cfg: Config, r: Refresh)
    requires cfg.banksPerRefresh >= 1
  {
    forall b: BankId :: b in r.bankNeedRefresh <==> NeedRefresh(cfg, r, GroupOf(cfg, b))
  }

  lemma PulsedFlags(cfg: Config, r: Refresh, g: Group)
    requires GoodConfig(cfg) && RoundRobinOk(cfg, r) && NeedFlagsOk(cfg, r)
    ensures NeedFlagsOk(cfg, PulsedRefresh(cfg, r, g)) && RoundRobinOk(cfg, PulsedRefresh(cfg, r, g))
  {
    forall b: BankId {
      InGroup(cfg, g, b);
    }
  }

  lemma SentFlags(cfg: Config, r: Refresh, g: Group)
    requires GoodConfig(cfg) && RoundRobinOk(cfg, r) && NeedFlagsOk(cfg, r) && NeedRefresh(cfg, r, g)
    ensures NeedFlagsOk(cfg, SentRefresh(cfg, r, g)) && RoundRobinOk(cfg, SentRefresh(cfg, r, g))
  {
    SentRoundRobin(cfg, r, g);
    hide RoundRobinOk, GroupBanks;
    var r' := SentRefresh(cfg, r, g);
    forall b: BankId ensures b in r'.bankNeedRefresh <==> NeedRefresh(cfg, r', GroupOf(cfg, b)) {
      InGroup(cfg, g, b);
      hide GroupOf;
    }
  }

  lemma SentRoundRobin(cfg: Config, r: Refresh, g: Group)
    requires GoodConfig(cfg) && RoundRobinOk(cfg, r) && NeedRefresh(cfg, r, g)
    ensures RoundRobinOk(cfg, SentRefresh(cfg, r, g))
  {
    hide NeedRefresh, GroupBanks;
    NextHead(r.nextBank, cfg.banksPerRefresh);
  }

  lemma NextHead(x: nat, d: nat)
    requires d >= 1 && x % d == 0
    ensures (x + d) % d == 0
  {
    assert x == (x / d) * d;
    assert x + d == (x / d + 1) * d + 0;
    ModIs(x + d, d, x / d + 1, 0);
  }
}
