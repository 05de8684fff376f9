/**
  The memory controller's methods, each proved to compute its step of the controller model.  A refresh can
  wake the command queues, which look for refreshes again: the recursion ends because the delayed-refresh
  counters go down with every refresh that is queued.
*/
module MemoryControllers {
  import opened Arithmetic
  import opened Device
  import opened Controller
  import opened Coherence
  import opened Conservation
  import opened RefreshAccounting
  import EventQueues

  // ----- How many refreshes are delayed -----

  function DelayedInRank(r: Refresh, rank: nat, n: nat): nat {
    if n == 0 then 0 else DelayedInRank(r, rank, n - 1) + Delayed(r, Group(rank, n - 1))
  }

  function DelayedInRanks(r: Refresh, ranks: nat, groups: nat): nat {
    if ranks == 0 then 0 else DelayedInRanks(r, ranks - 1, groups) + DelayedInRank(r, ranks - 1, groups)
  }

  function TotalDelayed(cfg: Config, r: Refresh): nat
    requires cfg.banksPerRefresh >= 1
  {
    DelayedInRanks(r, cfg.ranks, Groups(cfg))
  }

  // Only group g changes, by one.
  predicate OneLess(r: Refresh, r': Refresh, g: Group) {
    Delayed(r, g) >= 1 && r'.delayed == r.delayed[g := Delayed(r, g) - 1]
  }

  lemma {:induction false} OneLessInRank(r: Refresh, r': Refresh, g: Group, rank: nat, n: nat)
    requires OneLess(r, r', g)
    ensures DelayedInRank(r', rank, n) + One(g.rank == rank && g.index < n) == DelayedInRank(r, rank, n)
  {
    if n > 0 {
      OneLessInRank(r, r', g, rank, n - 1);
    }
  }

  lemma {:induction false} OneLessInRanks(r: Refresh, r': Refresh, g: Group, ranks: nat, groups: nat)
    requires OneLess(r, r', g)
    ensures DelayedInRanks(r', ranks, groups) + One(g.rank < ranks && g.index < groups)
         == DelayedInRanks(r, ranks, groups)
  {
    if ranks > 0 {
      OneLessInRanks(r, r', g, ranks - 1, groups);
      OneLessInRank(r, r', g, ranks - 1, groups);
    }
  }

  // ----- Refreshes handled one after the other -----

  function HandledTimes(cfg: Config, st: State, k: nat, now: nat): State
    requires GoodConfig(cfg)
    decreases k
  {
    var g := Chosen(cfg, st.refresh, 0, 0);
    if k == 0 || g.None? then st else HandledTimes(cfg, RefreshHandled(cfg, st, g.value, now), k - 1, now)
  }

  lemma {:induction false} HandledTimesAdd(cfg: Config, st: State, k: nat, m: nat, now: nat)
    requires GoodConfig(cfg)
    ensures HandledTimes(cfg, HandledTimes(cfg, st, k, now), m, now) == HandledTimes(cfg, st, k + m, now)
    decreases k
  {
    var g := Chosen(cfg, st.refresh, 0, 0);
    if k > 0 && g.Some? {
      HandledTimesAdd(cfg, RefreshHandled(cfg, st, g.value, now), k - 1, m, now);
    }
  }

  // A handled refresh lowers the total by exactly one.
  lemma HandledLowersTotal(cfg: Config, st: State, now: nat)
    requires GoodConfig(cfg) && RoundRobinOk(cfg, st.refresh) && Chosen(cfg, st.refresh, 0, 0).Some?
    ensures var st' := RefreshHandled(cfg, st, Chosen(cfg, st.refresh, 0, 0).value, now);
      TotalDelayed(cfg, st'.refresh) + 1 == TotalDelayed(cfg, st.refresh)
  {
    var g := Chosen(cfg, st.refresh, 0, 0).value;
    ScanCovers(cfg, st.refresh);
    OneLessInRanks(st.refresh, SentRefresh(cfg, st.refresh, g), g, cfg.ranks, Groups(cfg));
  }

  // From `before` to `after`, as many refreshes have been handled as the total has gone down.
  ghost predicate Progress(cfg: Config, before: State, after: State, now: nat)
    requires GoodConfig(cfg)
  {
    && TotalDelayed(cfg, after.refresh) <= TotalDelayed(cfg, before.refresh)
    && after == HandledTimes(cfg, before, TotalDelayed(cfg, before.refresh) - TotalDelayed(cfg, after.refresh), now)
  }

  lemma ProgressTwice(cfg: Config, a: State, b: State, c: State, now: nat)
    requires GoodConfig(cfg) && Progress(cfg, a, b, now) && Progress(cfg, b, c, now)
    ensures Progress(cfg, a, c, now)
  {
    var k := TotalDelayed(cfg, a.refresh) - TotalDelayed(cfg, b.refresh);
    var m := TotalDelayed(cfg, b.refresh) - TotalDelayed(cfg, c.refresh);
    HandledTimesAdd(cfg, a, k, m, now);
  }

  lemma NoProgress(cfg: Config, st: State, now: nat)
    requires GoodConfig(cfg)
    ensures Progress(cfg, st, st, now)
  {
  }

  lemma OneProgress(cfg: Config, st: State, now: nat)
    requires GoodConfig(cfg) && RoundRobinOk(cfg, st.refresh) && Chosen(cfg, st.refresh, 0, 0).Some?
    ensures var st' := RefreshHandled(cfg, st, Chosen(cfg, st.refresh, 0, 0).value, now);
      Progress(cfg, st, st', now) && TotalDelayed(cfg, st'.refresh) < TotalDelayed(cfg, st.refresh)
  {
    HandledLowersTotal(cfg, st, now);
    var st' := RefreshHandled(cfg, st, Chosen(cfg, st.refresh, 0, 0).value, now);
    assert HandledTimes(cfg, st', 0, now) == st';
  }

  // ----- Which queue is served next -----

  // The first queue, from curQueue on and around, whose head the device takes.
  function NextToSend(cfg: Config, st: State, takes: Cmd -> bool, i: nat): (q: Option<nat>)
    ensures q.Some? ==> QueueAt(st.lines, q.value) != [] && takes(QueueAt(st.lines, q.value)[0])
    decreases QueueCount(cfg) - i
  {
    if i >= QueueCount(cfg) then None
    else
      var q := (st.curQueue + i) % QueueCount(cfg);
      if QueueAt(st.lines, q) != [] && takes(QueueAt(st.lines, q)[0]) then Some(q)
      else NextToSend(cfg, st, takes, i + 1)
  }

  lemma {:induction false} NextToSendNone(cfg: Config, st: State, takes: Cmd -> bool, i: nat, k: nat)
    requires NextToSend(cfg, st, takes, i).None? && i <= k < QueueCount(cfg)
    ensures var q := (st.curQueue + k) % QueueCount(cfg);
      QueueAt(st.lines, q) != [] ==> !takes(QueueAt(st.lines, q)[0])
    decreases k - i
  {
    if i < k {
      NextToSendNone(cfg, st, takes, i + 1, k);
    }
  }

  // No queue is passed over: nothing is sent only if the device takes none of the heads.
  lemma NoQueueMissed(cfg: Config, st: State, takes: Cmd -> bool, q: nat)
    requires q < QueueCount(cfg) && NextToSend(cfg, st, takes, 0).None?
    ensures QueueAt(st.lines, q) != [] ==> !takes(QueueAt(st.lines, q)[0])
  {
    var n := QueueCount(cfg);
    var h := st.curQueue % n;
    var k := Reaches(h, q, n);
    SumMod(st.curQueue, k, n);
    NextToSendNone(cfg, st, takes, 0, k);
  }

  lemma SumMod(a: nat, k: nat, n: nat)
    requires n >= 1
    ensures (a + k) % n == (a % n + k) % n
  {
    var b := a % n + k;
    Euclid(a, n);
    Euclid(b, n);
    SumModFrom(a, k, n, a / n, a % n, b / n, b % n);
  }

  lemma SumModFrom(a: nat, k: nat, n: nat, q: nat, m: nat, q': nat, m': nat)
    requires n >= 1 && a == q * n + m && m + k == q' * n + m' && m' < n
    ensures (a + k) % n == m'
  {
    AddMultiples(q, q', n);
    ModIs(a + k, n, q + q', m');
  }

  // What CycleCommandQueues does.
  function Cycled(cfg: Config, st: State, takes: Cmd -> bool, now: nat): State
    requires GoodConfig(cfg)
  {
    var q := NextToSend(cfg, st, takes, 0);
    if st.handledRefresh == Some(now) || st.lastIssueCycle == now || q.None? then st
    else Sent(cfg, st, q.value, now)
  }

  lemma {:induction false} UnissuedSplit(cmds: seq<Cmd>, i: nat)
    requires i < |cmds|
    ensures Unissued(cmds[..i + 1]) == Unissued(cmds[..i]) + (if cmds[i].issued then [] else [cmds[i]])
  {
    assert cmds[..i + 1] == cmds[..i] + [cmds[i]];
    UnissuedAppend(cmds[..i], [cmds[i]]);
    assert [cmds[i]][1..] == [];
  }

  // ----- Waking up -----

  // The controller's own events in the event queue: callbacks for the command queues, for cleaning up and for
  // refresh pulses, and cycle events for the transaction queues.
  datatype Wake =
    | CommandWake(at: nat)
    | CleanupWake(at: nat)
    | TransactionWake(at: nat)
    | RefreshPulse(at: nat, rank: nat, bank: nat)

  // The first cycle after `now` in which the device may take the command.
  function EarliestIssue(issueAt: Cmd -> nat, c: Cmd, now: nat): nat { Max(now + 1, issueAt(c)) }

  predicate Exists(cfg: Config, b: BankId) { b.rank < cfg.ranks && b.bank < cfg.banks }

  // A wake-up at `wake` looks at the head of the bank's queue, if any, as soon as the device may take it.
  predicate SeenBy(cfg: Config, l: Lines, issueAt: Cmd -> nat, now: nat, wake: nat, b: BankId) {
    var queue := QueueAt(l, QueueId(cfg, b));
    queue != [] ==> wake <= EarliestIssue(issueAt, queue[0], now)
  }

  // So does one of the scheduled wake-ups, or one at `wake`; a head that may be taken only at the end of time
  // needs none.
  ghost predicate InTime(cfg: Config, l: Lines, issueAt: Cmd -> nat, now: nat, wakes: multiset<Wake>, wake: nat,
      b: BankId)
  {
    || SeenBy(cfg, l, issueAt, now, EventQueues.MAX_CYCLE, b) || SeenBy(cfg, l, issueAt, now, wake, b)
    || exists t :: CommandWake(t) in wakes && now < t && SeenBy(cfg, l, issueAt, now, t, b)
  }

  ghost predicate AllInTime(cfg: Config, l: Lines, issueAt: Cmd -> nat, now: nat, wakes: multiset<Wake>, wake: nat) {
    forall b: BankId :: Exists(cfg, b) ==> InTime(cfg, l, issueAt, now, wakes, wake, b)
  }

  // No queue is forgotten: each is looked at in time by a wake-up that is scheduled.
  ghost predicate NoneForgotten(cfg: Config, l: Lines, issueAt: Cmd -> nat, now: nat, wakes: multiset<Wake>) {
    AllInTime(cfg, l, issueAt, now, wakes, EventQueues.MAX_CYCLE)
  }

  // Command wake-ups in the future have been added, and nothing else.
  ghost predicate MoreWakes(wakes: multiset<Wake>, wakes': multiset<Wake>, now: nat) {
    wakes <= wakes' && forall w :: wakes[w] < wakes'[w] ==> w.CommandWake? && now < w.at
  }

  lemma MoreWakesTwice(a: multiset<Wake>, b: multiset<Wake>, c: multiset<Wake>, now: nat)
    requires MoreWakes(a, b, now) && MoreWakes(b, c, now)
    ensures MoreWakes(a, c, now)
  {
  }

  // A wake-up at `wake` does once it is scheduled, and so do more wake-ups.
  lemma OnceScheduled(cfg: Config, l: Lines, issueAt: Cmd -> nat, now: nat, wakes: multiset<Wake>, wake: nat,
      wakes': multiset<Wake>)
    requires AllInTime(cfg, l, issueAt, now, wakes, wake) && now < wake && wakes <= wakes'
    requires wake >= EventQueues.MAX_CYCLE || CommandWake(wake) in wakes'
    ensures NoneForgotten(cfg, l, issueAt, now, wakes')
  {
    forall b: BankId | Exists(cfg, b) ensures InTime(cfg, l, issueAt, now, wakes', EventQueues.MAX_CYCLE, b) {
      assert InTime(cfg, l, issueAt, now, wakes, wake, b);
      hide QueueId, EarliestIssue;
    }
  }

  lemma StillInTime(cfg: Config, l: Lines, issueAt: Cmd -> nat, now: nat, wakes: multiset<Wake>,
      wakes': multiset<Wake>)
    requires NoneForgotten(cfg, l, issueAt, now, wakes) && wakes <= wakes'
    ensures NoneForgotten(cfg, l, issueAt, now, wakes')
  {
    forall b: BankId | Exists(cfg, b) ensures InTime(cfg, l, issueAt, now, wakes', EventQueues.MAX_CYCLE, b) {
      assert InTime(cfg, l, issueAt, now, wakes, EventQueues.MAX_CYCLE, b);
      hide QueueId, EarliestIssue;
    }
  }

  // Scheduled unless it is already.
  function Once(wakes: multiset<Wake>, w: Wake): multiset<Wake> {
    if w in wakes then wakes else wakes + multiset{w}
  }

  // The least cycle at which the scan can ask to be woken.
  ghost predicate FromSomewhere(cfg: Config, l: Lines, issueAt: Cmd -> nat, now: nat, wake: nat) {
    || wake == EventQueues.MAX_CYCLE || wake == now + 1
    || exists b: BankId :: Exists(cfg, b) && QueueAt(l, QueueId(cfg, b)) != []
                           && wake == issueAt(QueueAt(l, QueueId(cfg, b))[0])
  }

  // ----- The scan for the next wake-up -----

  predicate Earlier(b: BankId, rank: nat, bank: nat) { b.rank < rank || (b.rank == rank && b.bank < bank) }

  // What the scan has established when it comes to a bank, with `wake` the least cycle so far: refreshes may
  // have been handled on the way, which scheduled wake-ups of their own.
  ghost predicate Scanned(cfg: Config, issueAt: Cmd -> nat, now: nat, before: State, wakes: multiset<Wake>, st: State,
      scheduled: multiset<Wake>, rank: nat, bank: nat, wake: nat)
    requires GoodConfig(cfg)
  {
    && Progress(cfg, before, st, now) && MoreWakes(wakes, scheduled, now)
    && (forall b :: Exists(cfg, b) && Earlier(b, rank, bank) ==>
          InTime(cfg, st.lines, issueAt, now, scheduled, wake, b))
    && (TotalDelayed(cfg, st.refresh) == TotalDelayed(cfg, before.refresh) ==>
          && scheduled == wakes && FromSomewhere(cfg, st.lines, issueAt, now, wake)
          && forall b :: Exists(cfg, b) && Earlier(b, rank, bank) ==> SeenBy(cfg, st.lines, issueAt, now, wake, b))
  }

  lemma NothingScanned(cfg: Config, issueAt: Cmd -> nat, now: nat, st: State, wakes: multiset<Wake>, wake: nat)
    requires GoodConfig(cfg) && wake == EventQueues.MAX_CYCLE
    ensures Scanned(cfg, issueAt, now, st, wakes, st, wakes, 0, 0, wake)
  {
    hide TotalDelayed, InTime;
    NoProgress(cfg, st, now);
  }

  lemma ScannedTotal(cfg: Config, issueAt: Cmd -> nat, now: nat, before: State, wakes: multiset<Wake>, st: State,
      scheduled: multiset<Wake>, rank: nat, bank: nat, wake: nat)
    requires GoodConfig(cfg) && Scanned(cfg, issueAt, now, before, wakes, st, scheduled, rank, bank, wake)
    ensures TotalDelayed(cfg, st.refresh) <= TotalDelayed(cfg, before.refresh)
  {
    hide TotalDelayed, InTime;
  }

  // Once a refresh is handled on the way, its own wake-up has scheduled what all queues need.
  lemma RefreshScanned(cfg: Config, issueAt: Cmd -> nat, now: nat, before: State, wakes: multiset<Wake>, mid: State,
      midWakes: multiset<Wake>, st: State, scheduled: multiset<Wake>, rank: nat, bank: nat, wake: nat)
    requires GoodConfig(cfg) && Scanned(cfg, issueAt, now, before, wakes, mid, midWakes, rank, bank, wake)
    requires Progress(cfg, mid, st, now) && TotalDelayed(cfg, st.refresh) < TotalDelayed(cfg, mid.refresh)
    requires MoreWakes(midWakes, scheduled, now) && NoneForgotten(cfg, st.lines, issueAt, now, scheduled)
    ensures Scanned(cfg, issueAt, now, before, wakes, st, scheduled, rank, bank, wake)
  {
    hide TotalDelayed, SeenBy, FromSomewhere;
    ScannedTotal(cfg, issueAt, now, before, wakes, mid, midWakes, rank, bank, wake);
    ProgressTwice(cfg, before, mid, st, now);
    MoreWakesTwice(wakes, midWakes, scheduled, now);
    hide Progress, MoreWakes;
    forall b | Exists(cfg, b) ensures InTime(cfg, st.lines, issueAt, now, scheduled, wake, b) {
      assert InTime(cfg, st.lines, issueAt, now, scheduled, EventQueues.MAX_CYCLE, b);
    }
  }

  // Waking up in the next cycle is in time for everything.
  lemma AtOnceScanned(cfg: Config, issueAt: Cmd -> nat, now: nat, before: State, wakes: multiset<Wake>, st: State,
      scheduled: multiset<Wake>, rank: nat, bank: nat, wake: nat)
    requires GoodConfig(cfg) && Scanned(cfg, issueAt, now, before, wakes, st, scheduled, rank, bank, wake)
    ensures Scanned(cfg, issueAt, now, before, wakes, st, scheduled, rank, bank, now + 1)
  {
    hide TotalDelayed, Progress, MoreWakes, QueueId;
  }

  // The head of the bank's own queue is taken in.
  lemma BankScanned(cfg: Config, issueAt: Cmd -> nat, now: nat, before: State, wakes: multiset<Wake>, st: State,
      scheduled: multiset<Wake>, rank: nat, bank: nat, wake: nat)
    requires GoodConfig(cfg) && Exists(cfg, BankId(rank, bank))
    requires Scanned(cfg, issueAt, now, before, wakes, st, scheduled, rank, bank, wake)
    ensures var queue := QueueAt(st.lines, QueueId(cfg, BankId(rank, bank)));
      var wake' := if queue != [] && issueAt(queue[0]) < wake then issueAt(queue[0]) else wake;
      Scanned(cfg, issueAt, now, before, wakes, st, scheduled, rank, bank + 1, wake')
  {
    hide TotalDelayed, Progress, MoreWakes, QueueId;
    var here := BankId(rank, bank);
    var queue := QueueAt(st.lines, QueueId(cfg, here));
    var wake' := if queue != [] && issueAt(queue[0]) < wake then issueAt(queue[0]) else wake;
    assert SeenBy(cfg, st.lines, issueAt, now, wake', here);
    forall b | Exists(cfg, b) && Earlier(b, rank, bank + 1)
      ensures InTime(cfg, st.lines, issueAt, now, scheduled, wake', b)
    {
      assert b == here || InTime(cfg, st.lines, issueAt, now, scheduled, wake, b);
    }
    if TotalDelayed(cfg, st.refresh) == TotalDelayed(cfg, before.refresh) {
      forall b | Exists(cfg, b) && Earlier(b, rank, bank + 1) ensures SeenBy(cfg, st.lines, issueAt, now, wake', b) {
        assert b == here || SeenBy(cfg, st.lines, issueAt, now, wake, b);
      }
    }
  }

  lemma RankScanned(cfg: Config, issueAt: Cmd -> nat, now: nat, before: State, wakes: multiset<Wake>, st: State,
      scheduled: multiset<Wake>, rank: nat, wake: nat)
    requires GoodConfig(cfg) && Scanned(cfg, issueAt, now, before, wakes, st, scheduled, rank, cfg.banks, wake)
    ensures Scanned(cfg, issueAt, now, before, wakes, st, scheduled, rank + 1, 0, wake)
  {
    hide TotalDelayed, Progress, MoreWakes, InTime, SeenBy, FromSomewhere;
  }

  // At the end, with the wake-up no earlier than the next cycle.
  lemma AllScanned(cfg: Config, issueAt: Cmd -> nat, now: nat, before: State, wakes: multiset<Wake>, st: State,
      scheduled: multiset<Wake>, wake: nat)
    requires GoodConfig(cfg) && Scanned(cfg, issueAt, now, before, wakes, st, scheduled, cfg.ranks, 0, wake)
    ensures var wake' := if wake <= now then now + 1 else wake;
      && Progress(cfg, before, st, now) && MoreWakes(wakes, scheduled, now)
      && AllInTime(cfg, st.lines, issueAt, now, scheduled, wake')
      && TotalDelayed(cfg, st.refresh) <= TotalDelayed(cfg, before.refresh)
      && (TotalDelayed(cfg, st.refresh) == TotalDelayed(cfg, before.refresh) ==>
            && st == before && scheduled == wakes && FromSomewhere(cfg, st.lines, issueAt, now, wake')
            && forall b :: Exists(cfg, b) ==> SeenBy(cfg, st.lines, issueAt, now, wake', b))
  {
    hide TotalDelayed, MoreWakes, QueueId;
    var wake' := if wake <= now then now + 1 else wake;
    forall b | Exists(cfg, b) ensures InTime(cfg, st.lines, issueAt, now, scheduled, wake', b) {
      assert InTime(cfg, st.lines, issueAt, now, scheduled, wake, b);
    }
    if TotalDelayed(cfg, st.refresh) == TotalDelayed(cfg, before.refresh) {
      forall b | Exists(cfg, b) ensures SeenBy(cfg, st.lines, issueAt, now, wake', b) {
        assert SeenBy(cfg, st.lines, issueAt, now, wake, b);
      }
    }
  }

  // Some transaction waits for the queue.
  predicate Available(cfg: Config, transactions: seq<seq<Req>>, q: nat) {
    exists t, k :: 0 <= t < |transactions| && 0 <= k < |transactions[t]|
                   && QueueId(cfg, BankOf(transactions[t][k].addr)) == q
  }

  // No command waits in the queue, or only an issued one, and some transaction waits for it.
  predicate MayStart(cfg: Config, l: Lines, transactions: seq<seq<Req>>, q: nat) {
    && (QueueAt(l, q) == [] || (|QueueAt(l, q)| == 1 && QueueAt(l, q)[0].issued))
    && Available(cfg, transactions, q)
  }

  predicate SomeMayStart(cfg: Config, l: Lines, transactions: seq<seq<Req>>) {
    exists q: nat :: q < QueueCount(cfg) && MayStart(cfg, l, transactions, q)
  }

  // Sending the head of a queue schedules its cleanup and, if it was the last command there and some
  // transaction waits for the queue, a look at the transactions.
  function SentWakes(cfg: Config, st: State, q: nat, now: nat, wakes: multiset<Wake>): multiset<Wake> {
    var cleaned := Once(wakes, CleanupWake(now + 1));
    if |QueueAt(st.lines, q)| == 1 && Available(cfg, st.transactions, q) then
      cleaned + multiset{TransactionWake(now + 1)}
    else cleaned
  }

  // The flag that marks the head as issued makes no difference.
  lemma SentWakesAfter(cfg: Config, st: State, st': State, q: nat, now: nat, wakes: multiset<Wake>)
    requires QueueAt(st.lines, q) != []
    requires st'.transactions == st.transactions && st'.lines == HeadIssued(st.lines, q)
    ensures SentWakes(cfg, st', q, now, wakes) == SentWakes(cfg, st, q, now, wakes)
  {
    hide Available;
  }

  function CycledWakes(cfg: Config, st: State, takes: Cmd -> bool, now: nat, wakes: multiset<Wake>): multiset<Wake> {
    var q := NextToSend(cfg, st, takes, 0);
    if st.handledRefresh == Some(now) || st.lastIssueCycle == now || q.None? then wakes
    else SentWakes(cfg, st, q.value, now, wakes)
  }

  // ----- Selection with a predicate of the scheduler's own -----

  // The first eligible request that the scheduler's predicate lets through, or the length of the queue.
  function FirstChosen(cfg: Config, st: State, sel: Selector, pred: Req -> bool, queue: seq<Req>, now: nat): (i: nat)
    requires cfg.rbSize >= 1
    ensures i <= |queue|
    ensures forall j :: 0 <= j < i ==> !(Eligible(cfg, st, sel, queue[j], now) && pred(queue[j]))
    ensures i < |queue| ==> Eligible(cfg, st, sel, queue[i], now) && pred(queue[i])
  {
    if queue == [] || (Eligible(cfg, st, sel, queue[0], now) && pred(queue[0])) then 0
    else 1 + FirstChosen(cfg, st, sel, pred, queue[1..], now)
  }

  // A predicate that lets everything through makes no difference.
  lemma {:induction false} FirstChosenOfAll(cfg: Config, st: State, sel: Selector, pred: Req -> bool, queue: seq<Req>,
      now: nat)
    requires cfg.rbSize >= 1 && forall r :: r in queue ==> pred(r)
    ensures FirstChosen(cfg, st, sel, pred, queue, now) == FirstEligible(cfg, st, sel, queue, now)
  {
    if queue != [] {
      assert queue[0] in queue;
      FirstChosenOfAll(cfg, st, sel, pred, queue[1..], now);
    }
  }

  lemma {:induction false} FirstChosenIs(cfg: Config, st: State, sel: Selector, pred: Req -> bool, queue: seq<Req>,
      now: nat, i: nat)
    requires cfg.rbSize >= 1 && i <= |queue|
    requires forall j :: 0 <= j < i ==> !(Eligible(cfg, st, sel, queue[j], now) && pred(queue[j]))
    requires i < |queue| ==> Eligible(cfg, st, sel, queue[i], now) && pred(queue[i])
    ensures FirstChosen(cfg, st, sel, pred, queue, now) == i
  {
  }

  // ----- The controller -----

  // `scheduled` holds the controller's own events that wait in the event queue.
  class MemoryController {
    const cfg: Config
    var scheduled: multiset<Wake>
    var transactionQueues: seq<seq<Req>>
    var commandQueues: map<nat, seq<Cmd>>
    var nextTag: nat
    var activateQueued: set<BankId>
    var activeSubArray: set<SubId>
    var effectiveRow: map<SubId, nat>
    var effectiveMuxedRow: map<SubId, nat>
    var starvationCounter: map<SubId, nat>
    var delayedRefreshCounter: map<Group, nat>
    var bankNeedRefresh: set<BankId>
    var refreshQueued: set<BankId>
    var nextRefreshRank: nat
    var nextRefreshBank: nat
    var lastIssueCycle: nat
    var handledRefresh: Option<nat>
    var curQueue: nat

    function Pred(): Prediction
      reads this`activateQueued, this`activeSubArray, this`effectiveRow, this`effectiveMuxedRow
    {
      Prediction(activateQueued, activeSubArray, effectiveRow, effectiveMuxedRow)
    }

    function RefreshState(): Refresh
      reads this`delayedRefreshCounter, this`bankNeedRefresh, this`refreshQueued, this`nextRefreshRank,
            this`nextRefreshBank
    {
      Refresh(delayedRefreshCounter, bankNeedRefresh, refreshQueued, nextRefreshRank, nextRefreshBank)
    }

    function CommandLines(): Lines
      reads this`commandQueues, this`nextTag
    {
      Lines(commandQueues, nextTag)
    }

    function Model(): State
      reads this
    {
      State(transactionQueues, CommandLines(), Pred(), starvationCounter, RefreshState(),
            lastIssueCycle, handledRefresh, curQueue)
    }

    ghost predicate QueuesOk()
      reads this`commandQueues
    {
      forall q :: q in commandQueues.Keys ==> q < QueueCount(cfg)
    }

    ghost predicate SubsOk()
      reads this`activeSubArray
    {
      forall s :: s in activeSubArray ==> s.sub < cfg.subs
    }

    ghost predicate Valid()
      reads this
    {
      GoodConfig(cfg) && RoundRobinOk(cfg, RefreshState()) && QueuesOk() && SubsOk()
    }

    constructor (config: Config, queues: nat)
      requires GoodConfig(config)
      ensures Valid() && cfg == config && Model() == Initial(queues) && scheduled == multiset{}
    {
      cfg := config;
      transactionQueues := seq(queues, _ => []);
      commandQueues, nextTag := map[], 0;
      activateQueued, activeSubArray, effectiveRow, effectiveMuxedRow := {}, {}, map[], map[];
      starvationCounter, delayedRefreshCounter, bankNeedRefresh, refreshQueued := map[], map[], {}, {};
      nextRefreshRank, nextRefreshBank, lastIssueCycle, handledRefresh, curQueue := 0, 0, 0, None, 0;
      scheduled := multiset{};
    }

    method Push(q: nat, c: Cmd)
      requires q < QueueCount(cfg)
      modifies this`commandQueues, this`nextTag
      ensures CommandLines() == Pushed(old(CommandLines()), q, c)
      ensures old(QueuesOk()) ==> QueuesOk()
    {
      var queue := if q in commandQueues then commandQueues[q] else [];
      commandQueues := commandQueues[q := queue + [c.(tag := nextTag)]];
      nextTag := nextTag + 1;
    }

    // ----- Selecting a transaction -----

    // The request waits behind the others; if no command waits for its bank it is looked at right away.
    method Enqueue(t: nat, r: Req, now: nat)
      requires t < |transactionQueues|
      modifies this`transactionQueues, this`scheduled
      ensures transactionQueues == old(transactionQueues)[t := old(transactionQueues)[t] + [r]]
      ensures scheduled ==
        if EffectivelyEmpty(QueueId(cfg, BankOf(r.addr))) then Once(old(scheduled), TransactionWake(now))
        else old(scheduled)
    {
      transactionQueues := transactionQueues[t := transactionQueues[t] + [r]];
      if EffectivelyEmpty(QueueId(cfg, BankOf(r.addr))) {
        Schedule(TransactionWake(now));
      }
    }

    // Insert one of the controller's own events, unless it is already there.
    method Schedule(w: Wake)
      modifies this`scheduled
      ensures scheduled == Once(old(scheduled), w)
    {
      if w !in scheduled {
        scheduled := scheduled + multiset{w};
      }
    }

    method TransactionAvailable(queueId: nat) returns (rv: bool)
      ensures rv <==> Available(cfg, transactionQueues, queueId)
    {
      rv := false;
      for queueIdx := 0 to |transactionQueues|
        invariant rv <==> Available(cfg, transactionQueues[..queueIdx], queueId)
      {
        var queue := transactionQueues[queueIdx];
        var i := 0;
        while i < |queue| && QueueId(cfg, BankOf(queue[i].addr)) != queueId
          invariant i <= |queue|
          invariant forall k :: 0 <= k < i ==> QueueId(cfg, BankOf(queue[k].addr)) != queueId
        {
          i := i + 1;
        }
        AvailableNext(cfg, transactionQueues, queueIdx, queueId, i);
        if i < |queue| {
          rv := true;
        }
      }
      assert transactionQueues[..|transactionQueues|] == transactionQueues;
    }

    // A transaction that could be scheduled next cycle is looked at then.
    method Cycle(now: nat)
      requires Valid()
      modifies this`scheduled
      ensures scheduled == if SomeMayStart(cfg, CommandLines(), transactionQueues) then
                             Once(old(scheduled), TransactionWake(now + 1))
                           else old(scheduled)
    {
      hide MayStart, Available;
      if TransactionWake(now + 1) in scheduled {
        return;
      }
      for queueIdx := 0 to QueueCount(cfg)
        invariant scheduled == old(scheduled)
        invariant forall q: nat :: q < queueIdx ==> !MayStart(cfg, CommandLines(), transactionQueues, q)
      {
        var available := TransactionAvailable(queueIdx);
        MayStartIs(queueIdx);
        if EffectivelyEmpty(queueIdx) && available {
          Schedule(TransactionWake(now + 1));
          return;
        }
      }
    }

    lemma MayStartIs(q: nat)
      ensures MayStart(cfg, CommandLines(), transactionQueues, q) <==>
              EffectivelyEmpty(q) && Available(cfg, transactionQueues, q)
    {
    }

    method Prequeue(t: nat, r: Req)
      requires t < |transactionQueues|
      modifies this`transactionQueues
      ensures transactionQueues == old(transactionQueues)[t := [r] + old(transactionQueues)[t]]
    {
      transactionQueues := transactionQueues[t := [r] + transactionQueues[t]];
    }

    method IsLast(queue: seq<Req>, r: Req) returns (last: bool)
      ensures last == IsLastRequest(cfg, queue, r)
    {
      if cfg.closePage == 0 {
        return false;
      }
      if cfg.closePage == 1 {
        for i := 0 to |queue|
          invariant forall j :: 0 <= j < i ==>
            !(SubOf(queue[j].addr) == SubOf(r.addr) && queue[j].addr.row == r.addr.row)
        {
          if SubOf(queue[i].addr) == SubOf(r.addr) && queue[i].addr.row == r.addr.row {
            return false;
          }
        }
      }
      last := true;
    }

    // The scan shared by FindStarvedRequest, FindRowBufferHit, FindOldestReadyRequest and
    // FindClosedBankRequest, which differ in what they look for; a scheduler may add a predicate of its own.
    method FindRequestWhere(t: nat, sel: Selector, pred: Req -> bool, now: nat) returns (found: Option<Req>)
      requires Valid() && t < |transactionQueues|
      modifies this`transactionQueues
      ensures Valid()
      ensures var st := old(Model()); var queue := st.transactions[t];
        var i := FirstChosen(cfg, st, sel, pred, queue, now);
        if i == |queue| then found.None? && Model() == st
        else
          && Model() == st.(transactions := st.transactions[t := Removed(queue, i)])
          && found == Some(queue[i].(last := queue[i].last || IsLastRequest(cfg, Removed(queue, i), queue[i])))
    {
      var queue := transactionQueues[t];
      ghost var st := Model();
      var i := 0;
      while i < |queue| && !(Eligible(cfg, Model(), sel, queue[i], now) && pred(queue[i]))
        invariant i <= |queue| && Model() == st
        invariant forall j :: 0 <= j < i ==> !(Eligible(cfg, st, sel, queue[j], now) && pred(queue[j]))
      {
        i := i + 1;
      }
      FirstChosenIs(cfg, st, sel, pred, queue, now, i);
      if i == |queue| {
        return None;
      }
      var r := queue[i];
      queue := queue[..i] + queue[i + 1..];
      transactionQueues := transactionQueues[t := queue];
      var last := IsLast(queue, r);
      found := Some(r.(last := r.last || last));
    }

    // Without a predicate the first eligible request is taken.
    method FindRequest(t: nat, sel: Selector, now: nat) returns (found: Option<Req>)
      requires Valid() && t < |transactionQueues|
      modifies this`transactionQueues
      ensures Valid()
      ensures var st := old(Model()); var queue := st.transactions[t]; var i := FirstEligible(cfg, st, sel, queue, now);
        if i == |queue| then found.None? && Model() == st
        else
          && Model() == st.(transactions := st.transactions[t := Removed(queue, i)])
          && found == Some(queue[i].(last := queue[i].last || IsLastRequest(cfg, Removed(queue, i), queue[i])))
    {
      hide Eligible, IsLastRequest, Removed, RoundRobinOk;
      FirstChosenOfAll(cfg, Model(), sel, _ => true, transactionQueues[t], now);
      found := FindRequestWhere(t, sel, _ => true, now);
    }

    // ----- Queueing commands for a transaction -----

    method CloseSubArray(s: SubId)
      modifies this`activeSubArray, this`effectiveRow, this`effectiveMuxedRow
      ensures old(SubsOk()) ==> SubsOk()
      ensures activeSubArray == old(activeSubArray) - {s}
      ensures effectiveRow == old(effectiveRow)[s := cfg.rows]
      ensures effectiveMuxedRow == old(effectiveMuxedRow)[s := cfg.rows]
    {
      activeSubArray := activeSubArray - {s};
      effectiveRow := effectiveRow[s := cfg.rows];
      effectiveMuxedRow := effectiveMuxedRow[s := cfg.rows];
    }

    method OpenSubArray(s: SubId, row: nat, mux: nat)
      requires s.sub < cfg.subs
      modifies this`activateQueued, this`activeSubArray, this`effectiveRow, this`effectiveMuxedRow
      ensures old(SubsOk()) ==> SubsOk()
      ensures Pred() == Opened(old(Pred()), s, row, mux)
    {
      activateQueued := activateQueued + {s.bankId};
      activeSubArray := activeSubArray + {s};
      effectiveRow := effectiveRow[s := row];
      effectiveMuxedRow := effectiveMuxedRow[s := mux];
    }

    method IsIdle(b: BankId) returns (idle: bool)
      requires SubsOk()
      ensures idle == !AnyActive(Pred(), b)
    {
      for i := 0 to cfg.subs
        invariant forall s :: s in activeSubArray && s.bankId == b ==> s.sub >= i
      {
        if SubId(b, i) in activeSubArray {
          assert AnyActive(Pred(), b);
          return false;
        }
        forall s | s in activeSubArray && s.bankId == b ensures s.sub >= i + 1 {
          assert s == SubId(b, s.sub);
        }
      }
      idle := true;
    }

    // The commands for a transaction, without the wake-up.
    method QueueCommands(r: Req) returns (rv: bool)
      requires Valid() && InRange(cfg, r.addr)
      modifies this`commandQueues, this`nextTag, this`activateQueued, this`activeSubArray, this`effectiveRow,
               this`effectiveMuxedRow, this`starvationCounter
      ensures Valid()
      ensures Model() == MemoryCommandsIssued(cfg, old(Model()), r)
      ensures rv <==> BranchFor(cfg, old(Model()).lines, old(Pred()), r) != Reject
    {
      var s := SubOf(r.addr);
      var b := s.bankId;
      var mux := r.addr.col / cfg.rbSize;
      var q := QueueId(cfg, b);
      QueueInRange(cfg, b);
      var empty := q !in commandQueues || commandQueues[q] == [];
      var misses := Misses(cfg, Pred(), r.addr);
      if b !in activateQueued && empty {
        OpenFor(r, s, q, mux);
        rv := true;
      } else if b in activateQueued && misses && empty {
        SwitchFor(r, s, q, mux);
        rv := true;
      } else if b in activateQueued && !misses {
        UseFor(r, s, q, mux);
        rv := true;
      } else {
        rv := false;
      }
    }

    // What the controller expects of the subarray afterwards.
    method Predict(r: Req, s: SubId, mux: nat, b: Branch)
      requires GoodConfig(cfg) && SubsOk() && s.sub < cfg.subs && s == SubOf(r.addr) && mux == MuxLevel(cfg, r.addr)
      modifies this`activateQueued, this`activeSubArray, this`effectiveRow, this`effectiveMuxedRow
      ensures SubsOk() && Pred() == PredictionAfter(cfg, old(Pred()), r, b)
    {
      if b == OpenRow || b == SwitchRow {
        OpenSubArray(s, r.addr.row, mux);
      }
      if b == OpenRow && r.last {
        CloseSubArray(s);
        activateQueued := activateQueued - {s.bankId};
      }
      if b == UseRow && r.last {
        CloseSubArray(s);
        var idle := IsIdle(s.bankId);
        if idle {
          activateQueued := activateQueued - {s.bankId};
        }
      }
    }

    method OpenFor(r: Req, s: SubId, q: nat, mux: nat)
      requires Valid() && s.sub < cfg.subs && s == SubOf(r.addr) && q == QueueId(cfg, s.bankId) < QueueCount(cfg)
      requires mux == MuxLevel(cfg, r.addr) && BranchFor(cfg, CommandLines(), Pred(), r) == OpenRow
      modifies this`commandQueues, this`nextTag, this`activateQueued, this`activeSubArray, this`effectiveRow,
               this`effectiveMuxedRow, this`starvationCounter
      ensures Valid() && Model() == MemoryCommandsIssued(cfg, old(Model()), r)
    {
      hide RoundRobinOk, Pushed, Misses, QueuesOk, SubsOk, GoodConfig, QueueId, QueueCount, MuxLevel, BranchFor;
      hide MemoryCommandsIssued, PushedAll, CommandsFor, Pred, PredictionAfter, Opened, ClosedSub, CommandLines;
      hide ActivateCmd, ColumnCmd, PrechargeCmd, ImplicitPrecharge, EffectiveRow;
      OpenRowIs(cfg, Model(), r);
      Predict(r, s, mux, OpenRow);
      starvationCounter := starvationCounter[s := 0];
      Push(q, ActivateCmd(r.addr));
      Push(q, ColumnCmd(if r.last then ImplicitPrecharge(r) else r));
    }

    method SwitchFor(r: Req, s: SubId, q: nat, mux: nat)
      requires Valid() && s.sub < cfg.subs && s == SubOf(r.addr) && q == QueueId(cfg, s.bankId) < QueueCount(cfg)
      requires mux == MuxLevel(cfg, r.addr) && BranchFor(cfg, CommandLines(), Pred(), r) == SwitchRow
      modifies this`commandQueues, this`nextTag, this`activateQueued, this`activeSubArray, this`effectiveRow,
               this`effectiveMuxedRow, this`starvationCounter
      ensures Valid() && Model() == MemoryCommandsIssued(cfg, old(Model()), r)
    {
      hide RoundRobinOk, Pushed, Misses, QueuesOk, SubsOk, GoodConfig, QueueId, QueueCount, MuxLevel, BranchFor;
      hide MemoryCommandsIssued, PushedAll, CommandsFor, Pred, PredictionAfter, Opened, ClosedSub, CommandLines;
      hide ActivateCmd, ColumnCmd, PrechargeCmd, ImplicitPrecharge, EffectiveRow;
      SwitchRowIs(cfg, Model(), r);
      starvationCounter := starvationCounter[s := 0];
      if s in Pred().activeSubArray {
        Push(q, PrechargeCmd(r.addr, EffectiveRow(cfg, Pred(), s)));
      }
      Push(q, ActivateCmd(r.addr));
      Push(q, ColumnCmd(r));
      Predict(r, s, mux, SwitchRow);
    }

    method UseFor(r: Req, s: SubId, q: nat, mux: nat)
      requires Valid() && s.sub < cfg.subs && s == SubOf(r.addr) && q == QueueId(cfg, s.bankId) < QueueCount(cfg)
      requires mux == MuxLevel(cfg, r.addr) && BranchFor(cfg, CommandLines(), Pred(), r) == UseRow
      modifies this`commandQueues, this`nextTag, this`activateQueued, this`activeSubArray, this`effectiveRow,
               this`effectiveMuxedRow, this`starvationCounter
      ensures Valid() && Model() == MemoryCommandsIssued(cfg, old(Model()), r)
    {
      hide RoundRobinOk, Pushed, Misses, QueuesOk, SubsOk, GoodConfig, QueueId, QueueCount, MuxLevel, BranchFor;
      hide MemoryCommandsIssued, PushedAll, CommandsFor, Pred, PredictionAfter, Opened, ClosedSub, CommandLines;
      hide ActivateCmd, ColumnCmd, PrechargeCmd, ImplicitPrecharge, EffectiveRow;
      UseRowIs(cfg, Model(), r);
      starvationCounter := starvationCounter[s := (if s in starvationCounter then starvationCounter[s] else 0) + 1];
      Push(q, ColumnCmd(if r.last then ImplicitPrecharge(r) else r));
      Predict(r, s, mux, UseRow);
    }

    // ----- Sending commands and cleaning up -----

    method ResetRefreshQueued(b: BankId)
      requires cfg.banksPerRefresh >= 1
      modifies this`refreshQueued
      ensures refreshQueued == old(refreshQueued) - GroupBanks(cfg, GroupOf(cfg, b))
    {
      var bankHead := (b.bank / cfg.banksPerRefresh) * cfg.banksPerRefresh;
      for i := 0 to cfg.banksPerRefresh
        invariant refreshQueued == old(refreshQueued) - BanksFrom(b.rank, bankHead, i)
      {
        refreshQueued := refreshQueued - {BankId(b.rank, bankHead + i)};
      }
    }

    // At most one command leaves: the first one, round-robin from curQueue, that the device takes.
    method CycleCommandQueues(takes: Cmd -> bool, now: nat)
      requires Valid()
      modifies this
      ensures Valid() && Model() == Cycled(cfg, old(Model()), takes, now)
      ensures scheduled == CycledWakes(cfg, old(Model()), takes, now, old(scheduled))
    {
      if handledRefresh == Some(now) {
        return;
      }
      var n := QueueCount(cfg);
      for i := 0 to n
        invariant Valid() && Model() == old(Model()) && scheduled == old(scheduled)
        invariant lastIssueCycle != now ==> NextToSend(cfg, Model(), takes, 0) == NextToSend(cfg, Model(), takes, i)
      {
        var q := (curQueue + i) % n;
        if q in commandQueues && commandQueues[q] != [] && lastIssueCycle != now && takes(commandQueues[q][0]) {
          SendHead(q, now);
          return;
        }
      }
    }

    method SendHead(q: nat, now: nat)
      requires Valid() && q < QueueCount(cfg) && q in commandQueues && commandQueues[q] != []
      modifies this`commandQueues, this`refreshQueued, this`lastIssueCycle, this`curQueue, this`scheduled
      ensures Valid() && Model() == Sent(cfg, old(Model()), q, now)
      ensures scheduled == SentWakes(cfg, old(Model()), q, now, old(scheduled))
    {
      hide PointersOk, GroupBanks, GroupOf, QueueCount, SubsOk, Pred, SentWakes, HeadIssued;
      ghost var before, wakes := Model(), scheduled;
      MarkSent(q, now);
      SentWakesAfter(cfg, before, Model(), q, now, wakes);
      WakeAfterSending(q, now);
      MoveCurrentQueue();
    }

    method MarkSent(q: nat, now: nat)
      requires cfg.banksPerRefresh >= 1 && QueuesOk() && q in commandQueues && commandQueues[q] != []
      modifies this`commandQueues, this`refreshQueued, this`lastIssueCycle
      ensures QueuesOk() && lastIssueCycle == now && CommandLines() == HeadIssued(old(CommandLines()), q)
      ensures refreshQueued == if old(commandQueues)[q][0].op == REFRESH then
                old(refreshQueued) - GroupBanks(cfg, GroupOf(cfg, BankOf(old(commandQueues)[q][0].addr)))
              else old(refreshQueued)
    {
      hide GroupBanks, GroupOf, QueueCount;
      var queue := commandQueues[q];
      var c := queue[0];
      commandQueues := commandQueues[q := [c.(issued := true)] + queue[1..]];
      if c.op == REFRESH {
        ResetRefreshQueued(BankOf(c.addr));
      }
      if now != lastIssueCycle {
        lastIssueCycle := now;
      }
    }

    method WakeAfterSending(q: nat, now: nat)
      modifies this`scheduled
      ensures scheduled == SentWakes(cfg, Model(), q, now, old(scheduled))
    {
      hide Available;
      Schedule(CleanupWake(now + 1));
      if q in commandQueues && |commandQueues[q]| == 1 {
        var available := TransactionAvailable(q);
        if available {
          scheduled := scheduled + multiset{TransactionWake(now + 1)};
        }
      }
    }

    // The round-robin position; it may come to stand one past the last queue.
    method MoveCurrentQueue()
      modifies this`curQueue
      ensures curQueue == if old(curQueue) + 1 > QueueCount(cfg) then 0 else old(curQueue) + 1
    {
      curQueue := curQueue + 1;
      if curQueue > QueueCount(cfg) {
        curQueue := 0;
      }
    }

    method RemoveIssued(queue: seq<Cmd>) returns (kept: seq<Cmd>)
      ensures kept == Unissued(queue)
    {
      kept := [];
      for i := 0 to |queue|
        invariant kept == Unissued(queue[..i])
      {
        UnissuedSplit(queue, i);
        if !queue[i].issued {
          kept := kept + [queue[i]];
        }
      }
      assert queue[..|queue|] == queue;
    }

    method CleanupCallback()
      requires Valid()
      modifies this`commandQueues
      ensures Valid() && Model() == old(Model()).(lines := Cleaned(old(CommandLines())))
    {
      for q := 0 to QueueCount(cfg)
        invariant commandQueues.Keys == old(commandQueues).Keys
        invariant forall k :: k in commandQueues ==>
          commandQueues[k] == if k < q then Unissued(old(commandQueues)[k]) else old(commandQueues)[k]
      {
        if q in commandQueues {
          var kept := RemoveIssued(commandQueues[q]);
          commandQueues := commandQueues[q := kept];
        }
      }
      assert commandQueues == Cleaned(old(CommandLines())).queues;
    }

    // ----- Refresh pulses -----

    function NeedsRefresh(bank: nat, rank: nat): bool
      requires cfg.banksPerRefresh >= 1
      reads this`delayedRefreshCounter
    {
      var g := Group(rank, bank / cfg.banksPerRefresh);
      cfg.useRefresh && (if g in delayedRefreshCounter then delayedRefreshCounter[g] else 0) >= cfg.refreshThreshold
    }

    method SetRefresh(rank: nat, bankHead: nat)
      modifies this`bankNeedRefresh
      ensures bankNeedRefresh == old(bankNeedRefresh) + BanksFrom(rank, bankHead, cfg.banksPerRefresh)
    {
      for i := 0 to cfg.banksPerRefresh
        invariant bankNeedRefresh == old(bankNeedRefresh) + BanksFrom(rank, bankHead, i)
      {
        bankNeedRefresh := bankNeedRefresh + {BankId(rank, bankHead + i)};
      }
    }

    method ResetRefresh(rank: nat, bankHead: nat)
      modifies this`bankNeedRefresh
      ensures bankNeedRefresh == old(bankNeedRefresh) - BanksFrom(rank, bankHead, cfg.banksPerRefresh)
    {
      for i := 0 to cfg.banksPerRefresh
        invariant bankNeedRefresh == old(bankNeedRefresh) - BanksFrom(rank, bankHead, i)
      {
        bankNeedRefresh := bankNeedRefresh - {BankId(rank, bankHead + i)};
      }
    }

    method SetRefreshQueued(rank: nat, bankHead: nat)
      modifies this`refreshQueued
      ensures refreshQueued == old(refreshQueued) + BanksFrom(rank, bankHead, cfg.banksPerRefresh)
    {
      for i := 0 to cfg.banksPerRefresh
        invariant refreshQueued == old(refreshQueued) + BanksFrom(rank, bankHead, i)
      {
        refreshQueued := refreshQueued + {BankId(rank, bankHead + i)};
      }
    }

    // The pulse comes back after the refresh interval tREFI.
    method ProcessRefreshPulse(rank: nat, bank: nat, tREFI: nat, now: nat)
      requires Valid()
      modifies this`delayedRefreshCounter, this`bankNeedRefresh, this`scheduled
      ensures Valid() && scheduled == old(scheduled) + multiset{RefreshPulse(now + tREFI, rank, bank)}
      ensures Model() == old(Model()).(refresh :=
                PulsedRefresh(cfg, old(RefreshState()), GroupOf(cfg, BankId(rank, bank))))
    {
      var g := Group(rank, bank / cfg.banksPerRefresh);
      delayedRefreshCounter :=
        delayedRefreshCounter[g := (if g in delayedRefreshCounter then delayedRefreshCounter[g] else 0) + 1];
      if NeedsRefresh(bank, rank) {
        SetRefresh(rank, (bank / cfg.banksPerRefresh) * cfg.banksPerRefresh);
      }
      scheduled := scheduled + multiset{RefreshPulse(now + tREFI, rank, bank)};
    }

    // ----- Queueing a refresh -----

    method ClearBank(b: BankId)
      modifies this`activateQueued, this`activeSubArray, this`effectiveRow, this`effectiveMuxedRow
      ensures old(SubsOk()) ==> SubsOk()
      ensures Pred() == ClosedBank(cfg, old(Pred()), b)
    {
      for sa := 0 to cfg.subs
        invariant activateQueued == old(activateQueued)
        invariant activeSubArray == old(activeSubArray) - SubsBelow(b, sa)
        invariant effectiveRow == old(effectiveRow) + ClosedRows(cfg, b, sa)
        invariant effectiveMuxedRow == old(effectiveMuxedRow) + ClosedRows(cfg, b, sa)
      {
        hide SubsBelow, ClosedRows;
        ghost var active, rows, muxed := activeSubArray, effectiveRow, effectiveMuxedRow;
        CloseSubArray(SubId(b, sa));
        ClosedOneMore(cfg, b, sa, old(activeSubArray), old(effectiveRow), active, rows);
        ClosedOneMore(cfg, b, sa, old(activeSubArray), old(effectiveMuxedRow), active, muxed);
      }
      activateQueued := activateQueued - {b};
    }

    method CloseForRefresh(rank: nat, j: nat, ghost g: Group)
      requires Valid() && GroupInRange(cfg, g) && rank == g.rank && j == g.index * cfg.banksPerRefresh
      modifies this`commandQueues, this`nextTag, this`activateQueued, this`activeSubArray, this`effectiveRow,
               this`effectiveMuxedRow
      ensures QueuesOk() && SubsOk()
      ensures (CommandLines(), Pred()) ==
          ClosedForRefresh(cfg, old(CommandLines()), old(Pred()), g, cfg.banksPerRefresh)
    {
      for tmpBank := 0 to cfg.banksPerRefresh
        invariant QueuesOk() && SubsOk()
        invariant (CommandLines(), Pred()) == ClosedForRefresh(cfg, old(CommandLines()), old(Pred()), g, tmpBank)
      {
        GroupBankInRange(cfg, g, tmpBank);
        var refBank := (tmpBank + j) % cfg.banks;
        assert refBank == tmpBank + j by {
          ModIs(tmpBank + j, cfg.banks, 0, tmpBank + j);
        }
        var b := BankId(rank, refBank);
        QueueInRange(cfg, b);
        if b in activateQueued {
          Push(QueueId(cfg, b), PrechargeAllCmd(b));
          ClearBank(b);
        }
      }
    }

    method QueueRefresh(rank: nat, j: nat, now: nat, ghost g: Group)
      requires Valid() && GroupInRange(cfg, g) && rank == g.rank && j == g.index * cfg.banksPerRefresh
      requires NeedRefresh(cfg, RefreshState(), g) && Delayed(RefreshState(), g) >= 1
      modifies this`commandQueues, this`nextTag, this`activateQueued, this`activeSubArray, this`effectiveRow,
               this`effectiveMuxedRow, this`delayedRefreshCounter, this`bankNeedRefresh, this`refreshQueued,
               this`nextRefreshRank, this`nextRefreshBank, this`handledRefresh
      ensures Valid() && Model() == RefreshHandled(cfg, old(Model()), g, now)
    {
      hide RoundRobinOk, GoodConfig, ClosedForRefresh, SentRefresh, Pushed, QueuesOk, SubsOk, GroupInRange, QueueCount;
      hide QueueId, Pred, CommandLines, NeedRefresh, RefreshState;
      SentRoundRobin(cfg, RefreshState(), g);
      CloseForRefresh(rank, j, g);
      var head := BankId(rank, j);
      HeadQueueInRange(cfg, g);
      Push(QueueId(cfg, head), RefreshCmd(head));
      AccountRefresh(rank, j, g);
      handledRefresh := Some(now);
    }

    // The counter, the flags and the round-robin pointer after a REFRESH has been queued.
    method AccountRefresh(rank: nat, j: nat, ghost g: Group)
      requires GoodConfig(cfg) && rank == g.rank && j == g.index * cfg.banksPerRefresh
      requires Delayed(RefreshState(), g) >= 1
      modifies this`delayedRefreshCounter, this`bankNeedRefresh, this`refreshQueued, this`nextRefreshRank,
               this`nextRefreshBank
      ensures RefreshState() == SentRefresh(cfg, old(RefreshState()), g)
    {
      GroupOfHead(cfg, g);
      SetRefreshQueued(rank, j);
      var group := Group(rank, j / cfg.banksPerRefresh);
      assert group == g;
      delayedRefreshCounter := delayedRefreshCounter[group := delayedRefreshCounter[group] - 1];
      if !NeedsRefresh(j, rank) {
        ResetRefresh(rank, j);
      }
      MoveRefreshPointer();
    }

    method MoveRefreshPointer()
      modifies this`nextRefreshRank, this`nextRefreshBank
      ensures nextRefreshBank == var n := old(nextRefreshBank) + cfg.banksPerRefresh; if n < cfg.banks then n else 0
      ensures nextRefreshRank ==
              if old(nextRefreshBank) + cfg.banksPerRefresh < cfg.banks then old(nextRefreshRank)
              else if old(nextRefreshRank) + 1 == cfg.ranks then 0
              else old(nextRefreshRank) + 1
    {
      nextRefreshBank := nextRefreshBank + cfg.banksPerRefresh;
      if nextRefreshBank >= cfg.banks {
        nextRefreshBank := 0;
        nextRefreshRank := nextRefreshRank + 1;
        if nextRefreshRank == cfg.ranks {
          nextRefreshRank := 0;
        }
      }
    }

    // ----- The mutual recursion -----

    predicate EffectivelyEmpty(q: nat)
      reads this`commandQueues
    {
      q !in commandQueues || commandQueues[q] == [] || (|commandQueues[q]| == 1 && commandQueues[q][0].issued)
    }

    method IsRefreshBankQueueEmpty(bank: nat, rank: nat) returns (empty: bool)
      requires cfg.banksPerRefresh >= 1
      ensures empty <==> forall b :: b in GroupBanks(cfg, GroupOf(cfg, BankId(rank, bank))) ==>
                           EffectivelyEmpty(QueueId(cfg, b))
    {
      hide QueueId, EffectivelyEmpty;
      var bankHead := (bank / cfg.banksPerRefresh) * cfg.banksPerRefresh;
      for i := 0 to cfg.banksPerRefresh
        invariant forall b :: b in BanksFrom(rank, bankHead, i) ==> EffectivelyEmpty(QueueId(cfg, b))
      {
        var b := BankId(rank, bankHead + i);
        if !EffectivelyEmpty(QueueId(cfg, b)) {
          assert b in BanksFrom(rank, bankHead, cfg.banksPerRefresh);
          return false;
        }
      }
      empty := true;
    }

    // Queue the first refresh the round-robin scan finds, and wake the command queues.
    method HandleRefresh(issueAt: Cmd -> nat, now: nat) returns (handled: bool)
      requires Valid()
      modifies this
      ensures Valid() && Progress(cfg, old(Model()), Model(), now)
      ensures handled <==> Chosen(cfg, old(RefreshState()), 0, 0).Some?
      ensures if handled then TotalDelayed(cfg, RefreshState()) < old(TotalDelayed(cfg, RefreshState()))
              else Model() == old(Model()) && scheduled == old(scheduled)
      ensures MoreWakes(old(scheduled), scheduled, now)
      ensures handled ==> NoneForgotten(cfg, CommandLines(), issueAt, now, scheduled)
      decreases TotalDelayed(cfg, RefreshState()), 0
    {
      hide RoundRobinOk, Progress, TotalDelayed, QueuesOk, SubsOk, RefreshHandled, NeedRefresh, GroupInRange;
      hide NoneForgotten;
      GroupsPositive(cfg);
      for rankIdx := 0 to cfg.ranks
        invariant Valid() && Model() == old(Model()) && scheduled == old(scheduled)
        invariant Chosen(cfg, RefreshState(), 0, 0) == Chosen(cfg, RefreshState(), rankIdx, 0)
      {
        for bankIdx := 0 to Groups(cfg)
          invariant Valid() && Model() == old(Model()) && scheduled == old(scheduled)
          invariant Chosen(cfg, RefreshState(), 0, 0) == Chosen(cfg, RefreshState(), rankIdx, bankIdx)
        {
          var rank := (nextRefreshRank + rankIdx) % cfg.ranks;
          var j := (nextRefreshBank + bankIdx * cfg.banksPerRefresh) % cfg.banks;
          ghost var g := ScanAt(cfg, RefreshState(), rankIdx, bankIdx);
          NeedsRefreshIs(j, rank);
          if NeedsRefresh(j, rank) {
            ScanHead(cfg, RefreshState(), rankIdx, bankIdx);
            OneProgress(cfg, Model(), now);
            QueueRefresh(rank, j, now, g);
            ghost var after := Model();
            var wake := ScheduleCommandWake(issueAt, now);
            ProgressTwice(cfg, old(Model()), after, Model(), now);
            return true;
          }
        }
      }
      NoProgress(cfg, Model(), now);
      handled := false;
    }

    lemma NeedsRefreshIs(bank: nat, rank: nat)
      requires cfg.banksPerRefresh >= 1
      ensures NeedsRefresh(bank, rank) == NeedRefresh(cfg, RefreshState(), Group(rank, bank / cfg.banksPerRefresh))
    {
    }

    method ScheduleCommandWake(issueAt: Cmd -> nat, now: nat) returns (wake: nat)
      requires Valid()
      modifies this
      ensures Valid() && Progress(cfg, old(Model()), Model(), now) && wake > now
      ensures TotalDelayed(cfg, RefreshState()) <= old(TotalDelayed(cfg, RefreshState()))
      ensures MoreWakes(old(scheduled), scheduled, now) && CommandWake(wake) in scheduled
      ensures NoneForgotten(cfg, CommandLines(), issueAt, now, scheduled)
      ensures TotalDelayed(cfg, RefreshState()) == old(TotalDelayed(cfg, RefreshState())) ==>
                scheduled == Once(old(scheduled), CommandWake(wake))
      decreases TotalDelayed(cfg, RefreshState()), 3
    {
      hide RoundRobinOk, Progress, TotalDelayed, QueuesOk, SubsOk, AllInTime, NoneForgotten;
      wake := NextIssuable(issueAt, now);
      ghost var before := scheduled;
      Schedule(CommandWake(wake));
      OnceScheduled(cfg, CommandLines(), issueAt, now, before, wake, scheduled);
    }

    // Queue the commands for a transaction and wake the command queues, which may bring refreshes in.
    method IssueMemoryCommands(r: Req, issueAt: Cmd -> nat, now: nat) returns (rv: bool)
      requires Valid() && InRange(cfg, r.addr)
      modifies this
      ensures Valid() && Progress(cfg, MemoryCommandsIssued(cfg, old(Model()), r), Model(), now)
      ensures rv <==> BranchFor(cfg, old(CommandLines()), old(Pred()), r) != Reject
      ensures if rv then NoneForgotten(cfg, CommandLines(), issueAt, now, scheduled) else scheduled == old(scheduled)
      ensures MoreWakes(old(scheduled), scheduled, now)
    {
      hide RoundRobinOk, QueuesOk, SubsOk, MemoryCommandsIssued, Progress, BranchFor, NoneForgotten;
      rv := QueueCommands(r);
      if rv {
        var wake := ScheduleCommandWake(issueAt, now);
      } else {
        NoProgress(cfg, Model(), now);
      }
    }

    // A refresh timer went off for a bank's group.
    method RefreshCallback(rank: nat, bank: nat, tREFI: nat, issueAt: Cmd -> nat, now: nat)
      requires Valid()
      modifies this
      ensures Valid()
      ensures MoreWakes(old(scheduled) + multiset{RefreshPulse(now + tREFI, rank, bank)}, scheduled, now)
      ensures Chosen(cfg, PulsedRefresh(cfg, old(RefreshState()), GroupOf(cfg, BankId(rank, bank))), 0, 0).Some? ==>
                NoneForgotten(cfg, CommandLines(), issueAt, now, scheduled)
      ensures Progress(cfg, old(Model()).(refresh :=
                PulsedRefresh(cfg, old(RefreshState()), GroupOf(cfg, BankId(rank, bank)))), Model(), now)
    {
      hide RoundRobinOk, Progress, TotalDelayed, PulsedRefresh, QueuesOk, SubsOk, GroupOf, NoneForgotten;
      ProcessRefreshPulse(rank, bank, tREFI, now);
      var handled := HandleRefresh(issueAt, now);
    }

    // The wake-up of the command queues: refreshes that are due come in, then one command may leave.
    method CommandQueueCallback(takes: Cmd -> bool, issueAt: Cmd -> nat, now: nat)
        returns (wake: nat, ghost woken: State, ghost wakes: multiset<Wake>)
      requires Valid()
      modifies this
      ensures Valid() && Progress(cfg, old(Model()), woken, now) && wake > now
      ensures MoreWakes(old(scheduled), wakes, now) && NoneForgotten(cfg, woken.lines, issueAt, now, wakes)
      ensures wake == EventQueues.MAX_CYCLE || CommandWake(wake) in wakes
      ensures Model() == Cycled(cfg, woken, takes, now) && scheduled == CycledWakes(cfg, woken, takes, now, wakes)
    {
      hide RoundRobinOk, Progress, TotalDelayed, Cycled, CycledWakes, QueuesOk, SubsOk, AllInTime, NoneForgotten;
      wake := NextIssuable(issueAt, now);
      woken := Model();
      ghost var before := scheduled;
      if wake != EventQueues.MAX_CYCLE {
        Schedule(CommandWake(wake));
      }
      wakes := scheduled;
      OnceScheduled(cfg, CommandLines(), issueAt, now, before, wake, wakes);
      CycleCommandQueues(takes, now);
    }

    // When to wake up next; on the way, refreshes whose banks have nothing queued are handled.
    method NextIssuable(issueAt: Cmd -> nat, now: nat) returns (wake: nat)
      requires Valid()
      modifies this
      ensures Valid() && Progress(cfg, old(Model()), Model(), now) && wake > now
      ensures TotalDelayed(cfg, RefreshState()) <= old(TotalDelayed(cfg, RefreshState()))
      ensures MoreWakes(old(scheduled), scheduled, now)
      ensures AllInTime(cfg, CommandLines(), issueAt, now, scheduled, wake)
      ensures TotalDelayed(cfg, RefreshState()) == old(TotalDelayed(cfg, RefreshState())) ==>
                && Model() == old(Model()) && scheduled == old(scheduled)
                && FromSomewhere(cfg, CommandLines(), issueAt, now, wake)
                && forall b: BankId :: Exists(cfg, b) ==> SeenBy(cfg, CommandLines(), issueAt, now, wake, b)
      decreases TotalDelayed(cfg, RefreshState()), 2
    {
      hide RoundRobinOk, Progress, TotalDelayed, QueuesOk, SubsOk, Scanned, InTime, FromSomewhere, MoreWakes;
      wake := EventQueues.MAX_CYCLE;
      ghost var before, wakes := Model(), scheduled;
      NothingScanned(cfg, issueAt, now, before, wakes, wake);
      for rankIdx := 0 to cfg.ranks
        invariant Valid() && Scanned(cfg, issueAt, now, before, wakes, Model(), scheduled, rankIdx, 0, wake)
      {
        for bankIdx := 0 to cfg.banks
          invariant Valid() && Scanned(cfg, issueAt, now, before, wakes, Model(), scheduled, rankIdx, bankIdx, wake)
        {
          wake := VisitBank(issueAt, now, rankIdx, bankIdx, wake, before, wakes);
        }
        RankScanned(cfg, issueAt, now, before, wakes, Model(), scheduled, rankIdx, wake);
      }
      AllScanned(cfg, issueAt, now, before, wakes, Model(), scheduled, wake);
      if wake <= now {
        wake := now + 1;
      }
    }

    // One step of the scan: the bank's group may be refreshed, and the head of its queue may come first.
    method VisitBank(issueAt: Cmd -> nat, now: nat, rank: nat, bank: nat, soFar: nat, ghost before: State,
        ghost wakes: multiset<Wake>)
      returns (wake: nat)
      requires Valid() && Exists(cfg, BankId(rank, bank))
      requires Scanned(cfg, issueAt, now, before, wakes, Model(), scheduled, rank, bank, soFar)
      modifies this
      ensures Valid() && Scanned(cfg, issueAt, now, before, wakes, Model(), scheduled, rank, bank + 1, wake)
      decreases TotalDelayed(cfg, before.refresh), 1
    {
      hide RoundRobinOk, Progress, TotalDelayed, QueuesOk, SubsOk, Scanned, InTime, NoneForgotten, MoreWakes;
      wake := soFar;
      var q := QueueId(cfg, BankId(rank, bank));
      var empty := IsRefreshBankQueueEmpty(bank, rank);
      if NeedsRefresh(bank, rank) && empty {
        if lastIssueCycle != now {
          ghost var mid, midWakes := Model(), scheduled;
          ScannedTotal(cfg, issueAt, now, before, wakes, mid, midWakes, rank, bank, wake);
          var handled := HandleRefresh(issueAt, now);
          if handled {
            RefreshScanned(cfg, issueAt, now, before, wakes, mid, midWakes, Model(), scheduled, rank, bank, wake);
          }
        } else {
          AtOnceScanned(cfg, issueAt, now, before, wakes, Model(), scheduled, rank, bank, wake);
          wake := now + 1;
        }
      }
      BankScanned(cfg, issueAt, now, before, wakes, Model(), scheduled, rank, bank, wake);
      if q in commandQueues && commandQueues[q] != [] {
        var at := issueAt(commandQueues[q][0]);
        wake := if at < wake then at else wake;
      }
    }
  }

  // The bank the scan looks at is the head of its group.
  lemma ScanHead(cfg: Config, r: Refresh, rank: nat, bank: nat)
    requires GoodConfig(cfg) && RoundRobinOk(cfg, r)
    ensures var g := ScanAt(cfg, r, rank, bank);
      GroupInRange(cfg, g) && (r.nextBank + bank * cfg.banksPerRefresh) % cfg.banks == g.index * cfg.banksPerRefresh
  {
    ScanIndex(cfg, r, rank, bank);
    GroupsPositive(cfg);
    var d := cfg.banksPerRefresh;
    var h := r.nextBank / d;
    assert r.nextBank + bank * d == (h + bank) * d;
    ScaledMod(h + bank, Groups(cfg), d);
  }

  lemma AvailableNext(cfg: Config, transactions: seq<seq<Req>>, t: nat, q: nat, i: nat)
    requires t < |transactions| && i <= |transactions[t]|
    requires forall k :: 0 <= k < i ==> QueueId(cfg, BankOf(transactions[t][k].addr)) != q
    requires i < |transactions[t]| ==> QueueId(cfg, BankOf(transactions[t][i].addr)) == q
    ensures Available(cfg, transactions[..t + 1], q) <==> Available(cfg, transactions[..t], q) || i < |transactions[t]|
  {
    hide QueueId;
    var here := transactions[..t + 1];
    if Available(cfg, transactions[..t], q) {
      var u, k :| 0 <= u < t && 0 <= k < |transactions[..t][u]|
                  && QueueId(cfg, BankOf(transactions[..t][u][k].addr)) == q;
      assert here[u][k] == transactions[..t][u][k];
    }
    if i < |transactions[t]| {
      assert here[t][i] == transactions[t][i];
    }
  }

  lemma HeadQueueInRange(cfg: Config, g: Group)
    requires GoodConfig(cfg) && GroupInRange(cfg, g)
    ensures QueueId(cfg, GroupHead(cfg, g)) < QueueCount(cfg)
  {
    GroupBankInRange(cfg, g, 0);
    QueueInRange(cfg, GroupHead(cfg, g));
  }

  lemma ClosedRowsNext(cfg: Config, b: BankId, n: nat)
    ensures ClosedRows(cfg, b, n + 1) == ClosedRows(cfg, b, n)[SubId(b, n) := cfg.rows]
    ensures SubsBelow(b, n + 1) == SubsBelow(b, n) + {SubId(b, n)}
  {
    forall s: SubId ensures s in SubsBelow(b, n + 1) <==> s in SubsBelow(b, n) || s == SubId(b, n) {
      assert s == SubId(s.bankId, s.sub);
    }
  }

  lemma ClosedOneMore(cfg: Config, b: BankId, n: nat, active0: set<SubId>, rows0: map<SubId, nat>, active: set<SubId>,
      rows: map<SubId, nat>)
    requires active == active0 - SubsBelow(b, n) && rows == rows0 + ClosedRows(cfg, b, n)
    ensures active - {SubId(b, n)} == active0 - SubsBelow(b, n + 1)
    ensures rows[SubId(b, n) := cfg.rows] == rows0 + ClosedRows(cfg, b, n + 1)
  {
    ClosedRowsNext(cfg, b, n);
    hide SubsBelow, ClosedRows;
  }

  // The three branches of MemoryCommandsIssued, command by command.
  lemma OpenRowIs(cfg: Config, st: State, r: Req)
    requires GoodConfig(cfg) && BranchFor(cfg, st.lines, st.pred, r) == OpenRow
    ensures var s := SubOf(r.addr); var q := QueueId(cfg, s.bankId);
      var column := if r.last then ColumnCmd(ImplicitPrecharge(r)) else ColumnCmd(r);
      MemoryCommandsIssued(cfg, st, r) ==
      st.(lines := Pushed(Pushed(st.lines, q, ActivateCmd(r.addr)), q, column),
          pred := PredictionAfter(cfg, st.pred, r, OpenRow), starvation := st.starvation[s := 0])
  {
    PushTwo(st.lines, QueueId(cfg, BankOf(r.addr)), CommandsFor(cfg, st.pred, r, OpenRow));
  }

  lemma SwitchRowIs(cfg: Config, st: State, r: Req)
    requires GoodConfig(cfg) && BranchFor(cfg, st.lines, st.pred, r) == SwitchRow
    ensures var s := SubOf(r.addr); var q := QueueId(cfg, s.bankId);
      var l := if s in st.pred.activeSubArray then
                 Pushed(st.lines, q, PrechargeCmd(r.addr, EffectiveRow(cfg, st.pred, s)))
               else st.lines;
      MemoryCommandsIssued(cfg, st, r) ==
      st.(lines := Pushed(Pushed(l, q, ActivateCmd(r.addr)), q, ColumnCmd(r)),
          pred := PredictionAfter(cfg, st.pred, r, SwitchRow), starvation := st.starvation[s := 0])
  {
    var q := QueueId(cfg, BankOf(r.addr));
    var cmds := CommandsFor(cfg, st.pred, r, SwitchRow);
    if SubOf(r.addr) in st.pred.activeSubArray {
      assert cmds[1..] == [ActivateCmd(r.addr), ColumnCmd(r)];
      PushTwo(Pushed(st.lines, q, cmds[0]), q, cmds[1..]);
    } else {
      assert cmds == [ActivateCmd(r.addr), ColumnCmd(r)];
      PushTwo(st.lines, q, cmds);
    }
  }

  lemma UseRowIs(cfg: Config, st: State, r: Req)
    requires GoodConfig(cfg) && BranchFor(cfg, st.lines, st.pred, r) == UseRow
    ensures var s := SubOf(r.addr); var q := QueueId(cfg, s.bankId);
      MemoryCommandsIssued(cfg, st, r) ==
      st.(lines := Pushed(st.lines, q, ColumnCmd(if r.last then ImplicitPrecharge(r) else r)),
          pred := PredictionAfter(cfg, st.pred, r, UseRow),
          starvation := st.starvation[s := Starvation(st, s) + 1])
  {
    PushOne(st.lines, QueueId(cfg, BankOf(r.addr)), CommandsFor(cfg, st.pred, r, UseRow));
  }

  lemma PushOne(l: Lines, q: nat, cmds: seq<Cmd>)
    requires |cmds| == 1
    ensures PushedAll(l, q, cmds) == Pushed(l, q, cmds[0])
  {
    assert cmds[1..] == [];
  }

  lemma PushTwo(l: Lines, q: nat, cmds: seq<Cmd>)
    requires |cmds| == 2
    ensures PushedAll(l, q, cmds) == Pushed(Pushed(l, q, cmds[0]), q, cmds[1])
  {
    assert cmds[1..] == [cmds[1]];
    PushOne(Pushed(l, q, cmds[0]), q, cmds[1..]);
  }
}
