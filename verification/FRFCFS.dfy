/**
  The first-ready, first-come-first-served scheduler: starved requests, then row-buffer hits, then the oldest
  ready request, then a request to a closed bank.  However many hits arrive, a request that misses is
  overtaken by a bounded number of them.
*/
module FRFCFSScheduling {
  import opened Arithmetic
  import opened Device
  import opened Controller
  import opened Coherence
  import opened ControllerRuns
  import opened MemoryControllers
  import Conservation
  import RefreshAccounting

  predicate Finds(cfg: Config, st: State, t: nat, sel: Selector, now: nat)
    requires cfg.rbSize >= 1 && t < |st.transactions|
  {
    FirstEligible(cfg, st, sel, st.transactions[t], now) < |st.transactions[t]|
  }

  // The first selector, in order of preference, that finds a request.  Cached and write-stalled reads are
  // never found on plain banks without write pausing.
  function Choice(cfg: Config, st: State, t: nat, now: nat): Option<Selector>
    requires cfg.rbSize >= 1 && t < |st.transactions|
  {
    if Finds(cfg, st, t, Starved, now) then Some(Starved)
    else if Finds(cfg, st, t, RowBufferHit, now) then Some(RowBufferHit)
    else if Finds(cfg, st, t, OldestReady, now) then Some(OldestReady)
    else if Finds(cfg, st, t, ClosedBankRequest, now) then Some(ClosedBankRequest)
    else None
  }

  function Selected(cfg: Config, st: State, t: nat, now: nat): Option<Req>
    requires cfg.rbSize >= 1 && t < |st.transactions|
  {
    var c := Choice(cfg, st, t, now);
    if c.None? then None else Some(st.transactions[t][FirstEligible(cfg, st, c.value, st.transactions[t], now)])
  }

  function Chose(cfg: Config, st: State, t: nat, force: bool, now: nat): State
    requires cfg.rbSize >= 1 && t < |st.transactions|
  {
    var c := Choice(cfg, st, t, now);
    if c.None? then st else Scheduled(cfg, st, t, c.value, force, now)
  }

  lemma {:induction false} FirstEligibleBefore(cfg: Config, st: State, sel: Selector, queue: seq<Req>, now: nat, i: nat)
    requires cfg.rbSize >= 1 && i < |queue| && Eligible(cfg, st, sel, queue[i], now)
    ensures FirstEligible(cfg, st, sel, queue, now) <= i
    decreases |queue|
  {
    if i > 0 && !Eligible(cfg, st, sel, queue[0], now) {
      FirstEligibleBefore(cfg, st, sel, queue[1..], now, i - 1);
    }
  }

  // What is selected hits the open row exactly when it was selected as a hit: the later selectors, which
  // do not look at the row, never come across one.
  lemma HitsAreChosenAsHits(cfg: Config, st: State, t: nat, now: nat)
    requires cfg.rbSize >= 1 && t < |st.transactions| && Choice(cfg, st, t, now).Some?
    ensures var r := Selected(cfg, st, t, now).value;
      Choice(cfg, st, t, now) == Some(RowBufferHit) <==>
      BankOf(r.addr) in st.pred.activateQueued && !Misses(cfg, st.pred, r.addr)
  {
    var c := Choice(cfg, st, t, now).value;
    var queue := st.transactions[t];
    var i := FirstEligible(cfg, st, c, queue, now);
    if c == OldestReady && !Misses(cfg, st.pred, queue[i].addr) {
      FirstEligibleBefore(cfg, st, RowBufferHit, queue, now, i);
      assert false;
    }
  }

  // What a selector takes out of transaction queue t.
  function TakenBy(cfg: Config, st: State, t: nat, sel: Selector, now: nat): Req
    requires cfg.rbSize >= 1 && t < |st.transactions| && Finds(cfg, st, t, sel, now)
  {
    var queue := st.transactions[t];
    var i := FirstEligible(cfg, st, sel, queue, now);
    queue[i].(last := queue[i].last || IsLastRequest(cfg, Removed(queue, i), queue[i]))
  }

  function LeftBy(cfg: Config, st: State, t: nat, sel: Selector, now: nat): State
    requires cfg.rbSize >= 1 && t < |st.transactions| && Finds(cfg, st, t, sel, now)
  {
    var queue := st.transactions[t];
    st.(transactions := st.transactions[t := Removed(queue, FirstEligible(cfg, st, sel, queue, now))])
  }

  // Scheduling is taking the request out and queueing its commands.
  lemma ScheduledInTwoSteps(cfg: Config, st: State, t: nat, sel: Selector, force: bool, now: nat)
    requires GoodConfig(cfg) && t < |st.transactions| && Finds(cfg, st, t, sel, now)
    ensures var r := TakenBy(cfg, st, t, sel, now);
      Scheduled(cfg, st, t, sel, force, now) ==
      MemoryCommandsIssued(cfg, LeftBy(cfg, st, t, sel, now), r.(forced := r.forced || force))
  {
  }

  // ----- Bounded overtaking -----

  // A scheduling cycle of the controller, or anything else that goes on around it.
  datatype Act = Cycle(now: nat) | Other(move: Move, now: nat) | CleanUp

  function Acted(cfg: Config, w: World, a: Act): World
    requires GoodConfig(cfg)
  {
    match a
    case Cycle(now) => if |w.st.transactions| > 0 then w.(st := Chose(cfg, w.st, 0, false, now)) else w
    case Other(m, now) => if m.Schedule? then w else Moved(cfg, w, m, now)
    case CleanUp => CleanedUp(w)
  }

  predicate SelectsAt(cfg: Config, w: World, a: Act, s: SubId)
    requires GoodConfig(cfg)
  {
    a.Cycle? && |w.st.transactions| > 0 && var r := Selected(cfg, w.st, 0, a.now); r.Some? && SubOf(r.value.addr) == s
  }

  predicate HitsAt(cfg: Config, w: World, a: Act, s: SubId)
    requires GoodConfig(cfg)
  {
    SelectsAt(cfg, w, a, s) && Choice(cfg, w.st, 0, a.now) == Some(RowBufferHit)
  }

  // Row hits scheduled to the subarray over the run.
  function HitCount(cfg: Config, w: World, acts: seq<Act>, s: SubId): nat
    requires GoodConfig(cfg)
    decreases |acts|
  {
    if acts == [] then 0
    else One(HitsAt(cfg, w, acts[0], s)) + HitCount(cfg, Acted(cfg, w, acts[0]), acts[1..], s)
  }

  // Over the run, only row hits are scheduled to the subarray, and every cycle is past the request's arrival.
  predicate OnlyHits(cfg: Config, w: World, acts: seq<Act>, s: SubId, arrival: nat)
    requires GoodConfig(cfg)
    decreases |acts|
  {
    acts == [] ||
    (&& (SelectsAt(cfg, w, acts[0], s) ==> HitsAt(cfg, w, acts[0], s))
     && (acts[0].Cycle? ==> acts[0].now != arrival)
     && OnlyHits(cfg, Acted(cfg, w, acts[0]), acts[1..], s, arrival))
  }

  // The request waits in the transaction queue and misses the row its subarray is predicted to hold.
  predicate Waits(cfg: Config, w: World, r: Req)
    requires cfg.rbSize >= 1
  {
    |w.st.transactions| > 0 && r in w.st.transactions[0] && Misses(cfg, w.st.pred, r.addr)
  }

  // A hit cannot be scheduled past a request that has starved.
  lemma NoHitPastStarved(cfg: Config, w: World, now: nat, r: Req)
    requires GoodConfig(cfg) && Waits(cfg, w, r) && now != r.arrival
    requires Starvation(w.st, SubOf(r.addr)) >= cfg.starvationThreshold
    ensures !HitsAt(cfg, w, Cycle(now), SubOf(r.addr))
  {
    var queue := w.st.transactions[0];
    var i :| 0 <= i < |queue| && queue[i] == r;
    if HitsAt(cfg, w, Cycle(now), SubOf(r.addr)) {
      var j := FirstEligible(cfg, w.st, RowBufferHit, queue, now);
      assert BankOf(queue[j].addr) == BankOf(r.addr);
      FirstEligibleBefore(cfg, w.st, Starved, queue, now, i);
      assert false;
    }
  }

  lemma {:induction false} MissKept(cfg: Config, l: Lines, p: Prediction, g: Group, n: nat, a: Address)
    requires cfg.rbSize >= 1 && Misses(cfg, p, a)
    ensures Misses(cfg, ClosedForRefresh(cfg, l, p, g, n).1, a)
  {
    if n > 0 {
      MissKept(cfg, l, p, g, n - 1, a);
    }
  }

  // Commands for another subarray, or for a hit, leave the request waiting and its miss a miss.
  lemma ScheduledLeavesMiss(cfg: Config, p: Prediction, r: Req, b: Branch, a: Address)
    requires GoodConfig(cfg) && Misses(cfg, p, a)
    requires SubOf(r.addr) == SubOf(a) ==> b == UseRow
    ensures Misses(cfg, PredictionAfter(cfg, p, r, b), a)
  {
  }

  lemma IssuedEffect(cfg: Config, st: State, r: Req, a: Address)
    requires GoodConfig(cfg) && Misses(cfg, st.pred, a) && BranchFor(cfg, st.lines, st.pred, r) != Reject
    requires SubOf(r.addr) == SubOf(a) ==> BranchFor(cfg, st.lines, st.pred, r) == UseRow
    ensures var st' := MemoryCommandsIssued(cfg, st, r);
      && Misses(cfg, st'.pred, a) && st'.transactions == st.transactions
      && Starvation(st', SubOf(a)) == Starvation(st, SubOf(a)) + One(SubOf(r.addr) == SubOf(a))
  {
    ScheduledLeavesMiss(cfg, st.pred, r, BranchFor(cfg, st.lines, st.pred, r), a);
    hide Misses, BranchFor, PredictionAfter, PushedAll;
  }

  // A request that is selected elsewhere, or as a hit, is not the one that waits.
  lemma AnotherIsTaken(cfg: Config, w: World, now: nat, r: Req, c: Selector)
    requires GoodConfig(cfg) && Waits(cfg, w, r) && Choice(cfg, w.st, 0, now) == Some(c)
    requires SelectsAt(cfg, w, Cycle(now), SubOf(r.addr)) ==> HitsAt(cfg, w, Cycle(now), SubOf(r.addr))
    ensures r in LeftBy(cfg, w.st, 0, c, now).transactions[0]
    ensures SubOf(TakenBy(cfg, w.st, 0, c, now).addr) == SubOf(r.addr) <==> HitsAt(cfg, w, Cycle(now), SubOf(r.addr))
  {
    HitsAreChosenAsHits(cfg, w.st, 0, now);
    hide Misses, Eligible, FirstEligible, IsLastRequest;
    var queue := w.st.transactions[0];
    var i := FirstEligible(cfg, w.st, c, queue, now);
    assert SubOf(queue[i].addr) == SubOf(r.addr) ==> SelectsAt(cfg, w, Cycle(now), SubOf(r.addr));
    assert queue[i] != r;
    OthersStay(queue, i, r);
  }

  lemma TakenBranch(cfg: Config, st: State, c: Selector, now: nat)
    requires GoodConfig(cfg) && |st.transactions| > 0 && Choice(cfg, st, 0, now) == Some(c)
    ensures var b := BranchFor(cfg, st.lines, st.pred, TakenBy(cfg, st, 0, c, now));
      b != Reject && (c == RowBufferHit ==> b == UseRow)
  {
  }

  // A cycle: a hit raises the counter by one; otherwise nothing changes for a subarray that is left alone.
  lemma CycleStep(cfg: Config, w: World, now: nat, r: Req)
    requires GoodConfig(cfg) && Waits(cfg, w, r)
    requires SelectsAt(cfg, w, Cycle(now), SubOf(r.addr)) ==> HitsAt(cfg, w, Cycle(now), SubOf(r.addr))
    ensures var w' := Acted(cfg, w, Cycle(now)); var s := SubOf(r.addr);
      && Waits(cfg, w', r)
      && Starvation(w'.st, s) == Starvation(w.st, s) + One(HitsAt(cfg, w, Cycle(now), s))
  {
    var c := Choice(cfg, w.st, 0, now);
    if c.Some? {
      AnotherIsTaken(cfg, w, now, r, c.value);
      TakenBranch(cfg, w.st, c.value, now);
      ScheduledInTwoSteps(cfg, w.st, 0, c.value, false, now);
      hide Misses, Eligible, TakenBy, Scheduled, MemoryCommandsIssued, BranchFor, FirstEligible;
      IssuedEffect(cfg, LeftBy(cfg, w.st, 0, c.value, now), TakenBy(cfg, w.st, 0, c.value, now), r.addr);
    }
  }

  lemma OthersStay<T>(queue: seq<T>, i: nat, x: T)
    requires i < |queue| && x in queue && x != queue[i]
    ensures x in Removed(queue, i)
  {
    var k :| 0 <= k < |queue| && queue[k] == x;
    assert Removed(queue, i)[if k < i then k else k - 1] == x;
  }

  lemma OtherStep(cfg: Config, w: World, a: Act, r: Req)
    requires GoodConfig(cfg) && Waits(cfg, w, r) && !a.Cycle?
    ensures Waits(cfg, Acted(cfg, w, a), r) && Acted(cfg, w, a).st.starvation == w.st.starvation
  {
    if a.Other? && a.move.HandleRefresh? {
      var g := RefreshAccounting.Chosen(cfg, w.st.refresh, 0, 0);
      if g.Some? {
        MissKept(cfg, w.st.lines, w.st.pred, g.value, cfg.banksPerRefresh, r.addr);
      }
    }
  }

  // However the run goes, at most starvationThreshold hits overtake a waiting miss on its subarray before
  // some request that is not a hit is scheduled there.
  lemma {:induction false} BoundedOvertaking(cfg: Config, w: World, acts: seq<Act>, r: Req)
    requires GoodConfig(cfg) && Waits(cfg, w, r) && OnlyHits(cfg, w, acts, SubOf(r.addr), r.arrival)
    ensures HitCount(cfg, w, acts, SubOf(r.addr)) <=
            if Starvation(w.st, SubOf(r.addr)) < cfg.starvationThreshold then
              cfg.starvationThreshold - Starvation(w.st, SubOf(r.addr))
            else 0
    decreases |acts|
  {
    hide Waits, HitsAt, SelectsAt, Acted;
    if acts != [] {
      var s := SubOf(r.addr);
      var a := acts[0];
      if a.Cycle? {
        CycleStep(cfg, w, a.now, r);
        if Starvation(w.st, s) >= cfg.starvationThreshold {
          NoHitPastStarved(cfg, w, a.now, r);
        }
      } else {
        OtherStep(cfg, w, a, r);
        NotACycle(cfg, w, a, s);
      }
      BoundedOvertaking(cfg, Acted(cfg, w, a), acts[1..], r);
    }
  }

  lemma NotACycle(cfg: Config, w: World, a: Act, s: SubId)
    requires GoodConfig(cfg) && !a.Cycle?
    ensures !HitsAt(cfg, w, a, s)
  {
  }

  // ----- The scheduler itself -----

  // Transactions are to addresses the memory has.
  ghost predicate AddressesOk(cfg: Config, st: State) {
    forall t, k :: 0 <= t < |st.transactions| && 0 <= k < |st.transactions[t]| ==>
      InRange(cfg, st.transactions[t][k].addr)
  }

  lemma TakingKeepsTransactions(cfg: Config, st: State, t: nat, sel: Selector, now: nat)
    requires GoodConfig(cfg) && t < |st.transactions| && Finds(cfg, st, t, sel, now) && AddressesOk(cfg, st)
    ensures AddressesOk(cfg, LeftBy(cfg, st, t, sel, now)) && InRange(cfg, TakenBy(cfg, st, t, sel, now).addr)
  {
    var queue := st.transactions[t];
    var i := FirstEligible(cfg, st, sel, queue, now);
    var st' := LeftBy(cfg, st, t, sel, now);
    assert InRange(cfg, queue[i].addr);
    forall u, k | 0 <= u < |st'.transactions| && 0 <= k < |st'.transactions[u]|
      ensures InRange(cfg, st'.transactions[u][k].addr)
    {
      if u == t {
        assert st'.transactions[u][k] == queue[if k < i then k else k + 1];
      } else {
        assert st'.transactions[u] == st.transactions[u];
      }
    }
  }

  // Handling refreshes leaves the transactions alone.
  lemma {:induction false} HandlingKeepsTransactions(cfg: Config, st: State, k: nat, now: nat)
    requires GoodConfig(cfg)
    ensures HandledTimes(cfg, st, k, now).transactions == st.transactions
    decreases k
  {
    var g := RefreshAccounting.Chosen(cfg, st.refresh, 0, 0);
    if k > 0 && g.Some? {
      HandlingKeepsTransactions(cfg, RefreshHandled(cfg, st, g.value, now), k - 1, now);
    }
  }

  // Only what a scheduler adds to the shared controller: which queue it looks at, in which order.
  method Select(mc: MemoryController, t: nat, now: nat) returns (next: Option<Req>)
    requires mc.Valid() && t < |mc.transactionQueues|
    modifies mc`transactionQueues
    ensures mc.Valid()
    ensures var st := old(mc.Model()); var c := Choice(mc.cfg, st, t, now);
      if c.None? then next.None? && mc.Model() == st
      else next == Some(TakenBy(mc.cfg, st, t, c.value, now)) && mc.Model() == LeftBy(mc.cfg, st, t, c.value, now)
  {
    hide Eligible, RefreshAccounting.RoundRobinOk, IsLastRequest, Removed;
    next := mc.FindRequest(t, Starved, now);
    if next.None? {
      next := mc.FindRequest(t, RowBufferHit, now);
      if next.None? {
        next := mc.FindRequest(t, OldestReady, now);
        if next.None? {
          next := mc.FindRequest(t, ClosedBankRequest, now);
        }
      }
    }
  }

  lemma TakenIsAccepted(cfg: Config, st: State, t: nat, sel: Selector, now: nat, forced: bool)
    requires GoodConfig(cfg) && t < |st.transactions| && Finds(cfg, st, t, sel, now)
    ensures BranchFor(cfg, st.lines, st.pred, TakenBy(cfg, st, t, sel, now).(forced := forced)) != Reject
  {
    var queue := st.transactions[t];
    var i := FirstEligible(cfg, st, sel, queue, now);
    hide Eligible, BranchFor;
    Conservation.SelectedIsAccepted(cfg, st, sel, queue[i], now, st.transactions,
                                    queue[i].last || IsLastRequest(cfg, Removed(queue, i), queue[i]), forced);
  }

  // Issue what was selected, if anything, send a command, and look again next cycle if something can start.
  method IssueAndCycle(mc: MemoryController, next: Option<Req>, takes: Cmd -> bool, issueAt: Cmd -> nat, now: nat)
    returns (ghost queued: State)
    requires mc.Valid() && (next.Some? ==> InRange(mc.cfg, next.value.addr))
    modifies mc
    ensures mc.Valid()
    ensures Progress(mc.cfg,
                     if next.Some? then MemoryCommandsIssued(mc.cfg, old(mc.Model()), next.value) else old(mc.Model()),
                     queued, now)
    ensures mc.Model() == Cycled(mc.cfg, queued, takes, now)
    ensures next.Some? && BranchFor(mc.cfg, old(mc.CommandLines()), old(mc.Pred()), next.value) != Reject ==>
              NoneForgotten(mc.cfg, queued.lines, issueAt, now, mc.scheduled)
    ensures LooksAgain(mc.cfg, mc.Model(), now, mc.scheduled)
  {
    hide RefreshAccounting.RoundRobinOk, Progress, MemoryCommandsIssued, Cycled, BranchFor, NoneForgotten, SomeMayStart;
    hide CycledWakes;
    if next.Some? {
      var rv := mc.IssueMemoryCommands(next.value, issueAt, now);
    } else {
      NoProgress(mc.cfg, mc.Model(), now);
    }
    queued := mc.Model();
    ghost var wakes := mc.scheduled;
    mc.CycleCommandQueues(takes, now);
    CycledWakesMore(mc.cfg, queued, takes, now, wakes);
    mc.Cycle(now);
    if NoneForgotten(mc.cfg, queued.lines, issueAt, now, wakes) {
      StillInTime(mc.cfg, queued.lines, issueAt, now, wakes, mc.scheduled);
    }
  }

  // If some queue could take a transaction, the transactions are looked at again in the next cycle.
  ghost predicate LooksAgain(cfg: Config, st: State, now: nat, scheduled: multiset<Wake>) {
    SomeMayStart(cfg, st.lines, st.transactions) ==> TransactionWake(now + 1) in scheduled
  }

  lemma CycledWakesMore(cfg: Config, st: State, takes: Cmd -> bool, now: nat, wakes: multiset<Wake>)
    ensures wakes <= CycledWakes(cfg, st, takes, now, wakes)
  {
    hide Available, NextToSend;
  }

  class FRFCFS {
    const mc: MemoryController
    const queueSize: nat

    ghost predicate Valid()
      reads this, mc
    {
      mc.Valid() && |mc.transactionQueues| == 1 && AddressesOk(mc.cfg, mc.Model())
    }

    constructor (config: Config, size: nat)
      requires GoodConfig(config)
      ensures Valid() && fresh(mc) && mc.Model() == Initial(1) && queueSize == size
    {
      mc := new MemoryController(config, 1);
      queueSize := size;
    }

    predicate IsIssuable()
      reads mc
      requires |mc.transactionQueues| == 1
    {
      |mc.transactionQueues[0]| < queueSize
    }

    // A new transaction waits behind the others, unless the queue is full; if its command queue is idle the
    // transactions are looked at in this very cycle.
    method IssueCommand(r: Req, now: nat) returns (ok: bool)
      requires Valid() && InRange(mc.cfg, r.addr)
      modifies mc
      ensures Valid() && ok == old(IsIssuable())
      ensures mc.Model() == if ok then
                old(mc.Model()).(transactions := [old(mc.transactionQueues)[0] + [r.(arrival := now)]])
              else old(mc.Model())
      ensures mc.scheduled == if ok && mc.EffectivelyEmpty(QueueId(mc.cfg, BankOf(r.addr))) then
                                Once(old(mc.scheduled), TransactionWake(now))
                              else old(mc.scheduled)
    {
      ok := IsIssuable();
      if ok {
        mc.Enqueue(0, r.(arrival := now), now);
      }
    }

    // A cancelled or paused write goes back to the head of the queue.
    method RequestComplete(r: Req, cancelledOrPaused: bool) returns (requeued: bool)
      requires Valid() && InRange(mc.cfg, r.addr)
      modifies mc
      ensures Valid() && requeued == (IsWrite(r.op) && cancelledOrPaused)
      ensures mc.Model() == if requeued then
                old(mc.Model()).(transactions := [[r] + old(mc.transactionQueues)[0]])
              else old(mc.Model())
    {
      requeued := IsWrite(r.op) && cancelledOrPaused;
      if requeued {
        mc.Prequeue(0, r);
      }
    }

    // Select one transaction, queue its commands, and send one command.
    method Cycle(takes: Cmd -> bool, issueAt: Cmd -> nat, now: nat) returns (ghost queued: State)
      requires Valid()
      modifies mc
      ensures Valid()
      ensures Progress(mc.cfg, Chose(mc.cfg, old(mc.Model()), 0, false, now), queued, now)
      ensures mc.Model() == Cycled(mc.cfg, queued, takes, now)
      ensures Choice(mc.cfg, old(mc.Model()), 0, now).Some? ==>
                NoneForgotten(mc.cfg, queued.lines, issueAt, now, mc.scheduled)
      ensures LooksAgain(mc.cfg, mc.Model(), now, mc.scheduled)
    {
      hide LooksAgain, NoneForgotten, BranchFor;
      hide RefreshAccounting.RoundRobinOk, Eligible, MemoryCommandsIssued, Scheduled, FirstEligible, IsLastRequest,
          TakenBy;
      hide Progress, LeftBy;
      ghost var st := mc.Model();
      var c := Choice(mc.cfg, mc.Model(), 0, now);
      if c.Some? {
        TakingKeepsTransactions(mc.cfg, st, 0, c.value, now);
        ScheduledInTwoSteps(mc.cfg, st, 0, c.value, false, now);
        TakenIsAccepted(mc.cfg, st, 0, c.value, now, TakenBy(mc.cfg, st, 0, c.value, now).forced);
      }
      var next := Select(mc, 0, now);
      queued := IssueAndCycle(mc, next, takes, issueAt, now);
      KeptTransactions(mc.cfg, st, 0, false, queued, takes, now);
    }
  }

  lemma ChoseKeepsTransactions(cfg: Config, st: State, t: nat, force: bool, now: nat)
    requires GoodConfig(cfg) && AddressesOk(cfg, st) && t < |st.transactions|
    ensures AddressesOk(cfg, Chose(cfg, st, t, force, now))
    ensures |Chose(cfg, st, t, force, now).transactions| == |st.transactions|
  {
    hide Eligible, MemoryCommandsIssued, Scheduled, TakenBy;
    var c := Choice(cfg, st, t, now);
    if c.Some? {
      TakingKeepsTransactions(cfg, st, t, c.value, now);
      ScheduledInTwoSteps(cfg, st, t, c.value, force, now);
      var r := TakenBy(cfg, st, t, c.value, now);
      IssuingKeepsTransactions(cfg, LeftBy(cfg, st, t, c.value, now), r.(forced := r.forced || force));
    }
  }

  lemma IssuingKeepsTransactions(cfg: Config, st: State, r: Req)
    requires cfg.rbSize >= 1
    ensures MemoryCommandsIssued(cfg, st, r).transactions == st.transactions
  {
  }

  lemma KeptTransactions(cfg: Config, st: State, t: nat, force: bool, queued: State, takes: Cmd -> bool, now: nat)
    requires GoodConfig(cfg) && AddressesOk(cfg, st) && t < |st.transactions|
    requires Progress(cfg, Chose(cfg, st, t, force, now), queued, now)
    ensures AddressesOk(cfg, Cycled(cfg, queued, takes, now))
    ensures |Cycled(cfg, queued, takes, now).transactions| == |st.transactions|
    ensures Cycled(cfg, queued, takes, now).transactions == Chose(cfg, st, t, force, now).transactions
  {
    hide Chose, HandledTimes, TotalDelayed, NextToSend;
    var chosen := Chose(cfg, st, t, force, now);
    var k := TotalDelayed(cfg, chosen.refresh) - TotalDelayed(cfg, queued.refresh);
    HandlingKeepsTransactions(cfg, chosen, k, now);
    ChoseKeepsTransactions(cfg, st, t, force, now);
  }
}
