/**
  The write-queue-first scheduler: reads and writes wait in separate queues, and writes are only scheduled
  while the write queue is being drained, all of them forced.  Hence no write comes back cancelled or paused,
  the write queue stays within its size, and a drain never makes it longer.
*/
module WriteDrain {
  import opened Device
  import opened Controller
  import opened Coherence
  import opened ControllerRuns
  import opened FRFCFSScheduling
  import opened MemoryControllers
  import RefreshAccounting

  const READS: nat := 0
  const WRITES: nat := 1

  datatype Params = Params(readQueueSize: nat, writeQueueSize: nat, high: nat, low: nat)

  // ----- The watermarks -----

  // The marks a configuration asks for, checked against the queue size and each other; the second check
  // is skipped when the first one fails.
  function Checked(p: Params): Params {
    if p.high > p.writeQueueSize then p.(high := p.writeQueueSize)
    else if p.low > p.high then p.(low := 0)
    else p
  }

  // The low mark ends up above the high one exactly when both were configured above the queue size.
  lemma MarksOrderedIff(p: Params)
    ensures Checked(p).high <= p.writeQueueSize
    ensures Checked(p).low <= Checked(p).high <==> !(p.high > p.writeQueueSize && p.low > p.writeQueueSize)
  {
  }

  // ----- The scheduler as a state machine -----

  datatype Drainer = Drainer(w: World, draining: bool, forceDrain: bool)

  datatype Act =
    | Issue(r: Req, now: nat)
    | Cycle(now: nat)
    | Drain
    // The i-th command issued completes; `flagged` means cancelled or paused.
    | Return(i: nat, flagged: bool)
    | Other(move: Move, now: nat)
    | CleanUp

  predicate Issuable(p: Params, d: Drainer, op: Op)
    requires |d.w.st.transactions| == 2
  {
    && (op == READ ==> |d.w.st.transactions[READS]| < p.readQueueSize)
    && (op == WRITE ==> |d.w.st.transactions[WRITES]| < p.writeQueueSize && !d.draining && !d.forceDrain)
  }

  function ModeAfter(p: Params, d: Drainer): bool
    requires |d.w.st.transactions| == 2
  {
    if d.forceDrain then d.draining
    else if d.draining then |d.w.st.transactions[WRITES]| > p.low
    else |d.w.st.transactions[WRITES]| >= p.high
  }

  // The queue that is looked at.
  function Side(st: State, draining: bool, forceDrain: bool): nat
    requires |st.transactions| == 2
  {
    if draining || (forceDrain && st.transactions[READS] == []) then WRITES else READS
  }

  function DrainCycled(cfg: Config, p: Params, d: Drainer, now: nat): Drainer
    requires GoodConfig(cfg) && |d.w.st.transactions| == 2
  {
    var draining := ModeAfter(p, d);
    d.(draining := draining,
       w := d.w.(st := Chose(cfg, d.w.st, Side(d.w.st, draining, d.forceDrain), draining || d.forceDrain, now)))
  }

  // The device returns a write cancelled or paused only if it was not forced.
  predicate MayReturn(d: Drainer, i: nat) {
    && i < |d.w.log|
    && var c := d.w.log[i].cmd; IsWrite(c.op) && c.req.Some? && !c.req.value.forced
  }

  // There are two queues from the start, and nothing changes that.
  function Acted(cfg: Config, p: Params, d: Drainer, a: Act): Drainer
    requires GoodConfig(cfg)
  {
    if |d.w.st.transactions| != 2 then d else
    match a
    case Issue(r, now) =>
      if Issuable(p, d, r.op) then
        d.(w := Moved(cfg, d.w, Accept(if r.op == READ then READS else WRITES, r.(arrival := now), false), now))
      else d
    case Cycle(now) => DrainCycled(cfg, p, d, now)
    case Drain => d.(forceDrain := true)
    case Return(i, flagged) =>
      if flagged && MayReturn(d, i) then
        d.(w := d.w.(st := d.w.st.(transactions :=
             d.w.st.transactions[WRITES := [d.w.log[i].cmd.req.value] + d.w.st.transactions[WRITES]])))
      else d
    case Other(m, now) => if m.Accept? || m.Schedule? then d else d.(w := Moved(cfg, d.w, m, now))
    case CleanUp => d.(w := CleanedUp(d.w))
  }

  // ----- What every run keeps -----

  predicate ForcedWrite(c: Cmd) { IsWrite(c.op) ==> c.req.Some? && c.req.value.forced }

  ghost predicate WritesForced(l: Lines) {
    forall q, c :: c in QueueAt(l, q) ==> ForcedWrite(c)
  }

  ghost predicate LogForced(log: seq<Issue>) {
    forall i :: 0 <= i < |log| ==> ForcedWrite(log[i].cmd)
  }

  ghost predicate Sorted(st: State) {
    && |st.transactions| == 2
    && (forall r :: r in st.transactions[READS] ==> r.op == READ)
    && (forall r :: r in st.transactions[WRITES] ==> r.op == WRITE)
  }

  ghost predicate Draining(p: Params, d: Drainer) {
    && Sorted(d.w.st) && |d.w.st.transactions[WRITES]| <= p.writeQueueSize
    && WritesForced(d.w.st.lines) && LogForced(d.w.log)
  }

  lemma PushedForced(l: Lines, q: nat, c: Cmd)
    requires WritesForced(l) && ForcedWrite(c)
    ensures WritesForced(Pushed(l, q, c))
  {
    var l' := Pushed(l, q, c);
    forall p, d | d in QueueAt(l', p) ensures ForcedWrite(d) {
      assert d in QueueAt(l, p) || d == c.(tag := l.nextTag);
    }
  }

  lemma {:induction false} PushedAllForced(l: Lines, q: nat, cmds: seq<Cmd>)
    requires WritesForced(l) && forall c :: c in cmds ==> ForcedWrite(c)
    ensures WritesForced(PushedAll(l, q, cmds))
    decreases |cmds|
  {
    hide WritesForced;
    if cmds != [] {
      assert cmds[0] in cmds && forall c :: c in cmds[1..] ==> c in cmds;
      PushedForced(l, q, cmds[0]);
      PushedAllForced(Pushed(l, q, cmds[0]), q, cmds[1..]);
    }
  }

  lemma {:induction false} ClosedForRefreshForced(cfg: Config, l: Lines, p: Prediction, g: Group, n: nat)
    requires WritesForced(l)
    ensures WritesForced(ClosedForRefresh(cfg, l, p, g, n).0)
  {
    hide WritesForced;
    if n > 0 {
      ClosedForRefreshForced(cfg, l, p, g, n - 1);
      var b := BankId(g.rank, g.index * cfg.banksPerRefresh + (n - 1));
      PushedForced(ClosedForRefresh(cfg, l, p, g, n - 1).0, QueueId(cfg, b), PrechargeAllCmd(b));
    }
  }

  // A read, or a write with the flag, only brings forced writes into the command queues.
  lemma IssuedForced(cfg: Config, st: State, r: Req)
    requires GoodConfig(cfg) && WritesForced(st.lines) && (r.op == READ || (r.op == WRITE && r.forced))
    ensures WritesForced(MemoryCommandsIssued(cfg, st, r).lines)
    ensures MemoryCommandsIssued(cfg, st, r).transactions == st.transactions
  {
    var b := BranchFor(cfg, st.lines, st.pred, r);
    var cmds := CommandsFor(cfg, st.pred, r, b);
    assert forall c :: c in cmds ==> ForcedWrite(c);
    hide WritesForced, PushedAll, CommandsFor, PredictionAfter, Misses;
    PushedAllForced(st.lines, QueueId(cfg, BankOf(r.addr)), cmds);
  }

  // Taking a request leaves the queues sorted, and the queue it came from shorter.
  lemma TakenKeepsSorted(cfg: Config, st: State, t: nat, sel: Selector, now: nat)
    requires cfg.rbSize >= 1 && Sorted(st) && t < 2 && Finds(cfg, st, t, sel, now)
    ensures Sorted(LeftBy(cfg, st, t, sel, now))
    ensures |LeftBy(cfg, st, t, sel, now).transactions[WRITES]| <= |st.transactions[WRITES]|
    ensures TakenBy(cfg, st, t, sel, now).op == if t == READS then READ else WRITE
  {
    hide Eligible, FirstEligible, IsLastRequest;
    var queue := st.transactions[t];
    var i := FirstEligible(cfg, st, sel, queue, now);
    assert queue[i] in queue;
    RemovedSubset(queue, i);
  }

  // A cycle takes from one queue, and if that is the write queue the flag is set.
  lemma CycleKeeps(cfg: Config, p: Params, d: Drainer, now: nat)
    requires GoodConfig(cfg) && Draining(p, d)
    ensures Draining(p, DrainCycled(cfg, p, d, now))
    ensures |DrainCycled(cfg, p, d, now).w.st.transactions[WRITES]| <= |d.w.st.transactions[WRITES]|
  {
    hide Eligible, FirstEligible, TakenBy, MemoryCommandsIssued, Scheduled, WritesForced, IsLastRequest, Sorted;
    assert |d.w.st.transactions| == 2 by {
      TwoQueues(d.w.st);
    }
    var draining := ModeAfter(p, d);
    var t := Side(d.w.st, draining, d.forceDrain);
    var force := draining || d.forceDrain;
    var c := Choice(cfg, d.w.st, t, now);
    if c.Some? {
      ScheduledInTwoSteps(cfg, d.w.st, t, c.value, force, now);
      TakenKeepsSorted(cfg, d.w.st, t, c.value, now);
      var r := TakenBy(cfg, d.w.st, t, c.value, now);
      var left := LeftBy(cfg, d.w.st, t, c.value, now);
      IssuedForced(cfg, left, r.(forced := r.forced || force));
      SortedSame(left, MemoryCommandsIssued(cfg, left, r.(forced := r.forced || force)));
    }
  }

  lemma TwoQueues(st: State)
    requires Sorted(st)
    ensures |st.transactions| == 2
  {
  }

  lemma SortedSame(st: State, st': State)
    requires Sorted(st) && st'.transactions == st.transactions
    ensures Sorted(st')
  {
  }

  lemma RemovedSubset<T>(queue: seq<T>, i: nat)
    requires i < |queue|
    ensures |Removed(queue, i)| < |queue| && forall x :: x in Removed(queue, i) ==> x in queue
  {
  }

  lemma OtherKeeps(cfg: Config, p: Params, d: Drainer, m: Move, now: nat)
    requires GoodConfig(cfg) && Draining(p, d) && !m.Accept? && !m.Schedule?
    ensures Draining(p, d.(w := Moved(cfg, d.w, m, now)))
    ensures Moved(cfg, d.w, m, now).st.transactions == d.w.st.transactions
  {
    match m
    case Pulse(g) =>
    case HandleRefresh =>
      var g := RefreshAccounting.Chosen(cfg, d.w.st.refresh, 0, 0);
      if g.Some? {
        ClosedForRefreshForced(cfg, d.w.st.lines, d.w.st.pred, g.value, cfg.banksPerRefresh);
        PushedForced(ClosedForRefresh(cfg, d.w.st.lines, d.w.st.pred, g.value, cfg.banksPerRefresh).0,
                     QueueId(cfg, GroupHead(cfg, g.value)), RefreshCmd(GroupHead(cfg, g.value)));
      }
    case Send(q) =>
      if CanSend(cfg, d.w, q, now) {
        SendKeeps(cfg, d.w, q, now);
      }
    case Complete(id) =>
  }

  lemma SendKeeps(cfg: Config, w: World, q: nat, now: nat)
    requires GoodConfig(cfg) && WritesForced(w.st.lines) && LogForced(w.log) && QueueAt(w.st.lines, q) != []
    ensures WritesForced(Launched(cfg, w, q, now).st.lines) && LogForced(Launched(cfg, w, q, now).log)
  {
    var l := w.st.lines;
    var c := QueueAt(l, q)[0];
    assert c in QueueAt(l, q);
    forall p, d | d in QueueAt(HeadIssued(l, q), p) ensures ForcedWrite(d) {
      assert ForcedWrite(c) && ForcedWrite(c.(issued := true));
      assert d in QueueAt(l, p) || d == c.(issued := true);
    }
  }

  lemma CleanUpKeeps(p: Params, d: Drainer)
    requires Draining(p, d)
    ensures Draining(p, d.(w := CleanedUp(d.w)))
  {
    forall q, c | c in QueueAt(Cleaned(d.w.st.lines), q) ensures ForcedWrite(c) {
      UnissuedWithin(QueueAt(d.w.st.lines, q));
      assert QueueAt(Cleaned(d.w.st.lines), q) == Unissued(QueueAt(d.w.st.lines, q));
    }
  }

  // Every act keeps the invariant; and while a drain is on, none makes the write queue longer.
  lemma ActKeeps(cfg: Config, p: Params, d: Drainer, a: Act)
    requires GoodConfig(cfg) && Draining(p, d)
    ensures Draining(p, Acted(cfg, p, d, a))
    ensures d.draining || d.forceDrain ==>
              |Acted(cfg, p, d, a).w.st.transactions[WRITES]| <= |d.w.st.transactions[WRITES]|
    ensures d.forceDrain ==> Acted(cfg, p, d, a).forceDrain
  {
    match a
    case Issue(r, now) =>
    case Cycle(now) => CycleKeeps(cfg, p, d, now);
    case Drain =>
    case Return(i, flagged) =>
      // A logged write is forced, so none may come back.
      if i < |d.w.log| {
        assert ForcedWrite(d.w.log[i].cmd);
      }
    case Other(m, now) =>
      if !m.Accept? && !m.Schedule? {
        OtherKeeps(cfg, p, d, m, now);
      }
    case CleanUp => CleanUpKeeps(p, d);
  }

  function ActedAll(cfg: Config, p: Params, acts: seq<Act>): Drainer
    requires GoodConfig(cfg)
  {
    if acts == [] then Drainer(Start(2), false, false)
    else Acted(cfg, p, ActedAll(cfg, p, acts[..|acts| - 1]), acts[|acts| - 1])
  }

  lemma {:induction false} RunsDrain(cfg: Config, p: Params, acts: seq<Act>)
    requires GoodConfig(cfg)
    ensures Draining(p, ActedAll(cfg, p, acts))
  {
    hide Acted, Draining;
    if acts == [] {
      StartsDrained(p);
    } else {
      RunsDrain(cfg, p, acts[..|acts| - 1]);
      ActKeeps(cfg, p, ActedAll(cfg, p, acts[..|acts| - 1]), acts[|acts| - 1]);
    }
  }

  lemma StartsDrained(p: Params)
    ensures Draining(p, Drainer(Start(2), false, false))
  {
    assert Start(2).st.transactions == [[], []];
  }

  // Over any run: the write queue keeps within its size, every write issued was forced, none can come back
  // cancelled or paused, and from any point on at which a drain is on the next act does not lengthen the queue.
  lemma DrainsAreClean(cfg: Config, p: Params, acts: seq<Act>, a: Act)
    requires GoodConfig(cfg)
    ensures var d := ActedAll(cfg, p, acts); var d' := Acted(cfg, p, d, a);
      && Sorted(d.w.st) && Sorted(d'.w.st)
      && |d.w.st.transactions[WRITES]| <= p.writeQueueSize
      && LogForced(d.w.log)
      && (forall i: nat :: !MayReturn(d, i))
      && (d.draining || d.forceDrain ==> |d'.w.st.transactions[WRITES]| <= |d.w.st.transactions[WRITES]|)
  {
    hide Acted;
    RunsDrain(cfg, p, acts);
    var d := ActedAll(cfg, p, acts);
    ActKeeps(cfg, p, d, a);
    forall i: nat | i < |d.w.log| ensures ForcedWrite(d.w.log[i].cmd) {
    }
  }

  // ----- The scheduler itself -----

  class FRFCFS_WQF {
    const mc: MemoryController
    var params: Params
    var draining: bool
    var forceDrain: bool

    ghost predicate Valid()
      reads this, mc
    {
      mc.Valid() && |mc.transactionQueues| == 2 && AddressesOk(mc.cfg, mc.Model())
    }

    // The defaults; the marks are those of the default queue size.
    constructor (config: Config, size: nat)
      requires GoodConfig(config)
      ensures Valid() && fresh(mc) && mc.Model() == Initial(2)
      ensures params == Params(size, size, size, 0) && !draining && !forceDrain
    {
      mc := new MemoryController(config, 2);
      params := Params(size, size, size, 0);
      draining, forceDrain := false, false;
    }

    method SetConfig(readSize: Option<nat>, writeSize: Option<nat>, high: Option<nat>, low: Option<nat>)
      modifies this`params
      ensures params == Checked(Params(if readSize.Some? then readSize.value else old(params).readQueueSize,
                                       if writeSize.Some? then writeSize.value else old(params).writeQueueSize,
                                       if high.Some? then high.value else old(params).high,
                                       if low.Some? then low.value else old(params).low))
    {
      if readSize.Some? {
        params := params.(readQueueSize := readSize.value);
      }
      if writeSize.Some? {
        params := params.(writeQueueSize := writeSize.value);
      }
      if high.Some? {
        params := params.(high := high.value);
      }
      if low.Some? {
        params := params.(low := low.value);
      }
      if params.high > params.writeQueueSize {
        params := params.(high := params.writeQueueSize);
      } else if params.low > params.high {
        params := params.(low := 0);
      }
    }

    predicate IsIssuable(op: Op)
      requires |mc.transactionQueues| == 2
      reads this, mc
    {
      !((op == READ && |mc.transactionQueues[READS]| >= params.readQueueSize)
        || (op == WRITE && (|mc.transactionQueues[WRITES]| >= params.writeQueueSize || draining || forceDrain)))
    }

    method IssueCommand(r: Req, now: nat) returns (ok: bool)
      requires Valid() && InRange(mc.cfg, r.addr)
      modifies mc
      ensures Valid() && ok == (old(IsIssuable(r.op)) && (r.op == READ || r.op == WRITE))
      ensures var t := if r.op == READ then READS else WRITES;
        mc.Model() == if ok then
          old(mc.Model()).(transactions :=
            old(mc.transactionQueues)[t := old(mc.transactionQueues)[t] + [r.(arrival := now)]])
        else old(mc.Model())
      ensures mc.scheduled == if ok && mc.EffectivelyEmpty(QueueId(mc.cfg, BankOf(r.addr))) then
                                Once(old(mc.scheduled), TransactionWake(now))
                              else old(mc.scheduled)
    {
      if !IsIssuable(r.op) {
        return false;
      }
      if r.op == READ {
        mc.Enqueue(READS, r.(arrival := now), now);
        ok := true;
      } else if r.op == WRITE {
        mc.Enqueue(WRITES, r.(arrival := now), now);
        ok := true;
      } else {
        ok := false;
      }
    }

    method RequestComplete(r: Req, cancelledOrPaused: bool) returns (requeued: bool)
      requires Valid() && InRange(mc.cfg, r.addr)
      modifies mc
      ensures Valid() && requeued == (IsWrite(r.op) && cancelledOrPaused)
      ensures mc.Model() == if requeued then
                old(mc.Model()).(transactions :=
                  old(mc.transactionQueues)[WRITES := [r] + old(mc.transactionQueues)[WRITES]])
              else old(mc.Model())
    {
      requeued := IsWrite(r.op) && cancelledOrPaused;
      if requeued {
        mc.Prequeue(WRITES, r);
      }
    }

    // Switch between reading and draining, select from the queue in turn, and send a command.
    method Cycle(takes: Cmd -> bool, issueAt: Cmd -> nat, now: nat) returns (ghost queued: State)
      requires Valid()
      modifies mc, this`draining
      ensures Valid()
      ensures var before := Drainer(Start(2).(st := old(mc.Model())), old(draining), old(forceDrain));
        var after := DrainCycled(mc.cfg, params, before, now);
        && draining == after.draining && forceDrain == after.forceDrain
        && Progress(mc.cfg, after.w.st, queued, now)
      ensures mc.Model() == Cycled(mc.cfg, queued, takes, now)
      ensures LooksAgain(mc.cfg, mc.Model(), now, mc.scheduled)
    {
      hide LooksAgain, NoneForgotten, BranchFor;
      hide RefreshAccounting.RoundRobinOk, Eligible, MemoryCommandsIssued, Scheduled, FirstEligible, IsLastRequest,
          TakenBy;
      hide Progress, LeftBy, Initial, TotalDelayed, Cycled, RefreshAccounting.PointersOk, Finds;
      ghost var st := mc.Model();
      if !draining && |mc.transactionQueues[WRITES]| >= params.high && !forceDrain {
        draining := true;
      } else if draining && |mc.transactionQueues[WRITES]| <= params.low && !forceDrain {
        draining := false;
      }
      var t := if draining || (forceDrain && |mc.transactionQueues[READS]| == 0) then WRITES else READS;
      var force := draining || forceDrain;
      var c := Choice(mc.cfg, mc.Model(), t, now);
      if c.Some? {
        TakingKeepsTransactions(mc.cfg, st, t, c.value, now);
        ScheduledInTwoSteps(mc.cfg, st, t, c.value, force, now);
      }
      var next := Select(mc, t, now);
      if next.Some? && force {
        next := Some(next.value.(forced := true));
      }
      queued := IssueAndCycle(mc, next, takes, issueAt, now);
      KeptTransactions(mc.cfg, st, t, force, queued, takes, now);
    }

    method Drain()
      modifies this`forceDrain
      ensures forceDrain
    {
      forceDrain := true;
    }
  }
}
