/**
  The controller against the device: every move of a run keeps prediction coherence, request conservation,
  refresh accounting and the order of each command queue.
*/
module ControllerRuns {
  import opened Arithmetic
  import opened Device
  import opened Controller
  import opened Coherence
  import opened Conservation
  import opened RefreshAccounting

  datatype Issue = Issue(at: nat, cmd: Cmd)

  // REFRESH commands of a group entering the queue and leaving it.
  datatype RefreshEvent = Queued(group: Group) | Gone(group: Group)

  // The controller, the rows the device holds, everything issued so far, and where requests are.
  datatype World = World(
    st: State, rows: map<SubId, Row>, log: seq<Issue>, accepted: set<nat>, flight: set<nat>, done: set<nat>,
    pulses: map<Group, nat>, history: seq<RefreshEvent>)

  datatype Move =
    | Accept(t: nat, r: Req, front: bool)
    | Schedule(t: nat, i: nat, sel: Selector, force: bool)
    | Pulse(g: Group)
    | HandleRefresh
    | Send(q: nat)
    | Complete(id: nat)

  function LogCmds(log: seq<Issue>): seq<Cmd> {
    if log == [] then [] else LogCmds(log[..|log| - 1]) + [log[|log| - 1].cmd]
  }

  function Pulses(w: World, g: Group): nat {
    if g in w.pulses then w.pulses[g] else 0
  }

  // The rank takes a REFRESH only once the subarray it names is closed in every bank of the group; that this
  // is what the device does is `DeviceRuns.TakenIsAllowed`.
  predicate RankAllows(cfg: Config, rows: map<SubId, Row>, c: Cmd)
    requires cfg.banksPerRefresh >= 1
  {
    c.op == REFRESH ==> forall s :: s in rows && Hits(cfg, c, s) ==> rows[s] == Closed
  }

  predicate CanSend(cfg: Config, w: World, q: nat, now: nat)
    requires cfg.banksPerRefresh >= 1
  {
    && q < QueueCount(cfg) && QueueAt(w.st.lines, q) != []
    && w.st.lastIssueCycle != now && w.st.handledRefresh != Some(now)
    && RankAllows(cfg, w.rows, QueueAt(w.st.lines, q)[0])
  }

  function Launched(cfg: Config, w: World, q: nat, now: nat): World
    requires cfg.banksPerRefresh >= 1 && QueueAt(w.st.lines, q) != []
  {
    var c := QueueAt(w.st.lines, q)[0];
    w.(st := Sent(cfg, w.st, q, now), rows := DeviceStep(cfg, w.rows, c), log := w.log + [Issue(now, c)],
       flight := w.flight + (if c.req.Some? then {c.req.value.id} else {}),
       history := if c.op == REFRESH then w.history + [Gone(GroupOf(cfg, BankOf(c.addr)))] else w.history)
  }

  // The request of the last command issued, if that was in this cycle.
  predicate IssuedNow(w: World, id: nat, now: nat) {
    && w.log != []
    && var last := w.log[|w.log| - 1];
       last.at == now && last.cmd.req.Some? && last.cmd.req.value.id == id
  }

  // A move that its guard does not allow changes nothing.
  function Moved(cfg: Config, w: World, m: Move, now: nat): World
    requires GoodConfig(cfg)
  {
    match m
    case Accept(t, r, front) =>
      if t < |w.st.transactions| && RequestOk(cfg, r) && r.id !in w.accepted then
        var queue := w.st.transactions[t];
        w.(st := w.st.(transactions := w.st.transactions[t := if front then [r] + queue else queue + [r]]),
           accepted := w.accepted + {r.id})
      else w
    case Schedule(t, i, sel, force) => w.(st := ScheduledAt(cfg, w.st, t, i, sel, force, now))
    case Pulse(g) =>
      if GroupInRange(cfg, g) then
        w.(st := w.st.(refresh := PulsedRefresh(cfg, w.st.refresh, g)), pulses := w.pulses[g := Pulses(w, g) + 1])
      else w
    case HandleRefresh =>
      var g := Chosen(cfg, w.st.refresh, 0, 0);
      if g.Some? then
        w.(st := RefreshHandled(cfg, w.st, g.value, now), history := w.history + [Queued(g.value)])
      else w
    case Send(q) => if CanSend(cfg, w, q, now) then Launched(cfg, w, q, now) else w
    case Complete(id) =>
      if id in w.flight && !IssuedNow(w, id, now) then w.(flight := w.flight - {id}, done := w.done + {id}) else w
  }

  function CleanedUp(w: World): World {
    w.(st := w.st.(lines := Cleaned(w.st.lines)))
  }

  function Start(queues: nat): World {
    World(Initial(queues), map[], [], {}, {}, {}, map[], [])
  }

  // The command a Send move issues has not been issued before.
  predicate HeadFresh(cfg: Config, w: World, m: Move, now: nat)
    requires cfg.banksPerRefresh >= 1
  {
    m.Send? && CanSend(cfg, w, m.q, now) ==> !QueueAt(w.st.lines, m.q)[0].issued
  }

  // ----- Coherence, and the trace the device sees -----

  // What has been issued was legal on every subarray, and left the rows the device has now.
  ghost predicate TraceLegal(cfg: Config, w: World)
    requires cfg.banksPerRefresh >= 1
  {
    forall s :: Legal(cfg, Closed, LogCmds(w.log), s) && Replay(cfg, Closed, LogCmds(w.log), s) == RowOf(w.rows, s)
  }

  ghost predicate RowsSound(cfg: Config, w: World)
    requires cfg.banksPerRefresh >= 1
  {
    Coherent(cfg, w.st, w.rows) && TraceLegal(cfg, w)
  }

  lemma LaunchedRows(cfg: Config, w: World, q: nat, now: nat)
    requires GoodConfig(cfg) && RowsSound(cfg, w) && CanSend(cfg, w, q, now)
    requires !QueueAt(w.st.lines, q)[0].issued
    ensures RowsSound(cfg, Launched(cfg, w, q, now))
  {
    var c := QueueAt(w.st.lines, q)[0];
    var w' := Launched(cfg, w, q, now);
    SentCoherent(cfg, w.st, w.rows, q, now);
    assert QueueId(cfg, BankOf(c.addr)) == q;
    assert w'.log[..|w'.log| - 1] == w.log;
    forall s ensures Legal(cfg, Closed, LogCmds(w'.log), s)
      ensures Replay(cfg, Closed, LogCmds(w'.log), s) == RowOf(w'.rows, s)
    {
      assert CmdLegal(cfg, RowOf(w.rows, s), c, s);
      ReplayCons(cfg, RowOf(w.rows, s), c, [], s);
      assert [c] + [] == [c];
      ReplayAppend(cfg, Closed, LogCmds(w.log), [c], s);
      DeviceStepAt(cfg, w.rows, c, s);
    }
  }

  lemma MoveKeepsRows(cfg: Config, w: World, m: Move, now: nat)
    requires GoodConfig(cfg) && RowsSound(cfg, w) && HeadFresh(cfg, w, m, now)
    ensures RowsSound(cfg, Moved(cfg, w, m, now))
  {
    match m
    case Accept(t, r, front) =>
      var w' := Moved(cfg, w, m, now);
      forall u, k | 0 <= u < |w'.st.transactions| && 0 <= k < |w'.st.transactions[u]|
        ensures RequestOk(cfg, w'.st.transactions[u][k])
      {
        assert w'.st.transactions[u][k] == r || w'.st.transactions[u][k] in w.st.transactions[u];
      }
    case Schedule(t, i, sel, force) => ScheduledCoherent(cfg, w.st, w.rows, t, i, sel, force, now);
    case Pulse(g) =>
    case HandleRefresh =>
      var g := Chosen(cfg, w.st.refresh, 0, 0);
      if g.Some? {
        RefreshCoherent(cfg, w.st, w.rows, g.value, now);
      }
    case Send(q) =>
      if CanSend(cfg, w, q, now) {
        LaunchedRows(cfg, w, q, now);
      }
    case Complete(id) =>
  }

  // ----- Conservation -----

  // An accepted request is in exactly one place: waiting, in flight, or done.
  ghost predicate Conserved(cfg: Config, w: World) {
    && TransactionsOk(cfg, w.st)
    && forall x :: Waiting(cfg, w.st, x) + One(x in w.flight) + One(x in w.done) == One(x in w.accepted)
  }

  lemma AcceptedCount(ts: seq<seq<Req>>, t: nat, r: Req, front: bool, x: nat)
    requires t < |ts|
    ensures TransCount(ts[t := if front then [r] + ts[t] else ts[t] + [r]], x) == TransCount(ts, x) + One(r.id == x)
  {
    ReqCountAppend([r], ts[t], x);
    ReqCountAppend(ts[t], [r], x);
    assert ReqCount([r], x) == One(r.id == x);
    TransCountUpdate(ts, t, if front then [r] + ts[t] else ts[t] + [r], x);
  }

  lemma MoveConservesOne(cfg: Config, w: World, m: Move, now: nat, x: nat)
    requires GoodConfig(cfg) && Conserved(cfg, w) && HeadFresh(cfg, w, m, now) && RoundRobinOk(cfg, w.st.refresh)
    ensures var w' := Moved(cfg, w, m, now);
      Waiting(cfg, w'.st, x) + One(x in w'.flight) + One(x in w'.done) == One(x in w'.accepted)
  {
    hide ScheduledAt, RefreshHandled, Sent, DeviceStep, TransactionsOk;
    assert Waiting(cfg, w.st, x) + One(x in w.flight) + One(x in w.done) == One(x in w.accepted);
    match m
    case Accept(t, r, front) =>
      if t < |w.st.transactions| {
        AcceptedCount(w.st.transactions, t, r, front, x);
      }
    case Schedule(t, i, sel, force) => ScheduledConserves(cfg, w.st, t, i, sel, force, now, x);
    case Pulse(g) =>
    case HandleRefresh =>
      ScanCovers(cfg, w.st.refresh);
      var g := Chosen(cfg, w.st.refresh, 0, 0);
      if g.Some? {
        RefreshConserves(cfg, w.st, g.value, now, x);
      }
    case Send(q) =>
      if CanSend(cfg, w, q, now) {
        SentConserves(cfg, w.st, q, now, x);
      }
    case Complete(id) =>
  }

  lemma MoveConserves(cfg: Config, w: World, m: Move, now: nat)
    requires GoodConfig(cfg) && Conserved(cfg, w) && HeadFresh(cfg, w, m, now) && RoundRobinOk(cfg, w.st.refresh)
    requires RowsSound(cfg, w)
    ensures Conserved(cfg, Moved(cfg, w, m, now))
  {
    MoveKeepsRows(cfg, w, m, now);
    forall x {
      MoveConservesOne(cfg, w, m, now, x);
    }
  }

  // ----- Refresh accounting -----

  // Every pulse is delayed, queued as a REFRESH, or issued.
  ghost predicate Accounted(cfg: Config, w: World)
    requires cfg.banksPerRefresh >= 1
  {
    && NeedFlagsOk(cfg, w.st.refresh) && RoundRobinOk(cfg, w.st.refresh)
    && forall g :: Pulses(w, g) == Delayed(w.st.refresh, g) + Outstanding(cfg, w.st.lines, g)
                                   + CountRefresh(LogCmds(w.log), GroupHead(cfg, g))
  }

  // Whether the last thing that happened to the group was a REFRESH being queued.
  predicate LastQueued(history: seq<RefreshEvent>, g: Group)
    decreases |history|
  {
    && history != []
    && var last := history[|history| - 1];
       if last.group == g then last.Queued? else LastQueued(history[..|history| - 1], g)
  }

  // The flag that shuts a group's queues says just that, and a REFRESH is indeed outstanding.
  ghost predicate QueuedFlagsOk(cfg: Config, w: World)
    requires cfg.banksPerRefresh >= 1
  {
    && (forall b: BankId :: b in w.st.refresh.refreshQueued <==> LastQueued(w.history, GroupOf(cfg, b)))
    && (forall g :: LastQueued(w.history, g) ==> Outstanding(cfg, w.st.lines, g) >= 1)
  }

  lemma LaunchedAccounts(cfg: Config, w: World, q: nat, now: nat)
    requires GoodConfig(cfg) && Accounted(cfg, w) && WellPlaced(cfg, w.st.lines)
    requires CanSend(cfg, w, q, now) && !QueueAt(w.st.lines, q)[0].issued
    ensures Accounted(cfg, Launched(cfg, w, q, now))
  {
    var c := QueueAt(w.st.lines, q)[0];
    var w' := Launched(cfg, w, q, now);
    assert w'.log[..|w'.log| - 1] == w.log;
    forall g ensures Pulses(w', g) == Delayed(w'.st.refresh, g) + Outstanding(cfg, w'.st.lines, g)
                                      + CountRefresh(LogCmds(w'.log), GroupHead(cfg, g))
    {
      SentOutstanding(cfg, w.st, q, now, g);
      CountRefreshAppend(LogCmds(w.log), [c], GroupHead(cfg, g));
      assert CountRefresh([c], GroupHead(cfg, g)) == One(IsRefreshOf(c, GroupHead(cfg, g)));
    }
  }

  lemma MoveAccounts(cfg: Config, w: World, m: Move, now: nat)
    requires GoodConfig(cfg) && Accounted(cfg, w) && HeadFresh(cfg, w, m, now) && RowsSound(cfg, w)
    ensures Accounted(cfg, Moved(cfg, w, m, now))
  {
    hide Predicts, TraceLegal, FlagsAgree, WellPlaced, Outstanding, CountRefresh;
    match m
    case Accept(t, r, front) =>
    case Schedule(t, i, sel, force) =>
      forall g ensures Outstanding(cfg, Moved(cfg, w, m, now).st.lines, g) == Outstanding(cfg, w.st.lines, g) {
        ScheduledOutstanding(cfg, w.st, t, i, sel, force, now, g);
      }
      ScheduledRefresh(cfg, w.st, t, i, sel, force, now);
    case Pulse(g) => PulsedFlags(cfg, w.st.refresh, g);
    case HandleRefresh =>
      var g0 := Chosen(cfg, w.st.refresh, 0, 0);
      if g0.Some? {
        SentFlags(cfg, w.st.refresh, g0.value);
        forall g {
          RefreshOutstanding(cfg, w.st, g0.value, now, g);
        }
      }
    case Send(q) =>
      if CanSend(cfg, w, q, now) {
        LaunchedAccounts(cfg, w, q, now);
      }
    case Complete(id) =>
  }

  lemma ScheduledRefresh(cfg: Config, st: State, t: nat, i: nat, sel: Selector, force: bool, now: nat)
    requires cfg.rbSize >= 1
    ensures ScheduledAt(cfg, st, t, i, sel, force, now).refresh == st.refresh
  {
  }

  lemma LastAfter(history: seq<RefreshEvent>, e: RefreshEvent, g: Group)
    ensures LastQueued(history + [e], g) <==> if e.group == g then e.Queued? else LastQueued(history, g)
  {
    assert (history + [e])[..|history|] == history;
  }

  lemma QueuedFlagsKept(cfg: Config, w: World, m: Move, now: nat)
    requires GoodConfig(cfg) && QueuedFlagsOk(cfg, w) && m.HandleRefresh? && Accounted(cfg, w)
    ensures QueuedFlagsOk(cfg, Moved(cfg, w, m, now))
  {
    var w' := Moved(cfg, w, m, now);
    var g0 := Chosen(cfg, w.st.refresh, 0, 0);
    if g0.Some? {
      forall b: BankId ensures b in w'.st.refresh.refreshQueued <==> LastQueued(w'.history, GroupOf(cfg, b)) {
        InGroup(cfg, g0.value, b);
        LastAfter(w.history, Queued(g0.value), GroupOf(cfg, b));
      }
      forall g | LastQueued(w'.history, g) ensures Outstanding(cfg, w'.st.lines, g) >= 1 {
        LastAfter(w.history, Queued(g0.value), g);
        RefreshOutstanding(cfg, w.st, g0.value, now, g);
      }
    }
  }

  lemma LaunchedFlags(cfg: Config, w: World, q: nat, now: nat)
    requires GoodConfig(cfg) && QueuedFlagsOk(cfg, w) && WellPlaced(cfg, w.st.lines)
    requires CanSend(cfg, w, q, now) && !QueueAt(w.st.lines, q)[0].issued
    ensures QueuedFlagsOk(cfg, Launched(cfg, w, q, now))
  {
    var w' := Launched(cfg, w, q, now);
    var c := QueueAt(w.st.lines, q)[0];
    assert Placed(cfg, c, q);
    var g0 := GroupOf(cfg, BankOf(c.addr));
    forall b: BankId ensures b in w'.st.refresh.refreshQueued <==> LastQueued(w'.history, GroupOf(cfg, b)) {
      InGroup(cfg, g0, b);
      LastAfter(w.history, Gone(g0), GroupOf(cfg, b));
    }
    forall g | LastQueued(w'.history, g) ensures Outstanding(cfg, w'.st.lines, g) >= 1 {
      LastAfter(w.history, Gone(g0), g);
      GroupOfHead(cfg, g);
      SentOutstanding(cfg, w.st, q, now, g);
    }
  }

  lemma MoveKeepsQueuedFlags(cfg: Config, w: World, m: Move, now: nat)
    requires GoodConfig(cfg) && QueuedFlagsOk(cfg, w) && Accounted(cfg, w) && HeadFresh(cfg, w, m, now) &&
        RowsSound(cfg, w)
    ensures QueuedFlagsOk(cfg, Moved(cfg, w, m, now))
  {
    hide Predicts, TraceLegal, FlagsAgree, WellPlaced;
    match m
    case Accept(t, r, front) =>
    case Schedule(t, i, sel, force) =>
      forall g ensures Outstanding(cfg, Moved(cfg, w, m, now).st.lines, g) == Outstanding(cfg, w.st.lines, g) {
        ScheduledOutstanding(cfg, w.st, t, i, sel, force, now, g);
      }
      ScheduledRefresh(cfg, w.st, t, i, sel, force, now);
    case Pulse(g) =>
    case HandleRefresh => QueuedFlagsKept(cfg, w, m, now);
    case Send(q) =>
      if CanSend(cfg, w, q, now) {
        LaunchedFlags(cfg, w, q, now);
      }
    case Complete(id) =>
  }

  // ----- The assertion that an issued REFRESH finds its flag set -----

  // Every REFRESH of the group that was issued found the flag set.
  predicate AssertPassed(history: seq<RefreshEvent>, g: Group)
    decreases |history|
  {
    history == [] ||
    (var front := history[..|history| - 1];
     AssertPassed(front, g) && (history[|history| - 1] == Gone(g) ==> LastQueued(front, g)))
  }

  // How often a REFRESH of the group was queued although the flag was set.
  function Doubles(history: seq<RefreshEvent>, g: Group): nat
    decreases |history|
  {
    if history == [] then 0
    else
      var front := history[..|history| - 1];
      Doubles(front, g) + One(history[|history| - 1] == Queued(g) && LastQueued(front, g))
  }

  ghost predicate AssertsOk(cfg: Config, w: World)
    requires cfg.banksPerRefresh >= 1
  {
    forall g :: AssertOkFor(cfg, w.st.lines, w.history, g)
  }

  predicate AssertOkFor(cfg: Config, l: Lines, history: seq<RefreshEvent>, g: Group) {
    && (AssertPassed(history, g) ==> Outstanding(cfg, l, g) == One(LastQueued(history, g)) + Doubles(history, g))
    && (Doubles(history, g) == 0 ==> AssertPassed(history, g))
  }

  lemma HistoryGrows(history: seq<RefreshEvent>, e: RefreshEvent, g: Group)
    ensures AssertPassed(history + [e], g) <==> AssertPassed(history, g) && (e == Gone(g) ==> LastQueued(history, g))
    ensures Doubles(history + [e], g) == Doubles(history, g) + One(e == Queued(g) && LastQueued(history, g))
    ensures LastQueued(history + [e], g) <==> if e.group == g then e.Queued? else LastQueued(history, g)
  {
    assert (history + [e])[..|history|] == history;
  }

  lemma SameAsserts(cfg: Config, w: World, w': World)
    requires cfg.banksPerRefresh >= 1 && AssertsOk(cfg, w) && w'.history == w.history
    requires forall g :: Outstanding(cfg, w'.st.lines, g) == Outstanding(cfg, w.st.lines, g)
    ensures AssertsOk(cfg, w')
  {
    forall g ensures AssertOkFor(cfg, w'.st.lines, w'.history, g) {
      assert AssertOkFor(cfg, w.st.lines, w.history, g);
    }
  }

  lemma QueuedHistory(cfg: Config, w: World, g0: Group, now: nat, g: Group)
    requires GoodConfig(cfg) && AssertsOk(cfg, w) && Delayed(w.st.refresh, g0) >= 1
    ensures AssertOkFor(cfg, RefreshHandled(cfg, w.st, g0, now).lines, w.history + [Queued(g0)], g)
  {
    hide AssertPassed, Doubles, LastQueued, Outstanding, RefreshHandled;
    assert AssertOkFor(cfg, w.st.lines, w.history, g);
    HistoryGrows(w.history, Queued(g0), g);
    RefreshOutstanding(cfg, w.st, g0, now, g);
  }

  lemma MoveKeepsAsserts(cfg: Config, w: World, m: Move, now: nat)
    requires GoodConfig(cfg) && AssertsOk(cfg, w) && HeadFresh(cfg, w, m, now) && RowsSound(cfg, w)
    ensures AssertsOk(cfg, Moved(cfg, w, m, now))
  {
    hide Predicts, TraceLegal, FlagsAgree, WellPlaced, AssertOkFor, Outstanding;
    var w' := Moved(cfg, w, m, now);
    match m
    case Accept(t, r, front) => SameAsserts(cfg, w, w');
    case Schedule(t, i, sel, force) =>
      forall g ensures Outstanding(cfg, w'.st.lines, g) == Outstanding(cfg, w.st.lines, g) {
        ScheduledOutstanding(cfg, w.st, t, i, sel, force, now, g);
      }
      SameAsserts(cfg, w, w');
    case Pulse(g) => SameAsserts(cfg, w, w');
    case HandleRefresh =>
      var g0 := Chosen(cfg, w.st.refresh, 0, 0);
      if g0.Some? {
        forall g ensures AssertOkFor(cfg, w'.st.lines, w'.history, g) {
          QueuedHistory(cfg, w, g0.value, now, g);
        }
      }
    case Send(q) =>
      if CanSend(cfg, w, q, now) {
        forall g ensures AssertOkFor(cfg, w'.st.lines, w'.history, g) {
          SentHistory(cfg, w, q, now, g);
        }
      }
    case Complete(id) => SameAsserts(cfg, w, w');
  }

  lemma SentHistory(cfg: Config, w: World, q: nat, now: nat, g: Group)
    requires cfg.banksPerRefresh >= 1 && WellPlaced(cfg, w.st.lines) && AssertsOk(cfg, w)
    requires QueueAt(w.st.lines, q) != [] && !QueueAt(w.st.lines, q)[0].issued
    ensures AssertOkFor(cfg, Launched(cfg, w, q, now).st.lines, Launched(cfg, w, q, now).history, g)
  {
    hide AssertPassed, Doubles, LastQueued, Outstanding;
    assert AssertOkFor(cfg, w.st.lines, w.history, g);
    var c := QueueAt(w.st.lines, q)[0];
    assert Placed(cfg, c, q);
    GroupOfHead(cfg, g);
    SentOutstanding(cfg, w.st, q, now, g);
    if c.op == REFRESH {
      HistoryGrows(w.history, Gone(GroupOf(cfg, BankOf(c.addr))), g);
    }
  }

  // Once the group's REFRESHes have all been issued, the assertion has held throughout exactly when no
  // REFRESH was queued while another one was outstanding.
  lemma AssertHoldsIffNoDoubles(cfg: Config, w: World, g: Group)
    requires cfg.banksPerRefresh >= 1 && AssertsOk(cfg, w) && Outstanding(cfg, w.st.lines, g) == 0
    ensures AssertPassed(w.history, g) <==> Doubles(w.history, g) == 0
  {
    assert AssertOkFor(cfg, w.st.lines, w.history, g);
  }

  // One bank, a threshold of one delayed refresh, refreshes on.
  const ONE_BANK := Config(1, 1, 1, 1, 1, 0, 4, false, true, true, 1, 1)
  const ONLY_GROUP := Group(0, 0)

  // The REFRESH queued for the only bank, which is not activated, with the given tag.
  function OnlyRefresh(tag: nat): Cmd { RefreshCmd(BankId(0, 0)).(tag := tag) }

  // A pulse and the refresh callback right after it.
  function PulsedAndHandled(w: World, now: nat): World {
    Moved(ONE_BANK, Moved(ONE_BANK, w, Pulse(ONLY_GROUP), now), HandleRefresh, now)
  }

  lemma PulsedAndHandledIs(w: World, now: nat)
    requires w.st.pred.activateQueued == {} && Delayed(w.st.refresh, ONLY_GROUP) == 0
    requires w.st.refresh.nextRank == 0 == w.st.refresh.nextBank
    ensures var w' := PulsedAndHandled(w, now);
      && w'.history == w.history + [Queued(ONLY_GROUP)] && w'.rows == w.rows
      && QueueAt(w'.st.lines, 0) == QueueAt(w.st.lines, 0) + [OnlyRefresh(w.st.lines.nextTag)]
      && w'.st.lines.nextTag == w.st.lines.nextTag + 1
      && w'.st.pred.activateQueued == {} && Delayed(w'.st.refresh, ONLY_GROUP) == 0
      && w'.st.refresh.nextRank == 0 == w'.st.refresh.nextBank
      && w'.st.handledRefresh == Some(now) && w'.st.lastIssueCycle == w.st.lastIssueCycle
  {
    var r := Moved(ONE_BANK, w, Pulse(ONLY_GROUP), now).st.refresh;
    assert ScanAt(ONE_BANK, r, 0, 0) == ONLY_GROUP;
    assert ClosedForRefresh(ONE_BANK, w.st.lines, w.st.pred, ONLY_GROUP, 0) == (w.st.lines, w.st.pred);
  }

  // Sending the head of the only queue, a REFRESH, in a cycle that has issued and handled nothing.
  lemma SentRefreshIs(w: World, now: nat, tag: nat, rest: seq<Cmd>)
    requires QueueAt(w.st.lines, 0) == [OnlyRefresh(tag)] + rest && w.rows == map[]
    requires w.st.lastIssueCycle != now && w.st.handledRefresh != Some(now)
    ensures var w' := Moved(ONE_BANK, w, Send(0), now);
      && w'.history == w.history + [Gone(ONLY_GROUP)] && w'.rows == map[]
      && QueueAt(w'.st.lines, 0) == [OnlyRefresh(tag).(issued := true)] + rest
      && w'.st.lastIssueCycle == now && w'.st.handledRefresh == w.st.handledRefresh
  {
  }

  // The assertion can fail: two refreshes of a bank, pulsed at t and t', are both queued before the first is
  // issued at u; issuing it clears the flag, which the second one, issued at u', then finds cleared.
  lemma AssertCanFail(t: nat, t': nat, u: nat, u': nat) returns (w: World)
    requires t < t' < u < u'
    ensures GoodConfig(ONE_BANK)
    ensures var queued := PulsedAndHandled(PulsedAndHandled(Start(1), t), t');
      w == Moved(ONE_BANK, CleanedUp(Moved(ONE_BANK, queued, Send(0), u)), Send(0), u')
    ensures !AssertPassed(w.history, ONLY_GROUP)
  {
    hide PulsedAndHandled, Moved;
    var w1 := PulsedAndHandled(Start(1), t);
    PulsedAndHandledIs(Start(1), t);
    var w2 := PulsedAndHandled(w1, t');
    PulsedAndHandledIs(w1, t');
    assert QueueAt(w2.st.lines, 0) == [OnlyRefresh(0)] + [OnlyRefresh(1)];
    var w3 := Moved(ONE_BANK, w2, Send(0), u);
    SentRefreshIs(w2, u, 0, [OnlyRefresh(1)]);
    var w4 := CleanedUp(w3);
    assert QueueAt(w3.st.lines, 0)[1..] == [OnlyRefresh(1)] == [OnlyRefresh(1)] + [];
    assert Unissued([OnlyRefresh(1)]) == [OnlyRefresh(1)];
    assert QueueAt(w4.st.lines, 0) == Unissued(QueueAt(w3.st.lines, 0));
    w := Moved(ONE_BANK, w4, Send(0), u');
    SentRefreshIs(w4, u', 1, []);
    HistoryGrows(w3.history, Gone(ONLY_GROUP), ONLY_GROUP);
    HistoryGrows(w2.history, Gone(ONLY_GROUP), ONLY_GROUP);
  }

  // ----- The order of each command queue -----

  predicate Increasing(cmds: seq<Cmd>) {
    cmds == [] || ((forall c :: c in cmds[1..] ==> cmds[0].tag < c.tag) && Increasing(cmds[1..]))
  }

  predicate SameQueue(cfg: Config, c: Cmd, d: Cmd) {
    QueueId(cfg, BankOf(c.addr)) == QueueId(cfg, BankOf(d.addr))
  }

  // Commands are numbered in the order they are queued.
  ghost predicate Numbered(l: Lines) {
    && (forall q :: Increasing(QueueAt(l, q)))
    && (forall q, c :: c in QueueAt(l, q) ==> c.tag < l.nextTag)
  }

  // Each queue has issued its commands in that order.
  ghost predicate LogInOrder(cfg: Config, log: seq<Issue>, nextTag: nat) {
    && (forall i :: 0 <= i < |log| ==> log[i].cmd.tag < nextTag)
    && (forall i, j :: 0 <= i < j < |log| && SameQueue(cfg, log[i].cmd, log[j].cmd) ==>
          log[i].cmd.tag < log[j].cmd.tag)
  }

  // A command that has not been issued is younger than what its queue has issued.
  ghost predicate Younger(cfg: Config, l: Lines, log: seq<Issue>) {
    forall q, c, i :: c in QueueAt(l, q) && !c.issued && 0 <= i < |log| && SameQueue(cfg, log[i].cmd, c) ==>
      log[i].cmd.tag < c.tag
  }

  ghost predicate InOrder(cfg: Config, l: Lines, log: seq<Issue>) {
    Numbered(l) && LogInOrder(cfg, log, l.nextTag) && Younger(cfg, l, log)
  }

  lemma {:induction false} IncreasingAppend(a: seq<Cmd>, c: Cmd)
    requires Increasing(a) && forall d :: d in a ==> d.tag < c.tag
    ensures Increasing(a + [c])
    decreases |a|
  {
    if a == [] {
      assert a + [c] == [c];
    } else {
      assert (a + [c])[1..] == a[1..] + [c];
      IncreasingAppend(a[1..], c);
    }
  }

  lemma PushedInOrder(cfg: Config, l: Lines, q: nat, c: Cmd, log: seq<Issue>)
    requires InOrder(cfg, l, log)
    ensures InOrder(cfg, Pushed(l, q, c), log)
  {
    var l' := Pushed(l, q, c);
    var c' := c.(tag := l.nextTag);
    forall p ensures Increasing(QueueAt(l', p)) {
      assert Increasing(QueueAt(l, p));
      if p == q {
        IncreasingAppend(QueueAt(l, q), c');
      }
    }
    assert forall p, d :: d in QueueAt(l', p) ==> d in QueueAt(l, p) || d == c';
  }

  lemma {:induction false} PushedAllInOrder(cfg: Config, l: Lines, q: nat, cmds: seq<Cmd>, log: seq<Issue>)
    requires InOrder(cfg, l, log)
    ensures InOrder(cfg, PushedAll(l, q, cmds), log)
    decreases |cmds|
  {
    hide InOrder;
    if cmds != [] {
      PushedInOrder(cfg, l, q, cmds[0], log);
      PushedAllInOrder(cfg, Pushed(l, q, cmds[0]), q, cmds[1..], log);
    }
  }

  lemma {:induction false} ClosedForRefreshInOrder(cfg: Config, l: Lines, p: Prediction, g: Group, n: nat,
      log: seq<Issue>)
    requires InOrder(cfg, l, log)
    ensures InOrder(cfg, ClosedForRefresh(cfg, l, p, g, n).0, log)
  {
    hide InOrder;
    if n > 0 {
      ClosedForRefreshInOrder(cfg, l, p, g, n - 1, log);
      var b := BankId(g.rank, g.index * cfg.banksPerRefresh + (n - 1));
      PushedInOrder(cfg, ClosedForRefresh(cfg, l, p, g, n - 1).0, QueueId(cfg, b), PrechargeAllCmd(b), log);
    }
  }

  // What is left unissued in a queue whose head goes out.
  lemma LaunchedLeaves(cfg: Config, l: Lines, q: nat, p: nat, d: Cmd)
    requires cfg.banksPerRefresh >= 1 && Numbered(l) && WellPlaced(cfg, l)
    requires QueueAt(l, q) != [] && d in QueueAt(HeadIssued(l, q), p) && !d.issued
    ensures d in QueueAt(l, p) && (SameQueue(cfg, QueueAt(l, q)[0], d) ==> QueueAt(l, q)[0].tag < d.tag)
  {
    var queue := QueueAt(l, q);
    assert Placed(cfg, queue[0], q) && Increasing(queue);
    assert QueueAt(HeadIssued(l, q), q) == [queue[0].(issued := true)] + queue[1..];
    if p == q {
      assert d in queue[1..];
    } else {
      var k :| 0 <= k < |QueueAt(l, p)| && QueueAt(l, p)[k] == d;
      assert Placed(cfg, QueueAt(l, p)[k], p);
    }
  }

  lemma HeadIssuedNumbered(l: Lines, q: nat)
    requires Numbered(l) && QueueAt(l, q) != []
    ensures Numbered(HeadIssued(l, q))
  {
    var queue := QueueAt(l, q);
    var l' := HeadIssued(l, q);
    assert QueueAt(l', q)[1..] == queue[1..];
    forall p ensures Increasing(QueueAt(l', p)) {
      assert Increasing(QueueAt(l, p));
    }
    forall p, d | d in QueueAt(l', p) ensures d.tag < l.nextTag {
      assert queue[0] in QueueAt(l, q);
      assert d in QueueAt(l, p) || d == queue[0].(issued := true);
    }
  }

  lemma LaunchedInOrder(cfg: Config, w: World, q: nat, now: nat)
    requires cfg.banksPerRefresh >= 1 && InOrder(cfg, w.st.lines, w.log) && WellPlaced(cfg, w.st.lines)
    requires QueueAt(w.st.lines, q) != [] && !QueueAt(w.st.lines, q)[0].issued
    ensures InOrder(cfg, Launched(cfg, w, q, now).st.lines, Launched(cfg, w, q, now).log)
  {
    hide Numbered, WellPlaced;
    var l := w.st.lines;
    var c := QueueAt(l, q)[0];
    var l' := HeadIssued(l, q);
    var log' := w.log + [Issue(now, c)];
    HeadIssuedNumbered(l, q);
    assert c in QueueAt(l, q);
    NumberedBelow(l, q, c);
    assert LogInOrder(cfg, log', l'.nextTag);
    forall p, d, i | d in QueueAt(l', p) && !d.issued && 0 <= i < |log'| && SameQueue(cfg, log'[i].cmd, d)
      ensures log'[i].cmd.tag < d.tag
    {
      LaunchedLeaves(cfg, l, q, p, d);
    }
  }

  lemma NumberedBelow(l: Lines, q: nat, c: Cmd)
    requires Numbered(l) && c in QueueAt(l, q)
    ensures c.tag < l.nextTag
  {
  }

  lemma {:induction false} UnissuedIncreasing(cmds: seq<Cmd>)
    requires Increasing(cmds)
    ensures Increasing(Unissued(cmds))
  {
    if cmds != [] {
      UnissuedWithin(cmds[1..]);
      UnissuedIncreasing(cmds[1..]);
      if !cmds[0].issued {
        assert Unissued(cmds)[1..] == Unissued(cmds[1..]);
      }
    }
  }

  lemma CleanedInOrder(cfg: Config, l: Lines, log: seq<Issue>)
    requires InOrder(cfg, l, log)
    ensures InOrder(cfg, Cleaned(l), log)
  {
    var l' := Cleaned(l);
    forall q ensures Increasing(QueueAt(l', q)) && forall c :: c in QueueAt(l', q) ==> c in QueueAt(l, q) && !c.issued {
      UnissuedIncreasing(QueueAt(l, q));
      UnissuedWithin(QueueAt(l, q));
      assert QueueAt(l', q) == Unissued(QueueAt(l, q));
    }
  }

  lemma MoveKeepsOrder(cfg: Config, w: World, m: Move, now: nat)
    requires GoodConfig(cfg) && InOrder(cfg, w.st.lines, w.log) && HeadFresh(cfg, w, m, now) &&
        WellPlaced(cfg, w.st.lines)
    ensures InOrder(cfg, Moved(cfg, w, m, now).st.lines, Moved(cfg, w, m, now).log)
  {
    hide InOrder, WellPlaced;
    match m
    case Accept(t, r, front) =>
    case Schedule(t, i, sel, force) =>
      if t < |w.st.transactions| {
        var queue := w.st.transactions[t];
        if i < |queue| && Eligible(cfg, w.st, sel, queue[i], now) {
          var rest := Removed(queue, i);
          var r := queue[i].(last := queue[i].last || IsLastRequest(cfg, rest, queue[i]),
                             forced := queue[i].forced || force);
          var b := BranchFor(cfg, w.st.lines, w.st.pred, r);
          PushedAllInOrder(cfg, w.st.lines, QueueId(cfg, BankOf(r.addr)), CommandsFor(cfg, w.st.pred, r, b), w.log);
        }
      }
    case Pulse(g) =>
    case HandleRefresh =>
      var g := Chosen(cfg, w.st.refresh, 0, 0);
      if g.Some? {
        var l := ClosedForRefresh(cfg, w.st.lines, w.st.pred, g.value, cfg.banksPerRefresh).0;
        ClosedForRefreshInOrder(cfg, w.st.lines, w.st.pred, g.value, cfg.banksPerRefresh, w.log);
        var head := GroupHead(cfg, g.value);
        PushedInOrder(cfg, l, QueueId(cfg, head), RefreshCmd(head), w.log);
      }
    case Send(q) =>
      if CanSend(cfg, w, q, now) {
        LaunchedInOrder(cfg, w, q, now);
      }
    case Complete(id) =>
  }

  // ----- Restricted close-page -----

  // Under ClosePage 2 no bank stays activated, so a row-buffer hit cannot be scheduled.
  ghost predicate AllClosed(cfg: Config, w: World) {
    cfg.closePage == 2 ==> w.st.pred.activateQueued == {}
  }

  lemma {:induction false} ClosedForRefreshActive(cfg: Config, l: Lines, p: Prediction, g: Group, n: nat)
    requires p.activateQueued == {}
    ensures ClosedForRefresh(cfg, l, p, g, n).1.activateQueued == {}
  {
    if n > 0 {
      ClosedForRefreshActive(cfg, l, p, g, n - 1);
    }
  }

  lemma MoveKeepsClosed(cfg: Config, w: World, m: Move, now: nat)
    requires GoodConfig(cfg) && AllClosed(cfg, w)
    ensures AllClosed(cfg, Moved(cfg, w, m, now))
  {
    if cfg.closePage == 2 && m.HandleRefresh? {
      var g := Chosen(cfg, w.st.refresh, 0, 0);
      if g.Some? {
        ClosedForRefreshActive(cfg, w.st.lines, w.st.pred, g.value, cfg.banksPerRefresh);
      }
    }
  }

  // ----- All of it -----

  ghost predicate Sound(cfg: Config, w: World)
    requires cfg.banksPerRefresh >= 1
  {
    && RowsSound(cfg, w) && Conserved(cfg, w) && Accounted(cfg, w) && QueuedFlagsOk(cfg, w)
    && AssertsOk(cfg, w) && InOrder(cfg, w.st.lines, w.log) && AllClosed(cfg, w)
  }

  lemma MoveKeepsSound(cfg: Config, w: World, m: Move, now: nat)
    requires GoodConfig(cfg) && Sound(cfg, w) && HeadFresh(cfg, w, m, now)
    ensures Sound(cfg, Moved(cfg, w, m, now))
  {
    hide Predicts, FlagsAgree, TraceLegal, WellPlaced, TransactionsOk, InOrder, QueuedFlagsOk, AssertsOk,
        NeedFlagsOk, Moved;
    MoveKeepsRows(cfg, w, m, now);
    MoveConserves(cfg, w, m, now);
    MoveAccounts(cfg, w, m, now);
    MoveKeepsQueuedFlags(cfg, w, m, now);
    MoveKeepsAsserts(cfg, w, m, now);
    MoveKeepsOrder(cfg, w, m, now);
    MoveKeepsClosed(cfg, w, m, now);
  }

  lemma CleanupKeepsSound(cfg: Config, w: World)
    requires GoodConfig(cfg) && Sound(cfg, w)
    ensures Sound(cfg, CleanedUp(w))
  {
    CleanedCoherent(cfg, w.st, w.rows);
    CleanedInOrder(cfg, w.st.lines, w.log);
    forall x: nat {
      CleanedCount(w.st.lines, QueueCount(cfg), x);
    }
    hide InOrder, RowsSound, Outstanding;
    forall g ensures Outstanding(cfg, Cleaned(w.st.lines), g) == Outstanding(cfg, w.st.lines, g) {
      CleanedOutstanding(cfg, w.st.lines, g);
    }
    SameAsserts(cfg, w, CleanedUp(w));
  }

  lemma {:induction false} NothingWaits(ts: seq<seq<Req>>, n: nat, x: nat)
    requires forall t :: 0 <= t < |ts| ==> ts[t] == []
    ensures TransCount(ts, x) == 0 && LineCount(Lines(map[], 0), n, x) == 0
    decreases |ts| + n
  {
    if n > 0 {
      NothingWaits(ts, n - 1, x);
    } else if ts != [] {
      NothingWaits(ts[1..], n, x);
    }
  }

  lemma StartsSound(cfg: Config, queues: nat)
    requires GoodConfig(cfg)
    ensures Sound(cfg, Start(queues))
  {
    var w := Start(queues);
    InitiallyCoherent(cfg, queues);
    forall x: nat {
      NothingWaits(w.st.transactions, QueueCount(cfg), x);
    }
  }
}
