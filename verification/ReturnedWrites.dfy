/**
  What becomes of a write that write pausing sends back.  The flag that marks it as issued is never cleared, so
  the command queued for it again is taken for an issued one: the next cleanup removes it, sent or not.
*/
module ReturnedWrites {
  import opened Controller
  import opened Coherence
  import opened ControllerRuns
  import Conservation
  import opened Device
  import RefreshAccounting

  predicate CarriesId(c: Cmd, id: nat) { c.req.Some? && c.req.value.id == id }

  ghost predicate InTransactions(w: World, id: nat) {
    exists t, k :: 0 <= t < |w.st.transactions| && 0 <= k < |w.st.transactions[t]| && w.st.transactions[t][k].id == id
  }

  ghost predicate InQueues(w: World, id: nat) {
    exists q, c :: c in QueueAt(w.st.lines, q) && CarriesId(c, id)
  }

  // An accepted request that is nowhere.
  ghost predicate Lost(w: World, id: nat) {
    id in w.accepted && !InTransactions(w, id) && !InQueues(w, id) && id !in w.flight && id !in w.done
  }

  // The request waits in command queues only, and what carries it is flagged as issued.
  ghost predicate Flagged(w: World, id: nat) {
    && id in w.accepted && !InTransactions(w, id) && id !in w.flight && id !in w.done
    && forall q, c :: c in QueueAt(w.st.lines, q) && CarriesId(c, id) ==> c.issued
  }

  // ----- Until the next cleanup -----

  datatype Timed = Timed(m: Move, now: nat)

  function MovedOn(cfg: Config, w: World, steps: seq<Timed>): World
    requires GoodConfig(cfg)
    decreases |steps|
  {
    if steps == [] then w else MovedOn(cfg, Moved(cfg, w, steps[0].m, steps[0].now), steps[1..])
  }

  predicate SendsNow(cfg: Config, w: World, m: Move, now: nat, id: nat)
    requires cfg.banksPerRefresh >= 1
  {
    m.Send? && CanSend(cfg, w, m.q, now) && CarriesId(QueueAt(w.st.lines, m.q)[0], id)
  }

  // One of the steps sends a command that carries the request.
  predicate Sends(cfg: Config, w: World, steps: seq<Timed>, id: nat)
    requires GoodConfig(cfg)
    decreases |steps|
  {
    steps != [] &&
    (SendsNow(cfg, w, steps[0].m, steps[0].now, id) ||
     Sends(cfg, Moved(cfg, w, steps[0].m, steps[0].now), steps[1..], id))
  }

  // Commands in l' were in l, or do not carry the request.
  ghost predicate NoMoreOf(l: Lines, l': Lines, id: nat) {
    forall q, c :: c in QueueAt(l', q) && CarriesId(c, id) ==> c in QueueAt(l, q)
  }

  lemma {:induction false} PushedAllNoMore(l: Lines, q: nat, cmds: seq<Cmd>, id: nat)
    requires forall c :: c in cmds ==> !CarriesId(c, id)
    ensures NoMoreOf(l, PushedAll(l, q, cmds), id)
    decreases |cmds|
  {
    if cmds != [] {
      assert cmds[0] in cmds && forall c :: c in cmds[1..] ==> c in cmds;
      PushedAllNoMore(Pushed(l, q, cmds[0]), q, cmds[1..], id);
    }
  }

  lemma CommandsCarryOwn(cfg: Config, p: Prediction, r: Req, b: Branch, id: nat)
    requires r.id != id
    ensures forall c :: c in CommandsFor(cfg, p, r, b) ==> !CarriesId(c, id)
  {
  }

  lemma ScheduledNoMore(cfg: Config, w: World, t: nat, i: nat, sel: Selector, force: bool, now: nat, id: nat)
    requires GoodConfig(cfg) && !InTransactions(w, id)
    ensures var w' := Moved(cfg, w, Schedule(t, i, sel, force), now);
      NoMoreOf(w.st.lines, w'.st.lines, id) && !InTransactions(w', id)
  {
    var w' := Moved(cfg, w, Schedule(t, i, sel, force), now);
    if t < |w.st.transactions| {
      var queue := w.st.transactions[t];
      if i < |queue| && Eligible(cfg, w.st, sel, queue[i], now) {
        hide Eligible, IsLastRequest, NoMoreOf, BranchFor, CommandsFor, PredictionAfter;
        var rest := Removed(queue, i);
        var r := queue[i].(last := queue[i].last || IsLastRequest(cfg, rest, queue[i]),
                           forced := queue[i].forced || force);
        var b := BranchFor(cfg, w.st.lines, w.st.pred, r);
        assert w.st.transactions[t][i].id != id;
        CommandsCarryOwn(cfg, w.st.pred, r, b, id);
        PushedAllNoMore(w.st.lines, QueueId(cfg, BankOf(r.addr)), CommandsFor(cfg, w.st.pred, r, b), id);
        RemovedFrom(w, w', t, i, id);
      }
    }
    SameLines(w.st.lines, id);
  }

  lemma SameLines(l: Lines, id: nat)
    ensures NoMoreOf(l, l, id)
  {
  }

  lemma RemovedFrom(w: World, w': World, t: nat, i: nat, id: nat)
    requires t < |w.st.transactions| && i < |w.st.transactions[t]| && !InTransactions(w, id)
    requires w'.st.transactions == w.st.transactions[t := Removed(w.st.transactions[t], i)] || w'.st == w.st
    ensures !InTransactions(w', id)
  {
    forall u, k | 0 <= u < |w'.st.transactions| && 0 <= k < |w'.st.transactions[u]|
      ensures w'.st.transactions[u][k].id != id
    {
      if u == t && w'.st != w.st {
        assert w'.st.transactions[u][k] == w.st.transactions[t][if k < i then k else k + 1];
      } else {
        assert w'.st.transactions[u][k] == w.st.transactions[u][k];
      }
    }
  }

  lemma AcceptedNoMore(cfg: Config, w: World, t: nat, r: Req, front: bool, now: nat, id: nat)
    requires GoodConfig(cfg) && !InTransactions(w, id) && id in w.accepted
    ensures !InTransactions(Moved(cfg, w, Accept(t, r, front), now), id)
  {
    var w' := Moved(cfg, w, Accept(t, r, front), now);
    forall u, k | 0 <= u < |w'.st.transactions| && 0 <= k < |w'.st.transactions[u]|
      ensures w'.st.transactions[u][k].id != id
    {
      if w' != w && u == t && w'.st.transactions[u][k] != r {
        assert w'.st.transactions[u][k] == w.st.transactions[t][if front then k - 1 else k];
      } else if w' == w || u != t {
        assert w'.st.transactions[u][k] == w.st.transactions[u][k];
      }
    }
  }

  lemma {:induction false} ClosedForRefreshNoMore(cfg: Config, l: Lines, p: Prediction, g: Group, n: nat, id: nat)
    ensures NoMoreOf(l, ClosedForRefresh(cfg, l, p, g, n).0, id)
  {
    if n > 0 {
      ClosedForRefreshNoMore(cfg, l, p, g, n - 1, id);
    }
  }

  lemma RefreshNoMore(cfg: Config, st: State, g: Group, now: nat, id: nat)
    requires GoodConfig(cfg) && Delayed(st.refresh, g) >= 1
    ensures NoMoreOf(st.lines, RefreshHandled(cfg, st, g, now).lines, id)
    ensures RefreshHandled(cfg, st, g, now).transactions == st.transactions
  {
    ClosedForRefreshNoMore(cfg, st.lines, st.pred, g, cfg.banksPerRefresh, id);
  }

  lemma LaunchedOther(cfg: Config, w: World, q: nat, now: nat, id: nat)
    requires cfg.banksPerRefresh >= 1 && QueueAt(w.st.lines, q) != [] && Flagged(w, id)
    requires !CarriesId(QueueAt(w.st.lines, q)[0], id)
    ensures Flagged(Launched(cfg, w, q, now), id)
  {
    var c := QueueAt(w.st.lines, q)[0];
    var w' := Launched(cfg, w, q, now);
    assert w'.st.transactions == w.st.transactions;
    forall p, d | d in QueueAt(w'.st.lines, p) && CarriesId(d, id) ensures d.issued {
      assert d in QueueAt(w.st.lines, p) || d == c.(issued := true);
    }
  }

  lemma StillFlagged(w: World, w': World, id: nat)
    requires Flagged(w, id) && NoMoreOf(w.st.lines, w'.st.lines, id) && !InTransactions(w', id)
    requires id in w'.accepted && id !in w'.flight && id !in w'.done
    ensures Flagged(w', id)
  {
  }

  // Before it is sent the request stays as it is.
  lemma MoveKeepsFlagged(cfg: Config, w: World, m: Move, now: nat, id: nat)
    requires GoodConfig(cfg) && Flagged(w, id) && !SendsNow(cfg, w, m, now, id)
    ensures Flagged(Moved(cfg, w, m, now), id)
  {
    var w' := Moved(cfg, w, m, now);
    hide ScheduledAt, RefreshHandled, NoMoreOf, InTransactions, Launched, DeviceStep;
    SameLines(w.st.lines, id);
    match m
    case Accept(t, r, front) =>
      AcceptedNoMore(cfg, w, t, r, front, now, id);
      StillFlagged(w, w', id);
    case Schedule(t, i, sel, force) =>
      ScheduledNoMore(cfg, w, t, i, sel, force, now, id);
      StillFlagged(w, w', id);
    case Pulse(g) =>
      SameTransactions(w, w', id);
      StillFlagged(w, w', id);
    case HandleRefresh =>
      var g := RefreshAccounting.Chosen(cfg, w.st.refresh, 0, 0);
      if g.Some? {
        RefreshNoMore(cfg, w.st, g.value, now, id);
        SameTransactions(w, w', id);
        StillFlagged(w, w', id);
      }
    case Send(q) =>
      if CanSend(cfg, w, q, now) {
        LaunchedOther(cfg, w, q, now, id);
      }
    case Complete(x) =>
      SameTransactions(w, w', id);
      StillFlagged(w, w', id);
  }

  lemma SameTransactions(w: World, w': World, id: nat)
    requires w'.st.transactions == w.st.transactions
    ensures InTransactions(w', id) == InTransactions(w, id)
  {
  }

  // Once it is sent it is with the device, or done.
  lemma {:induction false} MovesKeepSent(cfg: Config, w: World, steps: seq<Timed>, id: nat)
    requires GoodConfig(cfg) && (id in w.flight || id in w.done)
    ensures var w' := MovedOn(cfg, w, steps); id in w'.flight || id in w'.done
    decreases |steps|
  {
    hide ScheduledAt, RefreshHandled, Sent, DeviceStep, CanSend;
    if steps != [] {
      MovesKeepSent(cfg, Moved(cfg, w, steps[0].m, steps[0].now), steps[1..], id);
    }
  }

  lemma CleanupLoses(w: World, id: nat)
    requires Flagged(w, id)
    ensures Lost(CleanedUp(w), id)
  {
    var w' := CleanedUp(w);
    forall q, c | c in QueueAt(w'.st.lines, q) ensures !CarriesId(c, id) {
      assert QueueAt(w'.st.lines, q) == Unissued(QueueAt(w.st.lines, q));
      UnissuedWithin(QueueAt(w.st.lines, q));
    }
    SameTransactions(w, w', id);
  }

  // A returned write whose command is queued is lost with the next cleanup exactly when no step before it
  // sends that command.
  lemma {:induction false} LostIffNotSent(cfg: Config, w: World, steps: seq<Timed>, id: nat)
    requires GoodConfig(cfg) && Flagged(w, id)
    ensures Lost(CleanedUp(MovedOn(cfg, w, steps)), id) <==> !Sends(cfg, w, steps, id)
    decreases |steps|
  {
    hide Lost, Flagged, CleanedUp, Moved, SendsNow;
    if steps == [] {
      CleanupLoses(w, id);
    } else {
      var w1 := Moved(cfg, w, steps[0].m, steps[0].now);
      if SendsNow(cfg, w, steps[0].m, steps[0].now, id) {
        SentNow(cfg, w, steps[0].m, steps[0].now, id);
        MovesKeepSent(cfg, w1, steps[1..], id);
        NotLost(MovedOn(cfg, w1, steps[1..]), id);
      } else {
        MoveKeepsFlagged(cfg, w, steps[0].m, steps[0].now, id);
        LostIffNotSent(cfg, w1, steps[1..], id);
      }
    }
  }

  lemma SentNow(cfg: Config, w: World, m: Move, now: nat, id: nat)
    requires GoodConfig(cfg) && SendsNow(cfg, w, m, now, id)
    ensures id in Moved(cfg, w, m, now).flight
  {
    hide Sent, DeviceStep;
  }

  lemma NotLost(w: World, id: nat)
    requires id in w.flight || id in w.done
    ensures !Lost(CleanedUp(w), id)
  {
  }

  // ----- Being scheduled again -----

  function LastFlagged(l: Lines, q: nat): Lines {
    var queue := QueueAt(l, q);
    if queue == [] then l
    else l.(queues := l.queues[q := queue[..|queue| - 1] + [queue[|queue| - 1].(issued := true)]])
  }

  // A returned write is the only trace of the request: it waits at place i of transaction queue t.
  ghost predicate Returned(w: World, t: nat, i: nat) {
    && t < |w.st.transactions| && i < |w.st.transactions[t]|
    && var id := w.st.transactions[t][i].id;
       && id in w.accepted && id !in w.flight && id !in w.done && !InQueues(w, id)
       && forall u, k :: 0 <= u < |w.st.transactions| && 0 <= k < |w.st.transactions[u]| && (u, k) != (t, i) ==>
            w.st.transactions[u][k].id != id
  }

  // Its commands are queued as for any request; the last one is the request itself, with the flag on.
  function Requeued(cfg: Config, w: World, t: nat, i: nat, sel: Selector, force: bool, now: nat): World
    requires cfg.rbSize >= 1 && t < |w.st.transactions| && i < |w.st.transactions[t]|
  {
    var st := ScheduledAt(cfg, w.st, t, i, sel, force, now);
    w.(st := st.(lines := LastFlagged(st.lines, QueueId(cfg, BankOf(w.st.transactions[t][i].addr)))))
  }

  lemma {:induction false} PushedAllAppends(l: Lines, q: nat, cmds: seq<Cmd>)
    ensures var queue := QueueAt(PushedAll(l, q, cmds), q);
      && |queue| == |QueueAt(l, q)| + |cmds| && QueueAt(l, q) <= queue
      && forall k :: 0 <= k < |cmds| ==> queue[|QueueAt(l, q)| + k].req == cmds[k].req
    ensures forall p :: p != q ==> QueueAt(PushedAll(l, q, cmds), p) == QueueAt(l, p)
    decreases |cmds|
  {
    if cmds != [] {
      PushedAllAppends(Pushed(l, q, cmds[0]), q, cmds[1..]);
    }
  }

  // Only the last command for a request carries it.
  lemma ColumnIsLast(cfg: Config, p: Prediction, r: Req, b: Branch)
    requires b != Reject
    ensures var cmds := CommandsFor(cfg, p, r, b);
      && |cmds| >= 1 && CarriesId(cmds[|cmds| - 1], r.id) && (b == UseRow <==> |cmds| == 1)
      && forall k :: 0 <= k < |cmds| - 1 ==> cmds[k].req == None
  {
  }

  // The request as it is issued.
  function Taken(cfg: Config, w: World, t: nat, i: nat, force: bool): Req
    requires t < |w.st.transactions| && i < |w.st.transactions[t]|
  {
    var r := w.st.transactions[t][i];
    r.(last := r.last || IsLastRequest(cfg, Removed(w.st.transactions[t], i), r), forced := r.forced || force)
  }

  lemma RequeuedIs(cfg: Config, w: World, t: nat, i: nat, sel: Selector, force: bool, now: nat)
    requires GoodConfig(cfg) && t < |w.st.transactions| && i < |w.st.transactions[t]|
    requires Eligible(cfg, w.st, sel, w.st.transactions[t][i], now)
    ensures var r := Taken(cfg, w, t, i, force); var q := QueueId(cfg, BankOf(r.addr));
      var b := BranchFor(cfg, w.st.lines, w.st.pred, r); var w1 := Requeued(cfg, w, t, i, sel, force, now);
      && b != Reject && b == BranchFor(cfg, w.st.lines, w.st.pred, w.st.transactions[t][i])
      && QueueAt(w.st.lines, q) == []
      && w1.st.lines == LastFlagged(PushedAll(w.st.lines, q, CommandsFor(cfg, w.st.pred, r, b)), q)
      && w1.st.transactions == w.st.transactions[t := Removed(w.st.transactions[t], i)]
      && w1 == w.(st := w1.st)
  {
    hide PushedAll, CommandsFor, PredictionAfter, IsLastRequest, LastFlagged;
  }

  lemma FlaggedLine(l: Lines, q: nat, cmds: seq<Cmd>, id: nat)
    requires QueueAt(l, q) == [] && |cmds| >= 1 && CarriesId(cmds[|cmds| - 1], id)
    requires forall k :: 0 <= k < |cmds| - 1 ==> cmds[k].req == None
    ensures var l' := LastFlagged(PushedAll(l, q, cmds), q);
      && QueueAt(l', q) != [] && (CarriesId(QueueAt(l', q)[0], id) <==> |cmds| == 1)
      && (forall c :: c in QueueAt(l', q) && CarriesId(c, id) ==> c.issued)
      && forall p :: p != q ==> QueueAt(l', p) == QueueAt(l, p)
  {
    PushedAllAppends(l, q, cmds);
    var line := QueueAt(PushedAll(l, q, cmds), q);
    assert |line| == |cmds| && forall k :: 0 <= k < |cmds| ==> line[0 + k].req == cmds[k].req;
    hide PushedAll;
    var flagged := line[..|line| - 1] + [line[|line| - 1].(issued := true)];
    assert QueueAt(LastFlagged(PushedAll(l, q, cmds), q), q) == flagged;
    forall k: nat | k < |flagged| ensures CarriesId(flagged[k], id) ==> flagged[k].issued {
      assert line[0 + k].req == cmds[k].req;
    }
  }

  lemma RequeuedFlags(cfg: Config, w: World, t: nat, i: nat, sel: Selector, force: bool, now: nat)
    requires GoodConfig(cfg) && Returned(w, t, i) && Eligible(cfg, w.st, sel, w.st.transactions[t][i], now)
    ensures var r := w.st.transactions[t][i]; var w1 := Requeued(cfg, w, t, i, sel, force, now);
      var q := QueueId(cfg, BankOf(r.addr));
      && Flagged(w1, r.id) && QueueAt(w1.st.lines, q) != []
      && (CarriesId(QueueAt(w1.st.lines, q)[0], r.id) <==> BranchFor(cfg, w.st.lines, w.st.pred, r) == UseRow)
      && forall p, c :: c in QueueAt(w1.st.lines, p) && CarriesId(c, r.id) ==> p == q
  {
    var w1 := Requeued(cfg, w, t, i, sel, force, now);
    var r := Taken(cfg, w, t, i, force);
    var b := BranchFor(cfg, w.st.lines, w.st.pred, r);
    RequeuedIs(cfg, w, t, i, sel, force, now);
    ColumnIsLast(cfg, w.st.pred, r, b);
    hide Requeued, CommandsFor, BranchFor, Eligible, IsLastRequest, InQueues, InTransactions, PushedAll, LastFlagged;
    FlaggedLine(w.st.lines, QueueId(cfg, BankOf(r.addr)), CommandsFor(cfg, w.st.pred, r, b), r.id);
    forall p, c | c in QueueAt(w1.st.lines, p) && p != QueueId(cfg, BankOf(r.addr)) ensures !CarriesId(c, r.id) {
      NotInQueues(w, p, c, r.id);
    }
    TakenOut(w, w1, t, i);
  }

  lemma NotInQueues(w: World, q: nat, c: Cmd, id: nat)
    requires !InQueues(w, id) && c in QueueAt(w.st.lines, q)
    ensures !CarriesId(c, id)
  {
  }

  lemma TakenOut(w: World, w1: World, t: nat, i: nat)
    requires Returned(w, t, i) && w1.st.transactions == w.st.transactions[t := Removed(w.st.transactions[t], i)]
    ensures !InTransactions(w1, w.st.transactions[t][i].id)
  {
    forall u, k | 0 <= u < |w1.st.transactions| && 0 <= k < |w1.st.transactions[u]|
      ensures w1.st.transactions[u][k].id != w.st.transactions[t][i].id
    {
      var k' := if u == t && k >= i then k + 1 else k;
      assert w1.st.transactions[u][k] == w.st.transactions[u][k'] && (u, k') != (t, i);
    }
  }

  // ----- The next command sent decides -----

  lemma {:induction false} ClosedForRefreshAppends(cfg: Config, l: Lines, p: Prediction, g: Group, n: nat, q: nat)
    ensures QueueAt(l, q) <= QueueAt(ClosedForRefresh(cfg, l, p, g, n).0, q)
  {
    if n > 0 {
      ClosedForRefreshAppends(cfg, l, p, g, n - 1, q);
    }
  }

  lemma ScheduledAppends(cfg: Config, st: State, t: nat, i: nat, sel: Selector, force: bool, now: nat, q: nat)
    requires GoodConfig(cfg)
    ensures QueueAt(st.lines, q) <= QueueAt(ScheduledAt(cfg, st, t, i, sel, force, now).lines, q)
  {
    hide PushedAll, CommandsFor, Eligible, BranchFor, PredictionAfter, IsLastRequest;
    if t < |st.transactions| && i < |st.transactions[t]| {
      var r0 := st.transactions[t][i];
      var r := r0.(last := r0.last || IsLastRequest(cfg, Removed(st.transactions[t], i), r0),
                   forced := r0.forced || force);
      PushedAllAppends(st.lines, QueueId(cfg, BankOf(r.addr)),
                       CommandsFor(cfg, st.pred, r, BranchFor(cfg, st.lines, st.pred, r)));
    }
  }

  // Moves other than sending only append to command queues, and nothing that carries the request.
  lemma QuietMove(cfg: Config, w: World, m: Move, now: nat, id: nat, q: nat)
    requires GoodConfig(cfg) && Flagged(w, id) && !m.Send?
    ensures var w' := Moved(cfg, w, m, now);
      NoMoreOf(w.st.lines, w'.st.lines, id) && QueueAt(w.st.lines, q) <= QueueAt(w'.st.lines, q)
  {
    hide NoMoreOf, InTransactions, ScheduledAt, ClosedForRefresh;
    SameLines(w.st.lines, id);
    match m
    case Accept(t, r, front) =>
    case Schedule(t, i, sel, force) =>
      ScheduledNoMore(cfg, w, t, i, sel, force, now, id);
      ScheduledAppends(cfg, w.st, t, i, sel, force, now, q);
    case Pulse(g) =>
    case HandleRefresh =>
      var g := RefreshAccounting.Chosen(cfg, w.st.refresh, 0, 0);
      if g.Some? {
        RefreshNoMore(cfg, w.st, g.value, now, id);
        ClosedForRefreshAppends(cfg, w.st.lines, w.st.pred, g.value, cfg.banksPerRefresh, q);
      }
    case Complete(x) =>
  }

  lemma {:induction false} QuietMoves(cfg: Config, w: World, steps: seq<Timed>, id: nat, q: nat)
    requires GoodConfig(cfg) && Flagged(w, id) && forall s :: s in steps ==> !s.m.Send?
    ensures var w' := MovedOn(cfg, w, steps);
      && Flagged(w', id) && NoMoreOf(w.st.lines, w'.st.lines, id)
      && QueueAt(w.st.lines, q) <= QueueAt(w'.st.lines, q)
    decreases |steps|
  {
    hide Flagged, Moved;
    if steps == [] {
      SameLines(w.st.lines, id);
    } else {
      assert steps[0] in steps && forall s :: s in steps[1..] ==> s in steps;
      MoveKeepsFlagged(cfg, w, steps[0].m, steps[0].now, id);
      QuietMove(cfg, w, steps[0].m, steps[0].now, id, q);
      QuietMoves(cfg, Moved(cfg, w, steps[0].m, steps[0].now), steps[1..], id, q);
    }
  }

  // Sending a command schedules the cleanup for the next cycle, and no other is sent before it.  So the returned
  // write is lost unless the very next command sent is the write: it found its row open, and no other queue's
  // turn came first.
  lemma NextSendDecides(cfg: Config, w: World, t: nat, i: nat, sel: Selector, force: bool, now: nat, quiet: seq<Timed>,
      p: nat, at: nat)
    requires GoodConfig(cfg) && Returned(w, t, i) && Eligible(cfg, w.st, sel, w.st.transactions[t][i], now)
    requires forall s :: s in quiet ==> !s.m.Send?
    requires CanSend(cfg, MovedOn(cfg, Requeued(cfg, w, t, i, sel, force, now), quiet), p, at)
    ensures var r := w.st.transactions[t][i];
      var w2 := MovedOn(cfg, Requeued(cfg, w, t, i, sel, force, now), quiet);
      Lost(CleanedUp(Moved(cfg, w2, Send(p), at)), r.id) <==>
      !(p == QueueId(cfg, BankOf(r.addr)) && BranchFor(cfg, w.st.lines, w.st.pred, r) == UseRow)
  {
    var r := w.st.transactions[t][i];
    var q := QueueId(cfg, BankOf(r.addr));
    var w1 := Requeued(cfg, w, t, i, sel, force, now);
    var w2 := MovedOn(cfg, w1, quiet);
    RequeuedFlags(cfg, w, t, i, sel, force, now);
    QuietMoves(cfg, w1, quiet, r.id, q);
    hide Requeued, MovedOn, BranchFor, CanSend, Lost, Flagged, CleanedUp, Moved, Returned;
    var steps := [Timed(Send(p), at)];
    LostIffNotSent(cfg, w2, steps, r.id);
    OneStep(cfg, w2, Send(p), at, r.id);
    HeadOf(cfg, w1, w2, p, q, at, r.id);
  }

  lemma OneStep(cfg: Config, w: World, m: Move, now: nat, id: nat)
    requires GoodConfig(cfg)
    ensures MovedOn(cfg, w, [Timed(m, now)]) == Moved(cfg, w, m, now)
    ensures Sends(cfg, w, [Timed(m, now)], id) == SendsNow(cfg, w, m, now, id)
  {
    hide Moved, SendsNow;
    assert [Timed(m, now)][1..] == [];
    assert !Sends(cfg, Moved(cfg, w, m, now), [], id);
    assert MovedOn(cfg, Moved(cfg, w, m, now), []) == Moved(cfg, w, m, now);
  }

  // The head of the request's own queue is what it was; no other head carries the request.
  lemma HeadOf(cfg: Config, w1: World, w2: World, p: nat, q: nat, now: nat, id: nat)
    requires cfg.banksPerRefresh >= 1 && CanSend(cfg, w2, p, now) && NoMoreOf(w1.st.lines, w2.st.lines, id)
    requires QueueAt(w1.st.lines, q) != [] && QueueAt(w1.st.lines, q) <= QueueAt(w2.st.lines, q)
    requires forall r, c :: c in QueueAt(w1.st.lines, r) && CarriesId(c, id) ==> r == q
    ensures SendsNow(cfg, w2, Send(p), now, id) <==> p == q && CarriesId(QueueAt(w1.st.lines, q)[0], id)
  {
    var c := QueueAt(w2.st.lines, p)[0];
    assert c in QueueAt(w2.st.lines, p);
    if p == q {
      assert QueueAt(w2.st.lines, q)[0] == QueueAt(w1.st.lines, q)[0];
    }
  }

  // An input: a returned write, alone in the controller, to a bank that is closed.  Its activation is sent, and
  // the cleanup that follows removes the write.
  lemma WriteIsLost(now: nat) returns (w: World)
    requires now >= 1
    ensures var w0 := Start(1).(accepted := {0});
      w == w0.(st := w0.st.(transactions := [[Req(0, WRITE, Address(0, 0, 0, 0, 0), 0, false, false)]]))
    ensures var w1 := Requeued(ONE_BANK, w, 0, 0, ClosedBankRequest, false, now);
      && Eligible(ONE_BANK, w.st, ClosedBankRequest, w.st.transactions[0][0], now)
      && CanSend(ONE_BANK, w1, 0, now) && Lost(CleanedUp(Moved(ONE_BANK, w1, Send(0), now)), 0)
  {
    var r := Req(0, WRITE, Address(0, 0, 0, 0, 0), 0, false, false);
    var w0 := Start(1).(accepted := {0});
    w := w0.(st := w0.st.(transactions := [[r]]));
    var w1 := Requeued(ONE_BANK, w, 0, 0, ClosedBankRequest, false, now);
    assert Returned(w, 0, 0);
    RequeuedFlags(ONE_BANK, w, 0, 0, ClosedBankRequest, false, now);
    RequeuedKeeps(ONE_BANK, w, now);
    assert MovedOn(ONE_BANK, w1, []) == w1;
    hide Requeued, Moved, Lost;
    NextSendDecides(ONE_BANK, w, 0, 0, ClosedBankRequest, false, now, [], 0, now);
  }

  lemma RequeuedKeeps(cfg: Config, w: World, now: nat)
    requires GoodConfig(cfg) && |w.st.transactions| == 1 && |w.st.transactions[0]| == 1
    ensures var w1 := Requeued(cfg, w, 0, 0, ClosedBankRequest, false, now);
      && w1.rows == w.rows && w1.st.lastIssueCycle == w.st.lastIssueCycle
      && w1.st.handledRefresh == w.st.handledRefresh
  {
    hide CommandsFor, PushedAll, PredictionAfter;
  }
}
