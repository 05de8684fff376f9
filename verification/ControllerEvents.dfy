/**
  The controller driven by the event queue.  Cleanup callbacks, of this controller and of others that share the
  queue, have priority -10 and stand at the front of every event list, so an issued command leaves its queue
  before any work is done in the next cycle; hence no command is issued twice and at most one is issued per
  cycle, in every event-driven run.
*/
module ControllerEvents {
  import opened Controller
  import opened Coherence
  import opened Conservation
  import opened ControllerRuns
  import opened EventQueues
  import opened Sequences

  const CLEANUP_PRIORITY: int := -10

  // Any other callback or event of the simulator is a piece of work.
  datatype Body = Cleanup | Work(what: nat)

  const CLEANUP_EVENT: Event<Body> := Event(0, CLEANUP_PRIORITY, Cleanup)

  // What a piece of work does to the controller, and what it schedules.
  datatype Plan = Plan(moves: seq<Move>, effects: seq<Effect<Body>>)

  type Policy = (World, Queue<Body>, Event<Body>) -> Plan

  predicate IsCleanup(e: Event<Body>) { e.body.Cleanup? }

  // This controller's cleanup or another's: callbacks store the priority they are inserted with.
  predicate InFront(e: Event<Body>) { e.priority == CLEANUP_PRIORITY }

  predicate EventOk(e: Event<Body>) {
    e.priority >= CLEANUP_PRIORITY && (IsCleanup(e) ==> InFront(e))
  }

  // Inserted in front or behind, as the stored priority says.
  predicate GoesWhereStored(e: Event<Body>, priority: int) {
    if InFront(e) then priority == CLEANUP_PRIORITY else priority > CLEANUP_PRIORITY
  }

  // Work leaves this controller's cleanups alone.
  predicate EffectOk(f: Effect<Body>) {
    !IsCleanup(f.event) && EventOk(f.event) && (f.Insert? ==> GoesWhereStored(f.event, f.priority))
  }

  // Effects come in later cycles, and what runs in front of a list is no work of this controller's.
  ghost predicate Fair(policy: Policy) {
    forall w, q, e ::
      var plan := policy(w, q, e);
      && Later(plan.effects, q.next) && (forall f :: f in plan.effects ==> EffectOk(f))
      && (InFront(e) ==> plan.moves == [])
  }

  function MovedAll(cfg: Config, w: World, moves: seq<Move>, now: nat): World
    requires GoodConfig(cfg)
    decreases |moves|
  {
    if moves == [] then w else MovedAll(cfg, Moved(cfg, w, moves[0], now), moves[1..], now)
  }

  predicate CleanupAt(q: Queue<Body>, cycle: nat) {
    cycle in q.events && exists k :: 0 <= k < |q.events[cycle]| && IsCleanup(q.events[cycle][k])
  }

  // A piece of work that issued a command has a cleanup scheduled for the next cycle, once.
  function CleanupEffects(q: Queue<Body>, w: World, w': World): seq<Effect<Body>> {
    if |w'.log| > |w.log| && !CleanupAt(q, q.next + 1) && q.next + 1 < MAX_CYCLE then
      [Insert(CLEANUP_EVENT, q.next + 1, CLEANUP_PRIORITY)]
    else []
  }

  // While an event is processed the clock shows the cycle of the list it is in.
  function Controlled(cfg: Config, policy: Policy): Handler<World, Body>
    requires GoodConfig(cfg)
  {
    (w: World, q: Queue<Body>, e: Event<Body>) =>
      if IsCleanup(e) then Reaction(CleanedUp(w), [])
      else
        var plan := policy(w, q, e);
        var w' := MovedAll(cfg, w, plan.moves, q.next);
        Reaction(w', CleanupEffects(q, w, w') + plan.effects)
  }

  lemma ControlledIsStrict(cfg: Config, policy: Policy)
    requires GoodConfig(cfg) && Fair(policy)
    ensures Strict(Controlled(cfg, policy))
  {
    forall w, q, e ensures Later(Controlled(cfg, policy)(w, q, e).effects, q.next) {
      assert Later(policy(w, q, e).effects, q.next);
    }
  }

  // ----- Cleanups come first -----

  ghost predicate CleanupsFirst(list: seq<Event<Body>>) {
    && (forall i :: 0 <= i < |list| ==> EventOk(list[i]))
    && (forall i, j :: 0 <= i < j < |list| && InFront(list[j]) ==> InFront(list[i]))
  }

  ghost predicate AllCleanupsFirst(q: Queue<Body>) {
    forall c :: c in q.events ==> CleanupsFirst(q.events[c])
  }

  lemma SplicedCleanupsFirst(list: seq<Event<Body>>, e: Event<Body>, priority: int)
    requires CleanupsFirst(list) && EventOk(e) && GoesWhereStored(e, priority)
    ensures CleanupsFirst(Spliced(list, e, priority))
    ensures forall k :: 0 <= k < |list| && IsCleanup(list[k]) ==>
              exists m :: 0 <= m < |Spliced(list, e, priority)| && Spliced(list, e, priority)[m] == list[k]
    ensures exists m :: 0 <= m < |Spliced(list, e, priority)| && Spliced(list, e, priority)[m] == e
  {
    SplicedSize(list, e, priority);
    hide Spliced, Position;
    var i := Position(list, priority);
    var r := Spliced(list, e, priority);
    forall a, b | 0 <= a < b < |r| && InFront(r[b]) ensures InFront(r[a]) {
      SplicedAt(list, e, priority, a);
      SplicedAt(list, e, priority, b);
      if b < i {
        assert InFront(list[a]);
      } else if b == i {
        assert EventOk(list[a]);
      } else {
        assert false;
      }
    }
    forall m | 0 <= m < |r| ensures EventOk(r[m]) {
      SplicedAt(list, e, priority, m);
      if m != i {
        assert EventOk(list[if m < i then m else m - 1]);
      }
    }
    forall k | 0 <= k < |list| ensures exists m :: 0 <= m < |r| && r[m] == list[k] {
      var m := if k < i then k else k + 1;
      SplicedAt(list, e, priority, m);
      assert r[m] == list[k];
    }
  }

  lemma WithoutCleanupsFirst(list: seq<Event<Body>>, e: Event<Body>)
    requires CleanupsFirst(list) && !IsCleanup(e)
    ensures CleanupsFirst(Without(list, e))
    ensures forall k :: 0 <= k < |list| && IsCleanup(list[k]) ==>
              exists m :: 0 <= m < |Without(list, e)| && Without(list, e)[m] == list[k]
  {
    if e in list {
      var i := FirstOf(list, e);
      WithoutAt(list, e, i);
      var r := Without(list, e);
      forall k | 0 <= k < |list| && k != i ensures r[if k < i then k else k - 1] == list[k] {
      }
      forall m | 0 <= m < |r| ensures r[m] == if m < i then list[m] else list[m + 1] {
      }
    } else {
      assert list[..|list|] == list;
      WithoutAt(list, e, |list|);
    }
  }

  lemma {:induction false} FirstOf(list: seq<Event<Body>>, e: Event<Body>) returns (i: nat)
    requires e in list
    ensures i < |list| && list[i] == e && e !in list[..i]
  {
    if list[0] == e {
      i := 0;
    } else {
      i := FirstOf(list[1..], e);
      assert list[..i + 1] == [list[0]] + list[1..][..i];
      i := i + 1;
    }
  }

  // An effect keeps the cleanups in front, and every cleanup that was scheduled.
  lemma AppliedKeepsCleanups(q: Queue<Body>, f: Effect<Body>)
    requires AllCleanupsFirst(q)
    requires EffectOk(f) || (f.Insert? && f.event == CLEANUP_EVENT && f.priority == CLEANUP_PRIORITY)
    ensures AllCleanupsFirst(Applied(q, f))
    ensures forall c :: CleanupAt(q, c) ==> CleanupAt(Applied(q, f), c)
    ensures f.Insert? && f.event == CLEANUP_EVENT ==> CleanupAt(Applied(q, f), f.when)
  {
    var r := Applied(q, f);
    match f
    case Insert(e, when, priority) =>
      if when in q.events {
        SplicedCleanupsFirst(q.events[when], e, priority);
        forall c | CleanupAt(q, c) ensures CleanupAt(r, c) {
          var k :| 0 <= k < |q.events[c]| && IsCleanup(q.events[c][k]);
          if c == when {
            var list := Spliced(q.events[when], e, priority);
            var m :| 0 <= m < |list| && list[m] == q.events[c][k];
            assert r.events[c] == list;
          }
        }
      } else {
        assert r.events[when][0] == e;
      }
    case Remove(e, when) =>
      if when in q.events {
        WithoutCleanupsFirst(q.events[when], e);
        WithoutMissing(q.events[when], e);
        forall c | CleanupAt(q, c) ensures CleanupAt(r, c) {
          var k :| 0 <= k < |q.events[c]| && IsCleanup(q.events[c][k]);
          if c == when {
            var m :| 0 <= m < |Without(q.events[when], e)| && Without(q.events[when], e)[m] == q.events[c][k];
            assert r.events[c] == Without(q.events[when], e);
          }
        }
      }
  }

  lemma {:induction false} WithoutMissing(list: seq<Event<Body>>, e: Event<Body>)
    ensures e !in list ==> Without(list, e) == list
  {
    if list != [] {
      WithoutMissing(list[1..], e);
    }
  }

  lemma {:induction false} AppliedAllKeepsCleanups(q: Queue<Body>, effects: seq<Effect<Body>>)
    requires AllCleanupsFirst(q) && forall f :: f in effects ==> EffectOk(f)
    ensures AllCleanupsFirst(AppliedAll(q, effects))
    ensures forall c :: CleanupAt(q, c) ==> CleanupAt(AppliedAll(q, effects), c)
    decreases |effects|
  {
    if effects != [] {
      assert effects[0] in effects && forall f :: f in effects[1..] ==> f in effects;
      AppliedKeepsCleanups(q, effects[0]);
      AppliedAllKeepsCleanups(Applied(q, effects[0]), effects[1..]);
    }
  }

  // ----- What holds while the events of a cycle are processed -----

  ghost predicate NoIssued(l: Lines) {
    forall q, c :: c in QueueAt(l, q) ==> !c.issued
  }

  function LastIssue(w: World): Issue
    requires w.log != []
  {
    w.log[|w.log| - 1]
  }

  // The only issued command still in a queue is the one issued last.
  ghost predicate OnlyLastIssued(w: World) {
    forall q, c :: c in QueueAt(w.st.lines, q) && c.issued ==>
      w.log != [] && c == LastIssue(w).cmd.(issued := true)
  }

  predicate OnePerCycle(log: seq<Issue>) {
    forall i, j :: 0 <= i < j < |log| ==> log[i].at < log[j].at
  }

  // Nothing was issued later than `now`, and what was issued earlier has been cleaned up.
  ghost predicate AtCycle(cfg: Config, w: World, now: nat)
    requires cfg.banksPerRefresh >= 1
  {
    && Sound(cfg, w) && OnePerCycle(w.log) && OnlyLastIssued(w)
    && (w.log != [] ==> LastIssue(w).at == w.st.lastIssueCycle <= now)
    && (NoIssued(w.st.lines) || (w.log != [] && LastIssue(w).at == now))
  }

  ghost predicate IssuedWithin(l': Lines, l: Lines) {
    forall q, c :: c in QueueAt(l', q) && c.issued ==> c in QueueAt(l, q)
  }

  lemma PushedIssued(l: Lines, q: nat, c: Cmd)
    requires !c.issued
    ensures IssuedWithin(Pushed(l, q, c), l)
  {
  }

  lemma {:induction false} PushedAllIssued(l: Lines, q: nat, cmds: seq<Cmd>)
    requires forall c :: c in cmds ==> !c.issued
    ensures IssuedWithin(PushedAll(l, q, cmds), l)
    decreases |cmds|
  {
    if cmds != [] {
      assert cmds[0] in cmds && forall c :: c in cmds[1..] ==> c in cmds;
      PushedIssued(l, q, cmds[0]);
      PushedAllIssued(Pushed(l, q, cmds[0]), q, cmds[1..]);
    }
  }

  lemma {:induction false} ClosedForRefreshIssued(cfg: Config, l: Lines, p: Prediction, g: Group, n: nat)
    ensures IssuedWithin(ClosedForRefresh(cfg, l, p, g, n).0, l)
  {
    if n > 0 {
      ClosedForRefreshIssued(cfg, l, p, g, n - 1);
      var b := BankId(g.rank, g.index * cfg.banksPerRefresh + (n - 1));
      PushedIssued(ClosedForRefresh(cfg, l, p, g, n - 1).0, QueueId(cfg, b), PrechargeAllCmd(b));
    }
  }

  lemma CommandsUnissued(cfg: Config, p: Prediction, r: Req, b: Branch)
    ensures forall c :: c in CommandsFor(cfg, p, r, b) ==> !c.issued
  {
  }

  lemma ScheduledIssued(cfg: Config, st: State, t: nat, i: nat, sel: Selector, force: bool, now: nat)
    requires GoodConfig(cfg)
    ensures IssuedWithin(ScheduledAt(cfg, st, t, i, sel, force, now).lines, st.lines)
    ensures ScheduledAt(cfg, st, t, i, sel, force, now).lastIssueCycle == st.lastIssueCycle
  {
    if t < |st.transactions| {
      var queue := st.transactions[t];
      if i < |queue| && Eligible(cfg, st, sel, queue[i], now) {
        var rest := Controller.Removed(queue, i);
        var r := queue[i].(last := queue[i].last || IsLastRequest(cfg, rest, queue[i]),
                           forced := queue[i].forced || force);
        var b := BranchFor(cfg, st.lines, st.pred, r);
        hide Eligible, FirstEligible, IsLastRequest, CommandsFor, BranchFor, IssuedWithin, PredictionAfter;
        CommandsUnissued(cfg, st.pred, r, b);
        PushedAllIssued(st.lines, QueueId(cfg, BankOf(r.addr)), CommandsFor(cfg, st.pred, r, b));
      }
    }
  }

  lemma RefreshIssued(cfg: Config, st: State, g: Group, now: nat)
    requires GoodConfig(cfg) && Delayed(st.refresh, g) >= 1
    ensures IssuedWithin(RefreshHandled(cfg, st, g, now).lines, st.lines)
    ensures RefreshHandled(cfg, st, g, now).lastIssueCycle == st.lastIssueCycle
  {
    ClosedForRefreshIssued(cfg, st.lines, st.pred, g, cfg.banksPerRefresh);
    PushedIssued(ClosedForRefresh(cfg, st.lines, st.pred, g, cfg.banksPerRefresh).0, QueueId(cfg, GroupHead(cfg, g)),
                 RefreshCmd(GroupHead(cfg, g)));
  }

  // No move but Send issues anything.
  lemma OthersIssueNothing(cfg: Config, w: World, m: Move, now: nat)
    requires GoodConfig(cfg) && !m.Send?
    ensures IssuedWithin(Moved(cfg, w, m, now).st.lines, w.st.lines)
    ensures Moved(cfg, w, m, now).log == w.log && Moved(cfg, w, m, now).st.lastIssueCycle == w.st.lastIssueCycle
  {
    match m
    case Accept(t, r, front) =>
    case Schedule(t, i, sel, force) => ScheduledIssued(cfg, w.st, t, i, sel, force, now);
    case Pulse(g) =>
    case HandleRefresh =>
      var g := RefreshAccounting.Chosen(cfg, w.st.refresh, 0, 0);
      if g.Some? {
        RefreshIssued(cfg, w.st, g.value, now);
      }
    case Complete(id) =>
  }

  lemma LaunchedIssued(cfg: Config, w: World, q: nat, now: nat)
    requires cfg.banksPerRefresh >= 1 && QueueAt(w.st.lines, q) != [] && NoIssued(w.st.lines)
    ensures var w' := Launched(cfg, w, q, now);
      && |w'.log| == |w.log| + 1 && LastIssue(w').at == w'.st.lastIssueCycle == now
      && OnlyLastIssued(w') && (forall i :: 0 <= i < |w.log| ==> w'.log[i] == w.log[i])
  {
    var w' := Launched(cfg, w, q, now);
    var c := QueueAt(w.st.lines, q)[0];
    forall p, d | d in QueueAt(w'.st.lines, p) && d.issued ensures d == c.(issued := true) {
      assert d in QueueAt(w.st.lines, p) || d == c.(issued := true);
    }
  }

  lemma SendKeepsCycle(cfg: Config, w: World, q: nat, now: nat)
    requires GoodConfig(cfg) && AtCycle(cfg, w, now) && CanSend(cfg, w, q, now)
    ensures AtCycle(cfg, Launched(cfg, w, q, now), now)
  {
    hide Sound, Launched, Moved;
    var c := QueueAt(w.st.lines, q)[0];
    assert c in QueueAt(w.st.lines, q);
    assert Moved(cfg, w, Send(q), now) == Launched(cfg, w, q, now) by {
      SendIsLaunch(cfg, w, q, now);
    }
    MoveKeepsSound(cfg, w, Send(q), now);
    LaunchedIssued(cfg, w, q, now);
  }

  lemma SendIsLaunch(cfg: Config, w: World, q: nat, now: nat)
    requires GoodConfig(cfg)
    ensures Moved(cfg, w, Send(q), now) == if CanSend(cfg, w, q, now) then Launched(cfg, w, q, now) else w
  {
  }

  lemma MoveKeepsCycle(cfg: Config, w: World, m: Move, now: nat)
    requires GoodConfig(cfg) && AtCycle(cfg, w, now)
    ensures AtCycle(cfg, Moved(cfg, w, m, now), now)
    ensures var w' := Moved(cfg, w, m, now);
      (w'.log == w.log && IssuedWithin(w'.st.lines, w.st.lines)) || (|w'.log| > |w.log| && LastIssue(w').at == now)
  {
    hide Sound, Moved, CanSend, Launched;
    if m.Send? {
      SendIsLaunch(cfg, w, m.q, now);
      if CanSend(cfg, w, m.q, now) {
        SendKeepsCycle(cfg, w, m.q, now);
        assert QueueAt(w.st.lines, m.q) != [] && NoIssued(w.st.lines) by {
          CanSendNow(cfg, w, m.q, now);
        }
        LaunchedIssued(cfg, w, m.q, now);
      }
    } else {
      MoveKeepsSound(cfg, w, m, now);
      OthersIssueNothing(cfg, w, m, now);
    }
  }

  lemma CanSendNow(cfg: Config, w: World, q: nat, now: nat)
    requires GoodConfig(cfg) && AtCycle(cfg, w, now) && CanSend(cfg, w, q, now)
    ensures QueueAt(w.st.lines, q) != [] && NoIssued(w.st.lines)
  {
  }

  lemma {:induction false} MovesKeepCycle(cfg: Config, w: World, moves: seq<Move>, now: nat)
    requires GoodConfig(cfg) && AtCycle(cfg, w, now)
    ensures AtCycle(cfg, MovedAll(cfg, w, moves, now), now)
    ensures var w' := MovedAll(cfg, w, moves, now);
      (w'.log == w.log && IssuedWithin(w'.st.lines, w.st.lines)) || (|w'.log| > |w.log| && LastIssue(w').at == now)
    decreases |moves|
  {
    hide AtCycle, Moved;
    if moves != [] {
      MoveKeepsCycle(cfg, w, moves[0], now);
      MovesKeepCycle(cfg, Moved(cfg, w, moves[0], now), moves[1..], now);
    }
  }

  // Between two events of the list of cycle `now`: a command just issued will be cleaned up.
  ghost predicate During(cfg: Config, s: Sim<World, Body>, now: nat)
    requires cfg.banksPerRefresh >= 1
  {
    && AtCycle(cfg, s.world, now) && AllCleanupsFirst(s.queue)
    && (NoIssued(s.world.st.lines) || CleanupAt(s.queue, now + 1))
  }

  lemma CleanupKeepsCycle(cfg: Config, w: World, now: nat)
    requires GoodConfig(cfg) && Sound(cfg, w) && OnePerCycle(w.log)
    requires w.log != [] ==> LastIssue(w).at == w.st.lastIssueCycle <= now
    ensures AtCycle(cfg, CleanedUp(w), now) && NoIssued(CleanedUp(w).st.lines)
  {
    CleanupKeepsSound(cfg, w);
    forall q, c | c in QueueAt(CleanedUp(w).st.lines, q) ensures !c.issued {
      UnissuedWithin(QueueAt(w.st.lines, q));
      assert QueueAt(CleanedUp(w).st.lines, q) == Unissued(QueueAt(w.st.lines, q));
    }
  }

  // What a piece of work schedules keeps the cleanups in order; one that issued a command has its cleanup.
  lemma EffectsOfWork(q: Queue<Body>, w: World, w': World, effects: seq<Effect<Body>>)
    requires AllCleanupsFirst(q) && q.next + 1 < MAX_CYCLE && forall f :: f in effects ==> EffectOk(f)
    ensures var q' := AppliedAll(q, CleanupEffects(q, w, w') + effects);
      && AllCleanupsFirst(q') && (CleanupAt(q, q.next + 1) || |w'.log| > |w.log| ==> CleanupAt(q', q.next + 1))
  {
    hide AllCleanupsFirst, CleanupAt, AppliedAll;
    var mine := CleanupEffects(q, w, w');
    AppliedAllTwice(q, mine, effects);
    var q1 := AppliedAll(q, mine);
    NoEffects(q);
    if mine != [] {
      AppliedKeepsCleanups(q, mine[0]);
      OneEffect(q, mine[0]);
    }
    AppliedAllKeepsCleanups(q1, effects);
  }

  lemma HandledKeepsDuring(cfg: Config, policy: Policy, s: Sim<World, Body>, e: Event<Body>)
    requires GoodConfig(cfg) && Fair(policy) && During(cfg, s, s.queue.next) && s.queue.next + 1 < MAX_CYCLE
    ensures During(cfg, Handled(Controlled(cfg, policy), s, e), s.queue.next)
  {
    var now := s.queue.next;
    var w := s.world;
    hide AtCycle, AllCleanupsFirst, NoIssued, MovedAll, CleanupAt, CleanupEffects, CleanedUp;
    if IsCleanup(e) {
      NoEffects(s.queue);
      CleanupDuring(cfg, w, now);
    } else {
      var plan := policy(w, s.queue, e);
      var w' := MovedAll(cfg, w, plan.moves, now);
      MovesKeepCycle(cfg, w, plan.moves, now);
      EffectsOfWork(s.queue, w, w', plan.effects);
      if w'.log == w.log {
        WithinNone(w'.st.lines, w.st.lines);
      }
    }
  }

  lemma CleanupDuring(cfg: Config, w: World, now: nat)
    requires GoodConfig(cfg) && AtCycle(cfg, w, now)
    ensures AtCycle(cfg, CleanedUp(w), now) && NoIssued(CleanedUp(w).st.lines)
  {
    CleanupKeepsCycle(cfg, w, now);
  }

  lemma {:induction false} AppliedAllTwice(q: Queue<Body>, a: seq<Effect<Body>>, b: seq<Effect<Body>>)
    ensures AppliedAll(q, a + b) == AppliedAll(AppliedAll(q, a), b)
    decreases |a|
  {
    if a == [] {
      assert a + b == b;
    } else {
      assert (a + b)[1..] == a[1..] + b;
      AppliedAllTwice(Applied(q, a[0]), a[1..], b);
    }
  }

  lemma OneEffect(q: Queue<Body>, f: Effect<Body>)
    ensures AppliedAll(q, [f]) == Applied(q, f)
  {
  }

  lemma NoEffects(q: Queue<Body>)
    ensures AppliedAll(q, []) == q
  {
  }

  lemma WithinNone(l': Lines, l: Lines)
    requires IssuedWithin(l', l)
    ensures NoIssued(l) ==> NoIssued(l')
  {
  }

  // ----- Whole runs -----

  // Between two cycles: nothing was issued later than the current cycle, and an issued command still queued
  // has its cleanup scheduled for the cycle after it.
  ghost predicate Between(cfg: Config, s: Sim<World, Body>)
    requires cfg.banksPerRefresh >= 1
  {
    && Sound(cfg, s.world) && OnePerCycle(s.world.log) && OnlyLastIssued(s.world)
    && WellFormed(s.queue) && AllCleanupsFirst(s.queue)
    && (s.world.log != [] ==> LastIssue(s.world).at == s.world.st.lastIssueCycle <= s.queue.current)
    && (NoIssued(s.world.st.lines) || CleanupAt(s.queue, s.world.st.lastIssueCycle + 1))
  }

  // What holds before this controller's cleanup has run in a cycle.
  ghost predicate Awaiting(cfg: Config, s: Sim<World, Body>, now: nat)
    requires cfg.banksPerRefresh >= 1
  {
    && Sound(cfg, s.world) && OnePerCycle(s.world.log) && OnlyLastIssued(s.world) && AllCleanupsFirst(s.queue)
    && (s.world.log != [] ==> LastIssue(s.world).at == s.world.st.lastIssueCycle <= now)
  }

  // The cleanup is among the events in front of the list.
  ghost predicate CleanupComes(list: seq<Event<Body>>) {
    exists k :: 0 <= k < |list| && IsCleanup(list[k]) && forall j :: 0 <= j <= k ==> InFront(list[j])
  }

  // Entering the next list, either nothing is issued or a cleanup comes in front.
  lemma Entering(cfg: Config, s: Sim<World, Body>)
    requires GoodConfig(cfg) && Between(cfg, s) && s.queue.next in s.queue.events
    ensures Awaiting(cfg, s, s.queue.next)
    ensures During(cfg, s, s.queue.next) || CleanupComes(s.queue.events[s.queue.next])
  {
    hide Sound;
    if !NoIssued(s.world.st.lines) {
      var q, c :| c in QueueAt(s.world.st.lines, q) && c.issued;
      var due := s.world.st.lastIssueCycle + 1;
      assert due in s.queue.events.Keys;
      if due == s.queue.next {
        assert CleanupsFirst(s.queue.events[due]);
        var k :| 0 <= k < |s.queue.events[due]| && IsCleanup(s.queue.events[due][k]);
        assert InFront(s.queue.events[due][k]);
      }
    }
  }

  lemma {:induction false} ListKeepsDuring(cfg: Config, policy: Policy, s: Sim<World, Body>, list: seq<Event<Body>>)
    requires GoodConfig(cfg) && Fair(policy) && WellFormed(s.queue) && s.queue.next in s.queue.events
    requires During(cfg, s, s.queue.next) && s.queue.next + 1 < MAX_CYCLE
    ensures During(cfg, HandledAll(Controlled(cfg, policy), s, list), s.queue.next)
    decreases |list|
  {
    hide During, Handled;
    if list != [] {
      var h := Controlled(cfg, policy);
      ControlledIsStrict(cfg, policy);
      HandledKeepsDuring(cfg, policy, s, list[0]);
      HandledKeepsFront(h, s, list[0]);
      ListKeepsDuring(cfg, policy, Handled(h, s, list[0]), list[1..]);
    }
  }

  // Another controller's cleanup leaves this one as it is.
  lemma ForeignKeepsAwaiting(cfg: Config, policy: Policy, s: Sim<World, Body>, e: Event<Body>)
    requires GoodConfig(cfg) && Fair(policy) && Awaiting(cfg, s, s.queue.next) && InFront(e) && !IsCleanup(e)
    ensures Awaiting(cfg, Handled(Controlled(cfg, policy), s, e), s.queue.next)
  {
    var plan := policy(s.world, s.queue, e);
    hide Sound, AllCleanupsFirst, AppliedAll, CleanupAt;
    assert plan.moves == [] && [] + plan.effects == plan.effects;
    AppliedAllKeepsCleanups(s.queue, plan.effects);
  }

  lemma CleanupStartsDuring(cfg: Config, policy: Policy, s: Sim<World, Body>, e: Event<Body>)
    requires GoodConfig(cfg) && Awaiting(cfg, s, s.queue.next) && IsCleanup(e)
    ensures During(cfg, Handled(Controlled(cfg, policy), s, e), s.queue.next)
  {
    hide Sound, AtCycle, NoIssued, CleanedUp, AllCleanupsFirst;
    CleanupKeepsCycle(cfg, s.world, s.queue.next);
    NoEffects(s.queue);
  }

  // A list that has the cleanup in front, if there is something to clean up, leaves the cycle in order.
  lemma {:induction false} ListEnters(cfg: Config, policy: Policy, s: Sim<World, Body>, list: seq<Event<Body>>)
    requires GoodConfig(cfg) && Fair(policy) && WellFormed(s.queue) && s.queue.next in s.queue.events
    requires Awaiting(cfg, s, s.queue.next) && s.queue.next + 1 < MAX_CYCLE
    requires During(cfg, s, s.queue.next) || CleanupComes(list)
    ensures During(cfg, HandledAll(Controlled(cfg, policy), s, list), s.queue.next)
    decreases |list|
  {
    var h := Controlled(cfg, policy);
    hide During, Awaiting, Handled, Controlled;
    if During(cfg, s, s.queue.next) {
      ListKeepsDuring(cfg, policy, s, list);
    } else {
      var k :| 0 <= k < |list| && IsCleanup(list[k]) && forall j :: 0 <= j <= k ==> InFront(list[j]);
      ControlledIsStrict(cfg, policy);
      HandledKeepsFront(h, s, list[0]);
      if IsCleanup(list[0]) {
        CleanupStartsDuring(cfg, policy, s, list[0]);
        ListKeepsDuring(cfg, policy, Handled(h, s, list[0]), list[1..]);
      } else {
        ForeignKeepsAwaiting(cfg, policy, s, list[0]);
        assert IsCleanup(list[1..][k - 1]) && forall j :: 0 <= j <= k - 1 ==> InFront(list[1..][j]);
        ListEnters(cfg, policy, Handled(h, s, list[0]), list[1..]);
      }
    }
  }

  // When an event behind the cleanups starts, every command issued in an earlier cycle has left its queue.
  lemma WorkAfterCleanup(cfg: Config, policy: Policy, s: Sim<World, Body>, k: nat)
    requires GoodConfig(cfg) && Fair(policy) && Between(cfg, s)
    requires s.queue.next in s.queue.events && s.queue.next + 1 < MAX_CYCLE
    requires k < |s.queue.events[s.queue.next]| && !InFront(s.queue.events[s.queue.next][k])
    ensures During(cfg, HandledAll(Controlled(cfg, policy), s, s.queue.events[s.queue.next][..k]), s.queue.next)
  {
    var list := s.queue.events[s.queue.next];
    Entering(cfg, s);
    if CleanupComes(list) {
      var m :| 0 <= m < |list| && IsCleanup(list[m]) && forall j :: 0 <= j <= m ==> InFront(list[j]);
      assert m < k;
      assert IsCleanup(list[..k][m]) && forall j :: 0 <= j <= m ==> InFront(list[..k][j]);
    }
    hide During, Awaiting, Between, HandledAll, Controlled;
    BetweenIsWellFormed(cfg, s);
    ListEnters(cfg, policy, s, list[..k]);
  }

  lemma BetweenIsWellFormed(cfg: Config, s: Sim<World, Body>)
    requires cfg.banksPerRefresh >= 1 && Between(cfg, s)
    ensures WellFormed(s.queue)
  {
  }

  lemma ProcessedKeepsBetween(cfg: Config, policy: Policy, s: Sim<World, Body>)
    requires GoodConfig(cfg) && Fair(policy) && Between(cfg, s) && Ready(Controlled(cfg, policy), s)
    requires s.queue.next in s.queue.events && s.queue.next + 1 < MAX_CYCLE && s.queue.next == s.queue.current
    ensures Between(cfg, Processed(Controlled(cfg, policy), s))
  {
    var h := Controlled(cfg, policy);
    var list := s.queue.events[s.queue.next];
    Entering(cfg, s);
    ListEnters(cfg, policy, s, list);
    HandledAllKeepsFront(h, s, list);
    Leaving(cfg, s.queue.next, HandledAll(h, s, list), Processed(h, s));
  }

  lemma Leaving(cfg: Config, now: nat, t: Sim<World, Body>, t': Sim<World, Body>)
    requires GoodConfig(cfg) && During(cfg, t, now) && t.queue.next == now == t.queue.current
    requires t' == t.(queue := Retired(t.queue)) && WellFormed(t'.queue) && now < t'.queue.next
    ensures Between(cfg, t')
  {
    hide Sound;
    if CleanupAt(t.queue, now + 1) {
      assert t'.queue.events[now + 1] == t.queue.events[now + 1];
    }
  }

  lemma TickKeepsBetween(cfg: Config, policy: Policy, s: Sim<World, Body>)
    requires GoodConfig(cfg) && Fair(policy) && Between(cfg, s) && Ready(Controlled(cfg, policy), s)
    requires s.queue.current + 1 < MAX_CYCLE
    ensures Between(cfg, Ticked(Controlled(cfg, policy), s))
  {
    hide Processed, Sound, Controlled;
    if s.queue.next == s.queue.current {
      assert s.queue.next in s.queue.events.Keys;
      ProcessedKeepsBetween(cfg, policy, s);
    }
  }

  lemma {:induction false} TickingKeepsBetween(cfg: Config, policy: Policy, s: Sim<World, Body>, n: nat)
    requires GoodConfig(cfg) && Fair(policy) && Between(cfg, s) && Ready(Controlled(cfg, policy), s)
    requires s.queue.current + n + 1 < MAX_CYCLE
    ensures Between(cfg, TickedBy(Controlled(cfg, policy), s, n))
    decreases n
  {
    hide Ticked, Between, Controlled;
    if n > 0 {
      TickKeepsBetween(cfg, policy, s);
      TickingKeepsBetween(cfg, policy, Ticked(Controlled(cfg, policy), s), n - 1);
    }
  }

  // No command is issued twice: commands from one queue are numbered, and no two queues share a bank.
  lemma IssuedOnce(cfg: Config, log: seq<Issue>, tags: nat, i: nat, j: nat)
    requires LogInOrder(cfg, log, tags) && i < j < |log|
    ensures log[i].cmd != log[j].cmd
  {
    assert log[i].cmd == log[j].cmd ==> SameQueue(cfg, log[i].cmd, log[j].cmd);
  }

  ghost predicate Quiet(q: Queue<Body>) {
    WellFormed(q) && AllCleanupsFirst(q)
  }

  lemma AdvancedKeepsBetween(cfg: Config, policy: Policy, s: Sim<World, Body>, n: nat)
    requires GoodConfig(cfg) && Fair(policy) && Between(cfg, s) && Ready(Controlled(cfg, policy), s)
    requires s.queue.current + n + 1 < MAX_CYCLE
    ensures Between(cfg, Advanced(Controlled(cfg, policy), s, n))
  {
    var h := Controlled(cfg, policy);
    hide Controlled, Processed, TickedBy, Sound;
    SkippingIsTicking(h, s, n);
    TickingKeepsBetween(cfg, policy, s, n);
    var t := TickedBy(h, s, n);
    if t.queue.next == t.queue.current {
      assert t.queue.next in t.queue.events.Keys;
      ProcessedKeepsBetween(cfg, policy, t);
    }
  }

  // ----- What happens between two calls of the loop -----

  // The loop runs for n cycles; or something outside it, such as the processor handing over requests, makes
  // moves and inserts or removes events, in the current cycle at the earliest.
  datatype Step = Advance(n: nat) | Outside(moves: seq<Move>, effects: seq<Effect<Body>>)

  // Commands are sent from callbacks only.
  predicate OutsideOk(q: Queue<Body>, moves: seq<Move>, effects: seq<Effect<Body>>) {
    && (forall m :: m in moves ==> !m.Send?)
    && (forall f :: f in effects ==> EffectOk(f) && q.current <= f.when < MAX_CYCLE)
  }

  // A step that would reach the end of time or that is not one of these changes nothing.
  ghost function Stepped(cfg: Config, policy: Policy, s: Sim<World, Body>, step: Step): Sim<World, Body>
    requires GoodConfig(cfg)
  {
    match step
    case Advance(n) =>
      if Ready(Controlled(cfg, policy), s) && s.queue.current + n + 1 < MAX_CYCLE then
        Advanced(Controlled(cfg, policy), s, n)
      else s
    case Outside(moves, effects) =>
      if OutsideOk(s.queue, moves, effects) then
        Sim(AppliedAll(s.queue, effects), MovedAll(cfg, s.world, moves, s.queue.current))
      else s
  }

  ghost function Session(cfg: Config, policy: Policy, s: Sim<World, Body>, steps: seq<Step>): Sim<World, Body>
    requires GoodConfig(cfg)
    decreases |steps|
  {
    if steps == [] then s
    else Stepped(cfg, policy, Session(cfg, policy, s, steps[..|steps| - 1]), steps[|steps| - 1])
  }

  lemma {:induction false} OutsideMoves(cfg: Config, w: World, moves: seq<Move>, now: nat)
    requires GoodConfig(cfg) && Sound(cfg, w) && forall m :: m in moves ==> !m.Send?
    ensures var w' := MovedAll(cfg, w, moves, now);
      && Sound(cfg, w') && w'.log == w.log && w'.st.lastIssueCycle == w.st.lastIssueCycle
      && IssuedWithin(w'.st.lines, w.st.lines)
    decreases |moves|
  {
    hide Moved, Sound;
    if moves != [] {
      assert moves[0] in moves && forall m :: m in moves[1..] ==> m in moves;
      MoveKeepsSound(cfg, w, moves[0], now);
      OthersIssueNothing(cfg, w, moves[0], now);
      OutsideMoves(cfg, Moved(cfg, w, moves[0], now), moves[1..], now);
    }
  }

  lemma {:induction false} OutsideEffects(q: Queue<Body>, effects: seq<Effect<Body>>)
    requires WellFormed(q) && forall f :: f in effects ==> q.current <= f.when < MAX_CYCLE
    ensures WellFormed(AppliedAll(q, effects)) && AppliedAll(q, effects).current == q.current
    decreases |effects|
  {
    hide WellFormed;
    if effects != [] {
      var f := effects[0];
      assert f in effects && forall g :: g in effects[1..] ==> g in effects;
      if f.Insert? {
        InsertedWellFormed(q, f.event, f.when, f.priority);
      } else {
        RemovedWellFormed(q, f.event, f.when);
      }
      OutsideEffects(Applied(q, f), effects[1..]);
    }
  }

  lemma OutsideKeepsBetween(cfg: Config, s: Sim<World, Body>, moves: seq<Move>, effects: seq<Effect<Body>>)
    requires GoodConfig(cfg) && Between(cfg, s) && OutsideOk(s.queue, moves, effects)
    ensures Between(cfg, Sim(AppliedAll(s.queue, effects), MovedAll(cfg, s.world, moves, s.queue.current)))
  {
    hide Sound, MovedAll, AppliedAll, WellFormed, AllCleanupsFirst, CleanupAt;
    OutsideMoves(cfg, s.world, moves, s.queue.current);
    OutsideEffects(s.queue, effects);
    AppliedAllKeepsCleanups(s.queue, effects);
  }

  lemma {:induction false} SessionKeepsBetween(cfg: Config, policy: Policy, s: Sim<World, Body>, steps: seq<Step>)
    requires GoodConfig(cfg) && Fair(policy) && Between(cfg, s)
    ensures Between(cfg, Session(cfg, policy, s, steps))
    decreases |steps|
  {
    if steps != [] {
      var t := Session(cfg, policy, s, steps[..|steps| - 1]);
      SessionKeepsBetween(cfg, policy, s, steps[..|steps| - 1]);
      ControlledIsStrict(cfg, policy);
      hide Between, Controlled, Advanced, Strict, OutsideOk;
      match steps[|steps| - 1]
      case Advance(n) =>
        if Ready(Controlled(cfg, policy), t) && t.queue.current + n + 1 < MAX_CYCLE {
          AdvancedKeepsBetween(cfg, policy, t, n);
        }
      case Outside(moves, effects) =>
        if OutsideOk(t.queue, moves, effects) {
          OutsideKeepsBetween(cfg, t, moves, effects);
        }
    }
  }

  // In every session of event-driven runs of any length, with anything else going on between them and
  // whatever the other callbacks do: at most one command is issued per cycle and none twice, what the device
  // sees is row-legal and the prediction is coherent, requests are conserved and refresh pulses accounted for.
  lemma EveryRunIsSound(cfg: Config, policy: Policy, q: Queue<Body>, queues: nat, steps: seq<Step>)
    requires GoodConfig(cfg) && Fair(policy) && Quiet(q)
    ensures var s := Session(cfg, policy, Sim(q, Start(queues)), steps);
      && Sound(cfg, s.world) && OnePerCycle(s.world.log) && OnlyLastIssued(s.world)
      && (forall i, j :: 0 <= i < j < |s.world.log| ==> s.world.log[i].cmd != s.world.log[j].cmd)
  {
    hide Sound, Session;
    StartsSound(cfg, queues);
    SessionKeepsBetween(cfg, policy, Sim(q, Start(queues)), steps);
    var s := Session(cfg, policy, Sim(q, Start(queues)), steps);
    LogOrdered(cfg, s.world);
    forall i: nat, j: nat | i < j < |s.world.log| ensures s.world.log[i].cmd != s.world.log[j].cmd {
      IssuedOnce(cfg, s.world.log, s.world.st.lines.nextTag, i, j);
    }
  }

  lemma LogOrdered(cfg: Config, w: World)
    requires cfg.banksPerRefresh >= 1 && Sound(cfg, w)
    ensures LogInOrder(cfg, w.log, w.st.lines.nextTag)
  {
  }

  // No call of the loop within the cycles there are is left out of a session.
  lemma SessionRuns(cfg: Config, policy: Policy, q: Queue<Body>, queues: nat, steps: seq<Step>, n: nat)
    requires GoodConfig(cfg) && Fair(policy) && Quiet(q)
    requires Session(cfg, policy, Sim(q, Start(queues)), steps).queue.current + n + 1 < MAX_CYCLE
    ensures var s := Session(cfg, policy, Sim(q, Start(queues)), steps);
      && Ready(Controlled(cfg, policy), s)
      && Session(cfg, policy, Sim(q, Start(queues)), steps + [Advance(n)]) == Advanced(Controlled(cfg, policy), s, n)
  {
    StartsSound(cfg, queues);
    SessionKeepsBetween(cfg, policy, Sim(q, Start(queues)), steps);
    ControlledIsStrict(cfg, policy);
    assert (steps + [Advance(n)])[..|steps|] == steps;
    hide Sound, Advanced, Controlled;
  }

  lemma {:induction false} CarriedIsCounted(cmds: seq<Cmd>, c: Cmd, x: nat)
    requires c in cmds && !c.issued && Carries(c, x) == 1
    ensures CmdCount(Unissued(cmds), x) >= 1
    decreases |cmds|
  {
    if cmds[0] != c {
      CarriedIsCounted(cmds[1..], c, x);
    }
    if !cmds[0].issued {
      assert Unissued(cmds)[1..] == Unissued(cmds[1..]);
    }
  }

  lemma {:induction false} LineCountAtLeast(l: Lines, q: nat, n: nat, x: nat)
    requires q < n
    ensures LineCount(l, n, x) >= CmdCount(Unissued(QueueAt(l, q)), x)
  {
    if q < n - 1 {
      LineCountAtLeast(l, q, n - 1, x);
    }
  }

  // A request that completes, in a cycle after the one it was issued in, waits nowhere any more, and its
  // command has left the queue.
  lemma CompletionFindsNoCommand(cfg: Config, s: Sim<World, Body>, now: nat, id: nat, q: nat, c: Cmd)
    requires GoodConfig(cfg) && During(cfg, s, now) && id in s.world.flight && !IssuedNow(s.world, id, now)
    requires q < QueueCount(cfg) && c in QueueAt(s.world.st.lines, q)
    ensures Carries(c, id) == 0 && Waiting(cfg, s.world.st, id) == 0
  {
    assert Waiting(cfg, s.world.st, id) == 0;
    if !c.issued && Carries(c, id) == 1 {
      CarriedIsCounted(QueueAt(s.world.st.lines, q), c, id);
      LineCountAtLeast(s.world.st.lines, q, QueueCount(cfg), id);
    }
  }
}
