/**
  What the controller's callbacks do is what the runs of `ControllerEvents` are made of: each callback's whole
  effect on the state is a sequence of moves, so a policy whose plans are these sequences is the controller.
*/
module CallbackMoves {
  import opened Controller
  import opened Coherence
  import opened ControllerEvents
  import opened ControllerRuns
  import opened FRFCFSScheduling
  import opened MemoryControllers
  import Conservation
  import Device
  import RefreshAccounting

  lemma {:induction false} MovedAllTwice(cfg: Config, w: World, a: seq<Move>, b: seq<Move>, now: nat)
    requires GoodConfig(cfg)
    ensures MovedAll(cfg, w, a + b, now) == MovedAll(cfg, MovedAll(cfg, w, a, now), b, now)
    decreases |a|
  {
    hide Moved;
    if a == [] {
      assert a + b == b;
    } else {
      assert (a + b)[1..] == a[1..] + b;
      MovedAllTwice(cfg, Moved(cfg, w, a[0], now), a[1..], b, now);
    }
  }

  function Refreshes(k: nat): seq<Move> {
    if k == 0 then [] else [HandleRefresh] + Refreshes(k - 1)
  }

  // k refreshes handled are k moves; once no group needs one the rest do nothing.
  lemma {:induction false} HandledIsMoves(cfg: Config, w: World, k: nat, now: nat)
    requires GoodConfig(cfg)
    ensures var w' := MovedAll(cfg, w, Refreshes(k), now); w'.st == HandledTimes(cfg, w.st, k, now) && w'.rows == w.rows
    decreases k
  {
    hide RefreshHandled;
    if k > 0 {
      var w1 := Moved(cfg, w, HandleRefresh, now);
      assert Refreshes(k)[1..] == Refreshes(k - 1);
      HandledIsMoves(cfg, w1, k - 1, now);
      if RefreshAccounting.Chosen(cfg, w.st.refresh, 0, 0).None? {
        NothingToHandle(cfg, w.st, k - 1, now);
      }
    }
  }

  lemma NothingToHandle(cfg: Config, st: State, k: nat, now: nat)
    requires GoodConfig(cfg) && RefreshAccounting.Chosen(cfg, st.refresh, 0, 0).None?
    ensures HandledTimes(cfg, st, k, now) == st
  {
  }

  // Refreshes that came in are moves.
  lemma ProgressIsMoves(cfg: Config, w: World, after: State, now: nat) returns (moves: seq<Move>)
    requires GoodConfig(cfg) && Progress(cfg, w.st, after, now)
    ensures MovedAll(cfg, w, moves, now).st == after && MovedAll(cfg, w, moves, now).rows == w.rows
  {
    hide HandledTimes, TotalDelayed;
    var k := TotalDelayed(cfg, w.st.refresh) - TotalDelayed(cfg, after.refresh);
    HandledIsMoves(cfg, w, k, now);
    moves := Refreshes(k);
  }

  // The device takes nothing the rank would not let through.
  ghost predicate Gated(cfg: Config, rows: map<SubId, Device.Row>, takes: Cmd -> bool)
    requires cfg.banksPerRefresh >= 1
  {
    forall c :: takes(c) ==> RankAllows(cfg, rows, c)
  }

  // Sending is one move, or none.
  lemma CycledIsMoves(cfg: Config, w: World, takes: Cmd -> bool, now: nat) returns (moves: seq<Move>)
    requires GoodConfig(cfg) && Gated(cfg, w.rows, takes)
    ensures MovedAll(cfg, w, moves, now).st == Cycled(cfg, w.st, takes, now)
  {
    hide Sent, RankAllows;
    var q := NextToSend(cfg, w.st, takes, 0);
    moves := if q.Some? then [Send(q.value)] else [];
    if q.Some? {
      NextToSendExists(cfg, w.st, takes, 0);
      SendIsLaunch(cfg, w, q.value, now);
      assert MovedAll(cfg, w, moves, now) == MovedAll(cfg, Moved(cfg, w, moves[0], now), [], now);
    }
  }

  lemma {:induction false} NextToSendExists(cfg: Config, st: State, takes: Cmd -> bool, i: nat)
    ensures NextToSend(cfg, st, takes, i).Some? ==> NextToSend(cfg, st, takes, i).value < QueueCount(cfg)
    decreases QueueCount(cfg) - i
  {
    if i < QueueCount(cfg) {
      NextToSendExists(cfg, st, takes, i + 1);
    }
  }

  // The wake-up of the command queues: refreshes and then a command.
  lemma CommandQueueCallbackIsMoves(cfg: Config, w: World, woken: State, takes: Cmd -> bool, now: nat)
    returns (moves: seq<Move>)
    requires GoodConfig(cfg) && Progress(cfg, w.st, woken, now) && Gated(cfg, w.rows, takes)
    ensures MovedAll(cfg, w, moves, now).st == Cycled(cfg, woken, takes, now)
  {
    hide Progress, Cycled, Gated;
    var first := ProgressIsMoves(cfg, w, woken, now);
    var w1 := MovedAll(cfg, w, first, now);
    var rest := CycledIsMoves(cfg, w1, takes, now);
    MovedAllTwice(cfg, w, first, rest, now);
    moves := first + rest;
  }

  lemma OneMove(cfg: Config, w: World, m: Move, rest: seq<Move>, now: nat)
    requires GoodConfig(cfg)
    ensures MovedAll(cfg, w, [m] + rest, now) == MovedAll(cfg, Moved(cfg, w, m, now), rest, now)
  {
    assert ([m] + rest)[1..] == rest;
  }

  // The refresh timer of a group.
  lemma RefreshCallbackIsMoves(cfg: Config, w: World, g: Group, after: State, now: nat) returns (moves: seq<Move>)
    requires GoodConfig(cfg) && Conservation.GroupInRange(cfg, g)
    requires Progress(cfg, w.st.(refresh := PulsedRefresh(cfg, w.st.refresh, g)), after, now)
    ensures MovedAll(cfg, w, moves, now).st == after
  {
    hide Progress, PulsedRefresh;
    var w1 := Moved(cfg, w, Pulse(g), now);
    var rest := ProgressIsMoves(cfg, w1, after, now);
    OneMove(cfg, w, Pulse(g), rest, now);
    moves := [Pulse(g)] + rest;
  }

  // A scheduling cycle: a selection from transaction queue t, if there is one, then refreshes and a command.
  // FRFCFS always looks at queue 0; FRFCFS-WQF looks at either queue, and forces what it takes in a drain.
  lemma SchedulingIsMoves(cfg: Config, w: World, t: nat, force: bool, queued: State, takes: Cmd -> bool, now: nat)
    returns (moves: seq<Move>)
    requires GoodConfig(cfg) && t < |w.st.transactions| && Gated(cfg, w.rows, takes)
    requires Progress(cfg, Chose(cfg, w.st, t, force, now), queued, now)
    ensures MovedAll(cfg, w, moves, now).st == Cycled(cfg, queued, takes, now)
  {
    hide Progress, Cycled, Choice, ScheduledAt, Gated;
    var c := Choice(cfg, w.st, t, now);
    if c.Some? {
      var m := Schedule(t, FirstEligible(cfg, w.st, c.value, w.st.transactions[t], now), c.value, force);
      var rest := CommandQueueCallbackIsMoves(cfg, Moved(cfg, w, m, now), queued, takes, now);
      OneMove(cfg, w, m, rest, now);
      moves := [m] + rest;
    } else {
      moves := CommandQueueCallbackIsMoves(cfg, w, queued, takes, now);
    }
  }

  // What a scheduler with a predicate of its own selects and has queued is one move too.
  lemma SelectionIsMove(cfg: Config, w: World, t: nat, sel: Selector, pred: Req -> bool, force: bool, now: nat)
    requires GoodConfig(cfg) && t < |w.st.transactions|
    ensures var queue := w.st.transactions[t]; var i := FirstChosen(cfg, w.st, sel, pred, queue, now);
      i < |queue| ==>
        var taken := queue[i].(last := queue[i].last || IsLastRequest(cfg, Removed(queue, i), queue[i]));
        Moved(cfg, w, Schedule(t, i, sel, force), now).st ==
        MemoryCommandsIssued(cfg, w.st.(transactions := w.st.transactions[t := Removed(queue, i)]),
                             taken.(forced := taken.forced || force))
  {
    hide MemoryCommandsIssued, Eligible, IsLastRequest, FirstChosen;
  }
}
