/**
  When a bank's power-down register waits for the end of a refresh.  A write with implicit precharge restarts
  the register, so that it may forget the refresh of another subarray; for which timing parameters it cannot
  is proved here, over all runs and for commands any number of cycles apart.
*/
module PowerDownWaits {
  import opened Device
  import opened SubArrays
  import opened SubArrayRuns
  import opened Banks

  // Every refresh in flight ends by the given cycle.
  ghost predicate RefreshesBy(subs: seq<Machine>, cycle: int) {
    forall k, e :: 0 <= k < |subs| && e in subs[k].row && e.what == RefreshDone ==> e.at <= cycle
  }

  // Power-down is held off until every refresh in flight has ended.
  ghost predicate Waits(b: Bank) { RefreshesBy(b.subs, b.regs.nextPowerDown) }

  // The clock when action i comes.
  function ClockAt(p: Timing, n: nat, poweredDown: bool, actions: seq<BankAction>, i: nat): nat
    requires NoWrap(p) && i <= |actions|
  {
    BankRun(p, n, poweredDown, actions[..i]).now
  }

  // Commands come at least d cycles apart; the controller's are one cycle apart.
  ghost predicate Spaced(p: Timing, n: nat, poweredDown: bool, actions: seq<BankAction>, d: nat)
    requires NoWrap(p)
  {
    forall i, j :: 0 <= i < j < |actions| && actions[i].Request? && actions[j].Request? ==>
      ClockAt(p, n, poweredDown, actions, i) + d <= ClockAt(p, n, poweredDown, actions, j)
  }

  // The time a write with implicit precharge holds off power-down.
  function WriteHold(p: Timing): nat { p.tAL + p.tCWD + p.tBURST + p.tWR + p.tRP }

  ghost predicate PlainTiming(p: Timing) { NoWrap(p) && p.tRP >= 1 && p.usePrecharge && !p.writePausing }

  // ----- The clock of the last command -----

  function LastRequest(p: Timing, n: nat, poweredDown: bool, actions: seq<BankAction>, d: nat): int
    requires NoWrap(p)
  {
    if actions == [] then 0 - d
    else if actions[|actions| - 1].Request? then ClockAt(p, n, poweredDown, actions, |actions| - 1)
    else LastRequest(p, n, poweredDown, actions[..|actions| - 1], d)
  }

  lemma RunGrows(p: Timing, n: nat, poweredDown: bool, actions: seq<BankAction>, a: BankAction)
    requires NoWrap(p)
    ensures BankRun(p, n, poweredDown, actions + [a]) == BankAct(p, BankRun(p, n, poweredDown, actions), a)
  {
    assert (actions + [a])[..|actions|] == actions;
  }

  lemma ClockOfFront(p: Timing, n: nat, poweredDown: bool, actions: seq<BankAction>, a: BankAction, i: nat)
    requires NoWrap(p) && i <= |actions|
    ensures ClockAt(p, n, poweredDown, actions + [a], i) == ClockAt(p, n, poweredDown, actions, i)
  {
    assert (actions + [a])[..i] == actions[..i];
  }

  lemma {:induction false} ClockRises(p: Timing, n: nat, poweredDown: bool, actions: seq<BankAction>, i: nat)
    requires NoWrap(p) && i <= |actions|
    ensures ClockAt(p, n, poweredDown, actions, i) <= BankRun(p, n, poweredDown, actions).now
    decreases |actions| - i
  {
    if i == |actions| {
      assert actions[..i] == actions;
    } else {
      hide BankIssuable, BankIssued;
      ClockRises(p, n, poweredDown, actions, i + 1);
      assert actions[..i + 1][..i] == actions[..i];
    }
  }

  // No command came after the last one.
  lemma {:induction false} LastIsLatest(p: Timing, n: nat, poweredDown: bool, actions: seq<BankAction>, d: nat, i: nat)
    requires NoWrap(p) && i < |actions| && actions[i].Request?
    ensures ClockAt(p, n, poweredDown, actions, i) <= LastRequest(p, n, poweredDown, actions, d)
  {
    var front := actions[..|actions| - 1];
    assert front[..i] == actions[..i];
    if actions[|actions| - 1].Request? {
      ClockRises(p, n, poweredDown, front, i);
    } else {
      LastIsLatest(p, n, poweredDown, front, d, i);
    }
  }

  // And it came d cycles before the next one, if commands are that far apart.
  lemma {:induction false} LastIsBefore(p: Timing, n: nat, poweredDown: bool, actions: seq<BankAction>, d: nat)
    requires NoWrap(p) && actions != [] && Spaced(p, n, poweredDown, actions, d)
    requires actions[|actions| - 1].Request?
    ensures var front := actions[..|actions| - 1];
      LastRequest(p, n, poweredDown, front, d) + d <= BankRun(p, n, poweredDown, front).now
  {
    var last := |actions| - 1;
    LastIsSome(p, n, poweredDown, actions[..last], d);
    forall i | 0 <= i < last && actions[i].Request?
      ensures ClockAt(p, n, poweredDown, actions[..last], i) + d <= BankRun(p, n, poweredDown, actions[..last]).now
    {
      assert actions[..last][..i] == actions[..i];
      assert ClockAt(p, n, poweredDown, actions, i) + d <= ClockAt(p, n, poweredDown, actions, last);
    }
  }

  lemma {:induction false} LastIsSome(p: Timing, n: nat, poweredDown: bool, actions: seq<BankAction>, d: nat)
    requires NoWrap(p)
    ensures var l := LastRequest(p, n, poweredDown, actions, d);
      l == 0 - d || exists i :: 0 <= i < |actions| && actions[i].Request? && ClockAt(p, n, poweredDown, actions, i) == l
  {
    if actions != [] && !actions[|actions| - 1].Request? {
      var front := actions[..|actions| - 1];
      LastIsSome(p, n, poweredDown, front, d);
      if i :| 0 <= i < |front| && front[i].Request?
              && ClockAt(p, n, poweredDown, front, i) == LastRequest(p, n, poweredDown, front, d) {
        assert actions[i].Request? && actions[..i] == front[..i];
      }
    }
  }

  lemma SpacedFront(p: Timing, n: nat, poweredDown: bool, actions: seq<BankAction>, d: nat)
    requires NoWrap(p) && actions != [] && Spaced(p, n, poweredDown, actions, d)
    ensures Spaced(p, n, poweredDown, actions[..|actions| - 1], d)
  {
    var front := actions[..|actions| - 1];
    forall i, j | 0 <= i < j < |front| && front[i].Request? && front[j].Request?
      ensures ClockAt(p, n, poweredDown, front, i) + d <= ClockAt(p, n, poweredDown, front, j)
    {
      assert front[..i] == actions[..i] && front[..j] == actions[..j];
      assert ClockAt(p, n, poweredDown, actions, i) + d <= ClockAt(p, n, poweredDown, actions, j);
    }
  }

  lemma SpacedGrows(p: Timing, n: nat, poweredDown: bool, actions: seq<BankAction>, a: BankAction, d: nat)
    requires NoWrap(p) && Spaced(p, n, poweredDown, actions, d)
    requires a.Request? ==>
      LastRequest(p, n, poweredDown, actions, d) + d <= BankRun(p, n, poweredDown, actions).now
    ensures Spaced(p, n, poweredDown, actions + [a], d)
  {
    var more := actions + [a];
    hide BankRun;
    forall i, j | 0 <= i < j < |more| && more[i].Request? && more[j].Request?
      ensures ClockAt(p, n, poweredDown, more, i) + d <= ClockAt(p, n, poweredDown, more, j)
    {
      ClockOfFront(p, n, poweredDown, actions, a, i);
      ClockOfFront(p, n, poweredDown, actions, a, j);
      if j == |actions| {
        LastIsLatest(p, n, poweredDown, actions, d, i);
        assert actions[..j] == actions;
      } else {
        assert ClockAt(p, n, poweredDown, actions, i) + d <= ClockAt(p, n, poweredDown, actions, j);
      }
    }
  }

  // ----- The register waits -----

  lemma CommandAddsRefresh(p: Timing, m: Machine, req: Request, c: Choice, e: At<RowEvent>)
    requires NoWrap(p) && !p.writePausing && e in Act(p, m, Command(req, c)).row && e.what == RefreshDone
    ensures e in m.row || (req.op == REFRESH && IsIssuable(p, m.sub, req, m.now) && e.at == m.now + p.tRFC)
  {
    hide Bursts, WriteTimer, Restarted, PrechargeTimer, ReadRegisters;
  }

  lemma FiringAddsNone(p: Timing, m: Machine, a: Action, e: At<RowEvent>)
    requires NoWrap(p) && !a.Command? && e in Act(p, m, a).row && e.what == RefreshDone
    ensures e in m.row
  {
  }

  // What a command leaves in flight.
  lemma RequestRefreshes(p: Timing, b: Bank, k: nat, req: Request, now: nat, cs: seq<Choice>, k': nat, e: At<RowEvent>)
    requires PlainTiming(p) && |cs| == |b.subs| && Agrees(p, b, now) && k' < |b.subs|
    requires k' < |BankIssued(p, b, k, req, now, cs).subs|
    requires e in BankIssued(p, b, k, req, now, cs).subs[k'].row && e.what == RefreshDone
    ensures e in b.subs[k'].row || (req.op == REFRESH && e.at == now + p.tRFC)
  {
    hide Act, RowEvents, RowOf;
    SubsAfterAt(p, b.subs, Targets(b, k, req.op), req, cs);
    if k' in Targets(b, k, req.op) {
      CommandAddsRefresh(p, b.subs[k'], req, cs[k'], e);
    }
  }

  // A write finds no refresh in flight on its own subarray.
  lemma WriteFindsNoRefresh(p: Timing, b: Bank, k: nat, req: Request, now: nat, e: At<RowEvent>)
    requires SubsOk(p, b.subs, now) && IsWrite(req.op) && BankIssuable(p, b, k, req, now) && e in b.subs[k].row
    ensures e.what != RefreshDone
  {
  }

  lemma RegisterKeepsUp(p: Timing, b: Bank, k: nat, req: Request, now: nat, cs: seq<Choice>)
    requires NoWrap(p) && |cs| == |b.subs|
    ensures var r := BankIssued(p, b, k, req, now, cs).regs.nextPowerDown;
      && (if req.op == WRITE_PRECHARGE then r >= now + WriteHold(p) else r >= b.regs.nextPowerDown)
      && (req.op == REFRESH ==> r >= now + p.tRFC)
  {
    assert Bursts(p, req.burst - 1) >= 0;
    hide Bursts, SubsAfter;
  }

  lemma RequestWaits(p: Timing, b: Bank, k: nat, req: Request, now: nat, cs: seq<Choice>, last: int, d: nat)
    requires PlainTiming(p) && |cs| == |b.subs| && Agrees(p, b, now) && BankIssuable(p, b, k, req, now)
    requires Waits(b) && RefreshesBy(b.subs, last + p.tRFC) && last + d <= now
    requires |b.subs| <= 1 || p.tRFC <= d + WriteHold(p)
    ensures var b' := BankIssued(p, b, k, req, now, cs); Waits(b') && RefreshesBy(b'.subs, now + p.tRFC)
  {
    var b' := BankIssued(p, b, k, req, now, cs);
    RegisterKeepsUp(p, b, k, req, now, cs);
    SubsAfterAt(p, b.subs, Targets(b, k, req.op), req, cs);
    hide BankIssued, Agrees, BankIssuable, WriteHold;
    forall k': nat, e | k' < |b'.subs| && e in b'.subs[k'].row && e.what == RefreshDone
      ensures e.at <= now + p.tRFC && e.at <= b'.regs.nextPowerDown
    {
      RequestRefreshes(p, b, k, req, now, cs, k', e);
      if req.op == WRITE_PRECHARGE && |b.subs| <= 1 {
        OnlySub(p, b, k, req, now);
        WriteFindsNoRefresh(p, b, k, req, now, e);
      }
    }
  }

  lemma OnlySub(p: Timing, b: Bank, k: nat, req: Request, now: nat)
    requires Agrees(p, b, now) && IsWrite(req.op) && BankIssuable(p, b, k, req, now) && |b.subs| <= 1
    ensures k == 0 && |b.subs| == 1 && SubsOk(p, b.subs, now)
  {
  }

  lemma EventWaits(p: Timing, m: BankMachine, k: nat, a: Action, cycle: int)
    requires NoWrap(p) && RefreshesBy(m.bank.subs, cycle)
    ensures RefreshesBy(BankAct(p, m, Event(k, a)).bank.subs, cycle)
  {
    hide Act;
    var m' := BankAct(p, m, Event(k, a));
    if k < |m.bank.subs| && (a.FireRow? || a.FireReply?) {
      forall e | e in m'.bank.subs[k].row && e.what == RefreshDone ensures e.at <= cycle {
        FiringAddsNone(p, m.bank.subs[k], a, e);
      }
    }
  }

  lemma NextCycleWaits(p: Timing, m: BankMachine, cycle: int)
    requires NoWrap(p) && RefreshesBy(m.bank.subs, cycle)
    ensures RefreshesBy(BankAct(p, m, NextCycle).bank.subs, cycle)
  {
    hide Act;
    var m' := BankAct(p, m, NextCycle);
    if m' != m {
      forall k, e | 0 <= k < |m'.bank.subs| && e in m'.bank.subs[k].row && e.what == RefreshDone ensures e.at <= cycle {
        FiringAddsNone(p, m.bank.subs[k], Tick, e);
      }
    }
  }

  lemma SubsCount(p: Timing, m: BankMachine, a: BankAction)
    requires PlainTiming(p) && Agrees(p, m.bank, m.now)
    ensures |BankAct(p, m, a).bank.subs| == |m.bank.subs|
    ensures !a.Request? ==> BankAct(p, m, a).bank.regs == m.bank.regs
  {
    hide Act, BankIssuable;
    if a.Request? && |a.choices| == |m.bank.subs| {
      SubsAfterAt(p, m.bank.subs, Targets(m.bank, a.k, a.req.op), a.req, a.choices);
    }
  }

  lemma RequestStepWaits(p: Timing, m: BankMachine, a: BankAction, last: int, d: nat)
    requires PlainTiming(p) && a.Request? && Agrees(p, m.bank, m.now) && last + d <= m.now
    requires Waits(m.bank) && RefreshesBy(m.bank.subs, last + p.tRFC)
    requires |m.bank.subs| <= 1 || p.tRFC <= d + WriteHold(p)
    ensures var m' := BankAct(p, m, a); Waits(m'.bank) && RefreshesBy(m'.bank.subs, m.now + p.tRFC)
  {
    hide BankIssued, BankIssuable, Agrees, WriteHold;
    if |a.choices| == |m.bank.subs| && a.k < |m.bank.subs| && BankIssuable(p, m.bank, a.k, a.req, m.now) {
      RequestWaits(p, m.bank, a.k, a.req, m.now, a.choices, last, d);
    }
  }

  // One action, with the last command before it at `last`.
  lemma StepWaits(p: Timing, m: BankMachine, a: BankAction, last: int, d: nat)
    requires PlainTiming(p) && Agrees(p, m.bank, m.now) && (a.Request? ==> last + d <= m.now)
    requires Waits(m.bank) && RefreshesBy(m.bank.subs, last + p.tRFC)
    requires |m.bank.subs| <= 1 || p.tRFC <= d + WriteHold(p)
    ensures var m' := BankAct(p, m, a);
      && |m'.bank.subs| == |m.bank.subs| && Waits(m'.bank)
      && RefreshesBy(m'.bank.subs, (if a.Request? then m.now else last) + p.tRFC)
  {
    SubsCount(p, m, a);
    hide BankAct, Agrees, WriteHold, RefreshesBy;
    match a
    case Request(_, _, _) => RequestStepWaits(p, m, a, last, d);
    case Event(k, e) =>
      EventWaits(p, m, k, e, last + p.tRFC);
      EventWaits(p, m, k, e, m.bank.regs.nextPowerDown);
    case NextCycle =>
      NextCycleWaits(p, m, last + p.tRFC);
      NextCycleWaits(p, m, m.bank.regs.nextPowerDown);
  }

  lemma NothingInFlight(p: Timing, n: nat, poweredDown: bool, cycle: int)
    requires NoWrap(p)
    ensures var b := BankRun(p, n, poweredDown, []).bank; |b.subs| == n && Waits(b) && RefreshesBy(b.subs, cycle)
  {
  }

  lemma {:induction false} RunWaits(p: Timing, n: nat, poweredDown: bool, actions: seq<BankAction>, d: nat)
    requires PlainTiming(p) && (n <= 1 || p.tRFC <= d + WriteHold(p)) && Spaced(p, n, poweredDown, actions, d)
    ensures var m := BankRun(p, n, poweredDown, actions);
      && |m.bank.subs| == n && Waits(m.bank)
      && RefreshesBy(m.bank.subs, LastRequest(p, n, poweredDown, actions, d) + p.tRFC)
  {
    hide BankAct, Agrees, WriteHold, RefreshesBy, Spaced, Waits;
    if actions == [] {
      NothingInFlight(p, n, poweredDown, p.tRFC - d);
    } else {
      var front := actions[..|actions| - 1];
      var a := actions[|actions| - 1];
      SpacedFront(p, n, poweredDown, actions, d);
      RunWaits(p, n, poweredDown, front, d);
      BankAlwaysAgrees(p, n, poweredDown, front);
      if a.Request? {
        LastIsBefore(p, n, poweredDown, actions, d);
      }
      StepWaits(p, BankRun(p, n, poweredDown, front), a, LastRequest(p, n, poweredDown, front, d), d);
    }
  }

  // ----- A run in which it does not -----

  function NoLatencies(n: nat): (cs: seq<Choice>)
    ensures |cs| == n && forall k :: 0 <= k < n ==> cs[k] == NO_LATENCY
  {
    seq(n, _ => NO_LATENCY)
  }

  function Ask(n: nat, k: nat, op: Op): BankAction { BankAction.Request(k, Plain(op), NoLatencies(n)) }

  // Nothing is due before cycle t.
  ghost predicate QuietUntil(subs: seq<Machine>, t: nat) {
    && (forall k, i :: 0 <= k < |subs| && 0 <= i < |subs[k].row| ==> subs[k].row[i].at >= t)
    && (forall k, i :: 0 <= k < |subs| && 0 <= i < |subs[k].replies| ==> subs[k].replies[i].at >= t)
  }

  // Only the clocks have moved on.
  predicate Later(m: BankMachine, m': BankMachine) {
    && m'.bank.regs == m.bank.regs && m'.bank.state == m.bank.state && m'.bank.active == m.bank.active
    && |m'.bank.subs| == |m.bank.subs| && m'.now >= m.now
    && forall k :: 0 <= k < |m.bank.subs| ==>
         m'.bank.subs[k] == m.bank.subs[k].(now := m.bank.subs[k].now + (m'.now - m.now))
  }

  lemma {:induction false} WaitUntil(p: Timing, n: nat, actions: seq<BankAction>, t: nat, d: nat)
    returns (more: seq<BankAction>)
    requires PlainTiming(p) && Spaced(p, n, false, actions, d)
    requires var m := BankRun(p, n, false, actions); m.now <= t && QuietUntil(m.bank.subs, t)
    ensures BankRun(p, n, false, more).now == t && Later(BankRun(p, n, false, actions), BankRun(p, n, false, more))
    ensures Spaced(p, n, false, more, d)
    ensures LastRequest(p, n, false, more, d) == LastRequest(p, n, false, actions, d)
    decreases t - BankRun(p, n, false, actions).now
  {
    hide Spaced, ClockAt, BankAct, BankRun, LastRequest, QuietUntil, Later;
    if BankRun(p, n, false, actions).now == t {
      more := actions;
      NoWait(BankRun(p, n, false, actions));
    } else {
      var next := actions + [NextCycle];
      RunGrows(p, n, false, actions, NextCycle);
      ClocksAgree(p, n, actions);
      OneCycle(p, BankRun(p, n, false, actions), t);
      SpacedGrows(p, n, false, actions, NextCycle, d);
      LastGrows(p, n, actions, NextCycle, d);
      more := WaitUntil(p, n, next, t, d);
      LaterTwice(BankRun(p, n, false, actions), BankRun(p, n, false, next), BankRun(p, n, false, more));
    }
  }

  lemma ClocksAgree(p: Timing, n: nat, actions: seq<BankAction>)
    requires PlainTiming(p)
    ensures var m := BankRun(p, n, false, actions);
      forall k :: 0 <= k < |m.bank.subs| ==> m.bank.subs[k].now == m.now
  {
    BankAlwaysAgrees(p, n, false, actions);
    hide BankRun;
  }

  lemma NoWait(m: BankMachine)
    ensures Later(m, m)
  {
  }

  lemma LastGrows(p: Timing, n: nat, actions: seq<BankAction>, a: BankAction, d: nat)
    requires NoWrap(p)
    ensures LastRequest(p, n, false, actions + [a], d) ==
            if a.Request? then BankRun(p, n, false, actions).now else LastRequest(p, n, false, actions, d)
  {
    assert (actions + [a])[..|actions|] == actions;
  }

  lemma QuietSub(subs: seq<Machine>, k: nat, now: nat, t: nat)
    requires k < |subs| && subs[k].now <= now < t && QuietUntil(subs, t)
    ensures NothingDue(subs[k])
  {
    assert forall i :: 0 <= i < |subs[k].row| ==> subs[k].row[i].at >= t;
    assert forall i :: 0 <= i < |subs[k].replies| ==> subs[k].replies[i].at >= t;
  }

  lemma OneCycle(p: Timing, m: BankMachine, t: nat)
    requires NoWrap(p) && m.now < t && QuietUntil(m.bank.subs, t)
    requires forall k :: 0 <= k < |m.bank.subs| ==> m.bank.subs[k].now == m.now
    ensures var m' := BankAct(p, m, NextCycle);
      m'.now == m.now + 1 && Later(m, m') && QuietUntil(m'.bank.subs, t)
  {
    forall k | 0 <= k < |m.bank.subs| ensures NothingDue(m.bank.subs[k]) {
      QuietSub(m.bank.subs, k, m.now, t);
    }
  }

  lemma LaterTwice(a: BankMachine, b: BankMachine, c: BankMachine)
    requires Later(a, b) && Later(b, c)
    ensures Later(a, c)
  {
  }

  ghost predicate AllIdle(subs: seq<Machine>) {
    forall k :: 0 <= k < |subs| ==> subs[k].row == [] && subs[k].replies == []
  }

  // A command the bank and the subarray can take is carried out by that subarray alone.
  lemma AskTaken(p: Timing, m: BankMachine, n: nat, k: nat, op: Op)
    requires NoWrap(p) && |m.bank.subs| == n && k < n && (op == ACTIVATE || op == REFRESH || op == WRITE_PRECHARGE)
    requires BankIssuable(p, m.bank, k, Plain(op), m.now)
    ensures var b := m.bank; var b' := BankAct(p, m, Ask(n, k, op)).bank;
      && BankAct(p, m, Ask(n, k, op)).now == m.now && b'.regs == RegistersAfter(p, b, Plain(op), m.now)
      && b'.state == StateAfter(b, k, op)
      && b'.subs == b.subs[k := Act(p, b.subs[k], Command(Plain(op), NO_LATENCY))]
  {
    hide Act, BankIssuable, RegistersAfter, StateAfter, ActiveAfter;
    SubsAfterOne(p, m.bank.subs, k, Plain(op), NoLatencies(n));
  }

  lemma FreshActivates(p: Timing)
    requires NoWrap(p) && !p.writePausing
    ensures var s := Act(p, Machine(FRESH, 0, [], [], []), Command(Plain(ACTIVATE), NO_LATENCY));
      && s.now == 0 && s.row == [] && s.replies == [] && s.sub.state == OPEN && s.sub.openRow == 0
      && s.sub.regs.nextWrite == p.tRCD - p.tAL
  {
  }

  lemma FreshRefreshes(p: Timing, s: Machine)
    requires NoWrap(p) && !p.writePausing && s.sub == FRESH && s.row == [] && s.replies == []
    ensures var s' := Act(p, s, Command(Plain(REFRESH), NO_LATENCY));
      s'.now == s.now && s'.row == [At(s.now + p.tRFC, RefreshDone)] && s'.replies == []
  {
    assert Refreshed(p, s.sub, s.now).events.dropped == [];
  }

  // An idle bank activates subarray 1.
  lemma ActivateOne(p: Timing, m: BankMachine, n: nat)
    requires PlainTiming(p) && n >= 2 && m == BankRun(p, n, false, [])
    ensures var m' := BankAct(p, m, Ask(n, 1, ACTIVATE));
      && m'.now == 0 && m'.bank.state == BANK_OPEN && |m'.bank.subs| == n && AllIdle(m'.bank.subs)
      && m'.bank.regs.nextActivate == 0 && m'.bank.regs.nextWrite == 0
      && m'.bank.subs[0].sub == FRESH && m'.bank.subs[0].now == 0
      && m'.bank.subs[1].sub.state == OPEN && m'.bank.subs[1].sub.openRow == 0
      && m'.bank.subs[1].sub.regs.nextWrite == p.tRCD - p.tAL
  {
    assert m.bank.subs[1] == Machine(FRESH, 0, [], [], []);
    assert BankIssuable(p, m.bank, 1, Plain(ACTIVATE), 0);
    hide Act, BankAct, BankIssuable;
    AskTaken(p, m, n, 1, ACTIVATE);
    FreshActivates(p);
  }

  // Subarray 0, untouched so far, takes a REFRESH.
  lemma RefreshZero(p: Timing, m: BankMachine, n: nat)
    requires PlainTiming(p) && n >= 2 && |m.bank.subs| == n && m.bank.state == BANK_OPEN && AllIdle(m.bank.subs)
    requires m.bank.regs.nextActivate == 0 && m.bank.subs[0].sub == FRESH && m.bank.subs[0].now == m.now
    ensures var m' := BankAct(p, m, Ask(n, 0, REFRESH));
      && m'.now == m.now && m'.bank.state == BANK_OPEN && |m'.bank.subs| == n
      && m'.bank.regs.nextActivate == 0 && m'.bank.regs.nextWrite == m.bank.regs.nextWrite
      && m'.bank.subs[0].row == [At(m.now + p.tRFC, RefreshDone)] && QuietUntil(m'.bank.subs, m.now + p.tRFC)
      && m'.bank.subs[1] == m.bank.subs[1]
  {
    assert BankIssuable(p, m.bank, 0, Plain(REFRESH), m.now);
    hide Act, BankAct, BankIssuable;
    AskTaken(p, m, n, 0, REFRESH);
    FreshRefreshes(p, m.bank.subs[0]);
  }

  // Subarray 1 takes the write, which restarts the register.
  lemma WriteOne(p: Timing, m: BankMachine, n: nat)
    requires PlainTiming(p) && n >= 2 && |m.bank.subs| == n && m.bank.state == BANK_OPEN
    requires m.bank.regs.nextActivate == 0 && m.bank.regs.nextWrite == 0
    requires m.bank.subs[1].sub.state == OPEN && m.bank.subs[1].sub.openRow == 0
    requires m.bank.subs[1].sub.regs.nextWrite <= m.now
    ensures var m' := BankAct(p, m, Ask(n, 1, WRITE_PRECHARGE));
      |m'.bank.subs| == n && m'.bank.subs[0] == m.bank.subs[0] && m'.bank.regs.nextPowerDown == m.now + WriteHold(p)
  {
    assert BankIssuable(p, m.bank, 1, Plain(WRITE_PRECHARGE), m.now);
    assert Bursts(p, 0) == 0;
    hide Act, BankAct, BankIssuable;
    AskTaken(p, m, n, 1, WRITE_PRECHARGE);
  }

  lemma IdleIsQuiet(subs: seq<Machine>, t: nat)
    requires AllIdle(subs)
    ensures QuietUntil(subs, t)
  {
  }

  lemma NothingSpaced(p: Timing, n: nat, d: nat)
    requires NoWrap(p)
    ensures Spaced(p, n, false, [], d) && LastRequest(p, n, false, [], d) == 0 - d
    ensures BankRun(p, n, false, []).now == 0 && |BankRun(p, n, false, []).bank.subs| == n
  {
  }

  // Activate subarray 1; d cycles later or when it takes a write refresh subarray 0; another d cycles later
  // write to subarray 1.
  lemma WaitCutShort(p: Timing, n: nat, d: nat) returns (actions: seq<BankAction>)
    requires PlainTiming(p) && n >= 2 && p.tRFC > d + WriteHold(p)
    ensures Spaced(p, n, false, actions, d) && !Waits(BankRun(p, n, false, actions).bank)
  {
    hide BankAct, BankRun, Spaced, LastRequest, ClockAt, QuietUntil, AllIdle, Waits, WriteHold;
    NothingSpaced(p, n, d);
    var activate, refresh, write := Ask(n, 1, ACTIVATE), Ask(n, 0, REFRESH), Ask(n, 1, WRITE_PRECHARGE);
    var t := Max(d, p.tRCD - p.tAL);
    RunGrows(p, n, false, [], activate);
    SpacedGrows(p, n, false, [], activate, d);
    LastGrows(p, n, [], activate, d);
    ActivateOne(p, BankRun(p, n, false, []), n);
    var a1 := [] + [activate];
    IdleIsQuiet(BankRun(p, n, false, a1).bank.subs, t);
    var a2 := WaitUntil(p, n, a1, t, d);
    LaterIdle(BankRun(p, n, false, a1), BankRun(p, n, false, a2));
    RunGrows(p, n, false, a2, refresh);
    SpacedGrows(p, n, false, a2, refresh, d);
    LastGrows(p, n, a2, refresh, d);
    RefreshZero(p, BankRun(p, n, false, a2), n);
    var a3 := a2 + [refresh];
    QuietEarlier(BankRun(p, n, false, a3).bank.subs, t + p.tRFC, t + d);
    var a4 := WaitUntil(p, n, a3, t + d, d);
    RunGrows(p, n, false, a4, write);
    SpacedGrows(p, n, false, a4, write, d);
    WriteOne(p, BankRun(p, n, false, a4), n);
    actions := a4 + [write];
    StillInFlight(BankRun(p, n, false, actions).bank, t + p.tRFC);
  }

  lemma LaterIdle(m: BankMachine, m': BankMachine)
    requires Later(m, m') && AllIdle(m.bank.subs)
    ensures AllIdle(m'.bank.subs)
  {
  }

  lemma QuietEarlier(subs: seq<Machine>, t: nat, t': nat)
    requires QuietUntil(subs, t) && t' <= t
    ensures QuietUntil(subs, t')
  {
  }

  lemma StillInFlight(b: Bank, end: nat)
    requires |b.subs| >= 1 && b.subs[0].row == [At(end, RefreshDone)] && b.regs.nextPowerDown < end
    ensures !Waits(b)
  {
    assert At(end, RefreshDone) in b.subs[0].row;
  }

  // In every run with commands at least d cycles apart the register waits for the end of every refresh, exactly
  // when the bank has no second subarray or a refresh takes no longer than d cycles and a write together.
  lemma WaitsIff(p: Timing, n: nat, d: nat)
    requires PlainTiming(p)
    ensures (forall poweredDown, actions :: Spaced(p, n, poweredDown, actions, d) ==>
              Waits(BankRun(p, n, poweredDown, actions).bank))
      <==> n <= 1 || p.tRFC <= d + p.tAL + p.tCWD + p.tBURST + p.tWR + p.tRP
  {
    hide Waits, Spaced;
    if n <= 1 || p.tRFC <= d + WriteHold(p) {
      forall poweredDown, actions | Spaced(p, n, poweredDown, actions, d)
        ensures Waits(BankRun(p, n, poweredDown, actions).bank)
      {
        RunWaits(p, n, poweredDown, actions, d);
      }
    } else {
      var actions := WaitCutShort(p, n, d);
    }
  }

  lemma {:induction false} AlwaysSpaced(p: Timing, n: nat, poweredDown: bool, actions: seq<BankAction>)
    requires NoWrap(p)
    ensures Spaced(p, n, poweredDown, actions, 0)
  {
    forall i, j | 0 <= i < j < |actions|
      ensures ClockAt(p, n, poweredDown, actions, i) <= ClockAt(p, n, poweredDown, actions, j)
    {
      ClockRises(p, n, poweredDown, actions[..j], i);
      assert actions[..j][..i] == actions[..i];
    }
  }

  // Over all runs, commands in the same cycle included.
  lemma AlwaysWaitsIff(p: Timing, n: nat)
    requires PlainTiming(p)
    ensures (forall poweredDown, actions :: Waits(BankRun(p, n, poweredDown, actions).bank))
      <==> n <= 1 || p.tRFC <= p.tAL + p.tCWD + p.tBURST + p.tWR + p.tRP
  {
    hide Waits, Spaced;
    WaitsIff(p, n, 0);
    forall poweredDown, actions ensures Spaced(p, n, poweredDown, actions, 0) {
      AlwaysSpaced(p, n, poweredDown, actions);
    }
  }
}
