/**
  Exactly which timing parameters keep two promises one might expect of a subarray: that activations are tRAS
  plus tRP apart, and that no command is accepted on a row that is closing.  Each direction that fails does so
  on a run built here, command by command.
*/
module RowCycles {
  import opened Device
  import opened SubArrays
  import opened SubArrayRuns

  // ----- Building runs -----

  lemma RunAppend(p: Timing, actions: seq<Action>, a: Action)
    requires NoWrap(p)
    ensures Run(p, actions + [a]) == Act(p, Run(p, actions), a)
  {
    assert (actions + [a])[..|actions|] == actions;
  }

  // Same registers, row state and trace; only the flag of a write in progress may differ.
  predicate SameRow(m: Machine, m': Machine) {
    && m'.sub.regs == m.sub.regs && m'.sub.state == m.sub.state && m'.sub.openRow == m.sub.openRow
    && m'.sub.writeCycle == m.sub.writeCycle && m'.row == m.row && m'.trace == m.trace
  }

  // No reply is overdue.
  ghost predicate OnTime(m: Machine) {
    forall k :: 0 <= k < |m.replies| ==> m.replies[k].at >= m.now
  }

  // Deliver the replies due now.
  lemma {:induction false} Drain(p: Timing, actions: seq<Action>) returns (more: seq<Action>)
    requires NoWrap(p) && OnTime(Run(p, actions))
    ensures var m := Run(p, actions); var m' := Run(p, more);
      SameRow(m, m') && m'.now == m.now && forall k :: 0 <= k < |m'.replies| ==> m'.replies[k].at > m'.now
    decreases |Run(p, actions).replies|
  {
    var m := Run(p, actions);
    if k :| 0 <= k < |m.replies| && m.replies[k].at == m.now {
      RunAppend(p, actions, FireReply(k));
      more := Drain(p, actions + [FireReply(k)]);
    } else {
      more := actions;
    }
  }

  // Let the clock reach cycle t, when no row event is due before it.
  lemma {:induction false} WaitTo(p: Timing, actions: seq<Action>, t: nat) returns (more: seq<Action>)
    requires NoWrap(p) && OnTime(Run(p, actions)) && Run(p, actions).now <= t
    requires forall k :: 0 <= k < |Run(p, actions).row| ==> Run(p, actions).row[k].at >= t
    ensures SameRow(Run(p, actions), Run(p, more)) && Run(p, more).now == t && OnTime(Run(p, more))
    decreases t - Run(p, actions).now
  {
    if Run(p, actions).now == t {
      more := actions;
    } else {
      var drained := Drain(p, actions);
      RunAppend(p, drained, Tick);
      more := WaitTo(p, drained + [Tick], t);
    }
  }

  // How long after the activation the row starts to close, when the closing column command comes first thing.
  function ClosingTime(p: Timing, op: Op): nat {
    p.tRCD + if op == READ_PRECHARGE then p.tRTP else p.tCWD + p.tBURST + p.tWR
  }

  // An activation at cycle 0, and the wait for the first column command.
  lemma ActivateAndWait(p: Timing) returns (actions: seq<Action>)
    requires NoWrap(p) && p.usePrecharge && !p.writePausing
    ensures var m := Run(p, actions); var t := p.tRCD - p.tAL;
      && m.now == t && m.row == [] && OnTime(m) && m.trace == [Accepted(ACTIVATE, 0, 1, 0, 0)]
      && m.sub.state == OPEN && m.sub.openRow == 0 && !m.sub.writeCycle
      && m.sub.regs.nextActivate == 0 && m.sub.regs.nextRead == m.sub.regs.nextWrite == t
  {
    var first := [Command(Plain(ACTIVATE), NO_LATENCY)];
    RunAppend(p, [], first[0]);
    assert [] + first == first;
    actions := WaitTo(p, first, p.tRCD - p.tAL);
  }

  lemma {:induction false} MinusNothing<T>(events: seq<At<T>>)
    ensures Minus(events, []) == events
  {
    if events != [] {
      MinusNothing(events[1..]);
    }
  }

  // What it leaves behind.
  lemma ClosingIssued(p: Timing, m: Machine, op: Op)
    requires NoWrap(p) && !p.writePausing && (op == READ_PRECHARGE || op == WRITE_PRECHARGE)
    requires m.now == p.tRCD - p.tAL && !m.sub.writeCycle
    requires m.sub.regs.nextActivate == 0 && m.sub.regs.nextRead == m.sub.regs.nextWrite == m.now
    ensures var o := Issued(p, m.sub, Plain(op), m.now, NO_LATENCY); var t := ClosingTime(p, op);
      && o.events.row == [At(t, ImplicitPrecharge)] && o.events.dropped == []
      && |o.events.replies| == 1 && o.events.replies[0].at >= m.now
      && o.sub.state == m.sub.state && o.sub.openRow == m.sub.openRow
      && o.sub.regs.nextActivate == t + p.tRP && o.sub.regs.nextRead == t + p.tRP
    ensures Extra(p, m.sub, Plain(op), NO_LATENCY.lat) == 0
  {
    assert Bursts(p, 0) == 0;
    if op == READ_PRECHARGE {
      hide WriteIssued;
    } else {
      hide ReadIssued;
    }
  }

  lemma MoreOnTime(m: Machine, e: At<Reply>)
    requires OnTime(m) && e.at >= m.now
    ensures forall m': Machine :: m'.now == m.now && m'.replies == m.replies + [e] ==> OnTime(m')
  {
  }

  // A column command with implicit precharge that meets an idle open row, registers as an activation left them.
  lemma ClosingCommand(p: Timing, m: Machine, op: Op)
    requires NoWrap(p) && !p.writePausing && (op == READ_PRECHARGE || op == WRITE_PRECHARGE)
    requires m.now == p.tRCD - p.tAL && m.row == [] && OnTime(m)
    requires m.sub.state == OPEN && m.sub.openRow == 0 && !m.sub.writeCycle
    requires m.sub.regs.nextActivate == 0 && m.sub.regs.nextRead == m.sub.regs.nextWrite == m.now
    ensures var m' := Act(p, m, Command(Plain(op), NO_LATENCY)); var t := ClosingTime(p, op);
      && m'.now == m.now && m'.row == [At(t, ImplicitPrecharge)]
      && m'.trace == m.trace + [Accepted(op, 0, 1, 0, m.now)]
      && m'.sub.state == OPEN && m'.sub.openRow == 0
      && m'.sub.regs.nextActivate == t + p.tRP && m'.sub.regs.nextRead == t + p.tRP
    ensures OnTime(Act(p, m, Command(Plain(op), NO_LATENCY)))
  {
    hide Minus, Issued, OnTime;
    assert IsIssuable(p, m.sub, Plain(op), m.now);
    ClosingIssued(p, m, op);
    MinusNothing(m.replies);
    MoreOnTime(m, Issued(p, m.sub, Plain(op), m.now, NO_LATENCY).events.replies[0]);
  }

  // Then a column command with implicit precharge, and the wait until the row starts to close.
  lemma CloseAndWait(p: Timing, op: Op) returns (actions: seq<Action>)
    requires NoWrap(p) && p.usePrecharge && !p.writePausing && (op == READ_PRECHARGE || op == WRITE_PRECHARGE)
    ensures var m := Run(p, actions); var t := ClosingTime(p, op);
      && m.now == t && m.row == [At(t, ImplicitPrecharge)] && OnTime(m)
      && m.trace == [Accepted(ACTIVATE, 0, 1, 0, 0), Accepted(op, 0, 1, 0, p.tRCD - p.tAL)]
      && m.sub.state == OPEN && m.sub.openRow == 0
      && m.sub.regs.nextActivate == t + p.tRP && m.sub.regs.nextRead == t + p.tRP
  {
    hide Act, OnTime;
    var before := ActivateAndWait(p);
    var a := Command(Plain(op), NO_LATENCY);
    RunAppend(p, before, a);
    ClosingCommand(p, Run(p, before), op);
    actions := WaitTo(p, before + [a], ClosingTime(p, op));
  }

  // The row closes and is activated again as early as the subarray lets it.
  lemma ActivateAgain(p: Timing, op: Op) returns (actions: seq<Action>)
    requires NoWrap(p) && p.usePrecharge && !p.writePausing && (op == READ_PRECHARGE || op == WRITE_PRECHARGE)
    ensures var trace := Run(p, actions).trace;
      && |trace| == 3 && trace[0] == Accepted(ACTIVATE, 0, 1, 0, 0)
      && trace[2] == Accepted(ACTIVATE, 0, 1, 0, ClosingTime(p, op) + p.tRP)
  {
    hide Act, OnTime;
    var t := ClosingTime(p, op);
    var a1 := CloseAndWait(p, op);
    RunAppend(p, a1, FireRow(0));
    RowStartsClosing(p, Run(p, a1));
    var a2 := WaitTo(p, a1 + [FireRow(0)], t + p.tRP);
    RunAppend(p, a2, FireRow(0));
    RowCloses(p, Run(p, a2));
    var a3 := a2 + [FireRow(0)];
    RunAppend(p, a3, Command(Plain(ACTIVATE), NO_LATENCY));
    ActivateTaken(p, Run(p, a3));
    actions := a3 + [Command(Plain(ACTIVATE), NO_LATENCY)];
  }

  lemma RowStartsClosing(p: Timing, m: Machine)
    requires NoWrap(p) && m.row == [At(m.now, ImplicitPrecharge)] && OnTime(m)
    ensures var m' := Act(p, m, FireRow(0));
      && m'.row == [At(m.now + p.tRP, PrechargeDone)] && m'.sub.regs == m.sub.regs && m'.trace == m.trace
      && m'.now == m.now && OnTime(m')
  {
  }

  lemma RowCloses(p: Timing, m: Machine)
    requires NoWrap(p) && m.row == [At(m.now, PrechargeDone)]
    ensures var m' := Act(p, m, FireRow(0));
      m'.sub.regs == m.sub.regs && m'.trace == m.trace && m'.now == m.now && m'.sub.state == CLOSED
  {
  }

  lemma ActivateTaken(p: Timing, m: Machine)
    requires NoWrap(p) && !p.writePausing && m.sub.state == CLOSED && m.sub.regs.nextActivate <= m.now
    ensures Act(p, m, Command(Plain(ACTIVATE), NO_LATENCY)).trace == m.trace + [Accepted(ACTIVATE, 0, 1, 0, m.now)]
  {
    hide Issued;
  }

  // ----- tRAS plus tRP between activations -----

  // In every run two activations are at least tRAS plus tRP apart.
  ghost predicate FullRowCycle(p: Timing)
    requires NoWrap(p)
  {
    forall actions, i, j ::
      0 <= i < j < |Run(p, actions).trace|
      && Run(p, actions).trace[i].op == ACTIVATE && Run(p, actions).trace[j].op == ACTIVATE ==>
        Run(p, actions).trace[j].at >= Run(p, actions).trace[i].at + p.tRAS + p.tRP
  }

  // The implicit precharge does not wait for tRAS, so the distance holds exactly when the shortest read and
  // the shortest write already take that long.
  lemma FullRowCycleIff(p: Timing)
    requires NoWrap(p) && p.tRP >= 1 && p.usePrecharge && !p.writePausing
    ensures FullRowCycle(p) <==> p.tRAS <= p.tRCD + p.tRTP && p.tRAS <= p.tRCD + p.tCWD + p.tBURST + p.tWR
  {
    if FullRowCycle(p) {
      var read := ActivateAgain(p, READ_PRECHARGE);
      assert Run(p, read).trace[2].at >= Run(p, read).trace[0].at + p.tRAS + p.tRP;
      var write := ActivateAgain(p, WRITE_PRECHARGE);
      assert Run(p, write).trace[2].at >= Run(p, write).trace[0].at + p.tRAS + p.tRP;
    } else {
      var actions, i, j :|
        0 <= i < j < |Run(p, actions).trace|
        && Run(p, actions).trace[i].op == ACTIVATE && Run(p, actions).trace[j].op == ACTIVATE
        && Run(p, actions).trace[j].at < Run(p, actions).trace[i].at + p.tRAS + p.tRP;
      var k := RowCycleTime(p, actions, i, j);
    }
  }

  // ----- Commands on a closing row -----

  // With no row precharge time a read slips in between the end of the implicit precharge and its event.
  lemma ReadOnClosingRow(p: Timing) returns (actions: seq<Action>)
    requires NoWrap(p) && p.tRP == 0 && p.usePrecharge && !p.writePausing
    ensures !RowsLegal(Run(p, actions).trace)
  {
    var before := CloseAndWait(p, READ_PRECHARGE);
    var a := Command(Plain(READ), NO_LATENCY);
    RunAppend(p, before, a);
    actions := before + [a];
    var trace := Run(p, actions).trace;
    assert trace[..2] == Run(p, before).trace && trace[2].op == READ;
    var two := trace[..2];
    assert two[..1] == [two[0]];
    assert RowAfter(two) == Closed;
  }

  lemma RowsLegalIff(p: Timing)
    requires NoWrap(p) && p.usePrecharge && !p.writePausing
    ensures (forall actions :: RowsLegal(Run(p, actions).trace)) <==> p.tRP >= 1
  {
    if p.tRP >= 1 {
      forall actions ensures RowsLegal(Run(p, actions).trace) {
        EveryTraceIsLegal(p, actions);
      }
    } else {
      var actions := ReadOnClosingRow(p);
    }
  }
}
