/**
  What holds of every run of a subarray with write pausing off and explicit precharge on: commands keep the
  configured distance from every earlier command, and the accepted commands walk the row automaton.
*/
module SubArrayRuns {
  import opened Device
  import opened SubArrays

  // The register a command waits for.
  datatype Kind = ToActivate | ToRead | ToWrite | ToPrecharge | ToNothing

  function KindOf(op: Op): Kind {
    if op == ACTIVATE || op == REFRESH then ToActivate
    else if IsRead(op) then ToRead
    else if IsWrite(op) then ToWrite
    else if IsPrecharge(op) then ToPrecharge
    else ToNothing
  }

  function Register(r: Registers, k: Kind): nat {
    match k
    case ToActivate => r.nextActivate
    case ToRead => r.nextRead
    case ToWrite => r.nextWrite
    case ToPrecharge => r.nextPrecharge
    case ToNothing => 0
  }

  // The least distance from an accepted command to a later one; zero when only the order is constrained.
  function Gap(p: Timing, a: Accepted, k: Kind): nat
    requires NoWrap(p)
  {
    var tail := Bursts(p, a.burst - 1);
    match a.op
    case ACTIVATE =>
      (match k
       case ToPrecharge => Max(p.tRCD, p.tRAS)
       case ToRead => p.tRCD - p.tAL
       case ToWrite => p.tRCD - p.tAL
       case _ => 0)
    case READ =>
      (match k
       case ToPrecharge => tail + p.tAL + p.tBURST + p.tRTP - p.tCCD + a.extra
       case ToRead => Bursts(p, a.burst)
       case ToWrite => tail + p.tCAS + p.tBURST + p.tRTRS - p.tCWD + a.extra
       case _ => 0)
    case READ_PRECHARGE =>
      if k == ToNothing then 0 else tail + p.tAL + p.tRTP + p.tRP + a.extra
    case WRITE =>
      (match k
       case ToPrecharge => tail + p.tAL + p.tCWD + p.tBURST + a.extra + p.tWR
       case ToRead => tail + p.tCWD + p.tBURST + p.tWTR + a.extra
       case ToWrite => Bursts(p, a.burst) + a.extra
       case _ => 0)
    case WRITE_PRECHARGE =>
      if k == ToNothing then 0 else tail + p.tAL + p.tCWD + p.tBURST + a.extra + p.tWR + p.tRP
    case PRECHARGE => if k == ToActivate then Max(1, p.tRP) else 0
    case PRECHARGE_ALL => if k == ToActivate then Max(1, p.tRP) else 0
    case REFRESH => if k == ToActivate then p.tRFC else 0
    case _ => 0
  }

  ghost predicate TimingSafe(p: Timing, trace: seq<Accepted>)
    requires NoWrap(p)
  {
    forall i, j :: 0 <= i < j < |trace| ==> trace[i].at + Gap(p, trace[i], KindOf(trace[j].op)) <= trace[j].at
  }

  // ----- The registers remember every gap -----

  ghost predicate Guards(p: Timing, r: Registers, a: Accepted)
    requires NoWrap(p)
  {
    forall k: Kind :: Gap(p, a, k) == 0 || a.at + Gap(p, a, k) <= Register(r, k)
  }

  ghost predicate Rising(r: Registers, r': Registers) {
    forall k: Kind :: Register(r, k) <= Register(r', k)
  }

  lemma ReadRaises(p: Timing, r: Registers, req: Request, now: nat, decode: nat)
    requires NoWrap(p) && IsRead(req.op)
    ensures Rising(r, ReadRegisters(p, r, req, now, decode))
    ensures Guards(p, ReadRegisters(p, r, req, now, decode), Accepted(req.op, req.row, req.burst, decode, now))
  {
  }

  lemma WriteRaises(p: Timing, r: Registers, req: Request, now: nat, timer: nat)
    requires NoWrap(p) && IsWrite(req.op)
    ensures Rising(r, WriteRegisters(p, r, req, now, timer))
    ensures Guards(p, WriteRegisters(p, r, req, now, timer), Accepted(req.op, req.row, req.burst, timer, now))
  {
  }

  lemma IssuedRaises(p: Timing, s: Sub, req: Request, now: nat, c: Choice)
    requires NoWrap(p) && !p.writePausing
    ensures Rising(s.regs, Issued(p, s, req, now, c).sub.regs)
    ensures Guards(p, Issued(p, s, req, now, c).sub.regs,
                   Accepted(req.op, req.row, req.burst, Extra(p, s, req, c.lat), now))
  {
    if IsRead(req.op) {
      ReadRaises(p, s.regs, req, now, c.lat.decode);
    } else if IsWrite(req.op) {
      WriteRaises(p, s.regs, req, now, WriteTimer(p, s, req, c.lat));
    }
  }

  // ----- Row state -----

  function RowAfter(trace: seq<Accepted>): Row {
    if trace == [] then Closed
    else
      var t := trace[|trace| - 1];
      RowStep(RowAfter(trace[..|trace| - 1]), t.op, t.row)
  }

  ghost predicate RowsLegal(trace: seq<Accepted>) {
    forall j :: 0 <= j < |trace| ==> RowLegal(RowAfter(trace[..j]), trace[j].op, trace[j].row)
  }

  // The row the subarray holds as far as new commands are concerned.
  function RowOf(m: Machine): Row {
    if m.sub.state == OPEN && m.row == [] then Open(m.sub.openRow) else Closed
  }

  ghost predicate AllFrom(r: Registers, cycle: nat) {
    cycle <= r.nextActivate && cycle <= r.nextPrecharge && cycle <= r.nextRead && cycle <= r.nextWrite
  }

  // Exactly one event is waited for in the transient states, and an open subarray waits for at most the end
  // of an implicit precharge, which every register is past.
  ghost predicate RowEvents(p: Timing, m: Machine) {
    match m.sub.state
    case CLOSED => m.row == []
    case OPEN =>
      m.row == [] || (|m.row| == 1 && m.row[0].what == ImplicitPrecharge && m.now <= m.row[0].at
                      && AllFrom(m.sub.regs, m.row[0].at + p.tRP))
    case PRECHARGING => |m.row| == 1 && m.row[0].what == PrechargeDone
    case REFRESHING => |m.row| == 1 && m.row[0].what == RefreshDone
  }

  ghost predicate GuardsAll(p: Timing, r: Registers, trace: seq<Accepted>, now: nat)
    requires NoWrap(p)
  {
    forall i :: 0 <= i < |trace| ==> trace[i].at <= now && Guards(p, r, trace[i])
  }

  // The registers remember every gap of the trace.
  ghost predicate TimeInv(p: Timing, m: Machine)
    requires NoWrap(p)
  {
    GuardsAll(p, m.sub.regs, m.trace, m.now)
  }

  // Row state and pending events agree with the accepted commands.
  ghost predicate RowInv(p: Timing, m: Machine) {
    RowEvents(p, m) && RowAfter(m.trace) == RowOf(m)
  }

  lemma GuardsRise(p: Timing, r: Registers, r': Registers, a: Accepted)
    requires NoWrap(p) && Guards(p, r, a) && Rising(r, r')
    ensures Guards(p, r', a)
  {
    forall k: Kind ensures Gap(p, a, k) == 0 || a.at + Gap(p, a, k) <= Register(r', k) {
      assert Register(r, k) <= Register(r', k);
    }
  }

  lemma GuardsAllAppend(p: Timing, r: Registers, r': Registers, trace: seq<Accepted>, a: Accepted)
    requires NoWrap(p) && GuardsAll(p, r, trace, a.at) && Rising(r, r') && Guards(p, r', a)
    ensures GuardsAll(p, r', trace + [a], a.at)
  {
    forall i | 0 <= i < |trace| ensures Guards(p, r', (trace + [a])[i]) {
      GuardsRise(p, r, r', trace[i]);
    }
  }

  // While an implicit precharge is in flight nothing is accepted that would touch the row.
  lemma NothingDuringImplicitPrecharge(p: Timing, m: Machine, req: Request)
    requires p.tRP >= 1 && RowEvents(p, m) && m.sub.state == OPEN && m.row != []
    requires KindOf(req.op) != ToNothing
    ensures !IsIssuable(p, m.sub, req, m.now)
  {
  }

  // A command is accepted only when the row automaton allows it, and moves the row as the automaton says.
  lemma AcceptedMovesRow(p: Timing, m: Machine, req: Request, c: Choice)
    requires NoWrap(p) && p.tRP >= 1 && p.usePrecharge && !p.writePausing && RowEvents(p, m)
    requires IsIssuable(p, m.sub, req, m.now)
    ensures RowLegal(RowOf(m), req.op, req.row)
    ensures RowOf(Act(p, m, Command(req, c))) == RowStep(RowOf(m), req.op, req.row)
    ensures RowEvents(p, Act(p, m, Command(req, c)))
  {
    if m.sub.state == OPEN && m.row != [] && KindOf(req.op) != ToNothing {
      NothingDuringImplicitPrecharge(p, m, req);
    }
    assert Bursts(p, req.burst - 1) >= 0;
  }

  lemma CommandKeepsTime(p: Timing, m: Machine, req: Request, c: Choice)
    requires NoWrap(p) && !p.writePausing && TimeInv(p, m)
    ensures TimeInv(p, Act(p, m, Command(req, c)))
  {
    if IsIssuable(p, m.sub, req, m.now) {
      IssuedRaises(p, m.sub, req, m.now, c);
      var m' := Act(p, m, Command(req, c));
      GuardsAllAppend(p, m.sub.regs, m'.sub.regs, m.trace, m'.trace[|m.trace|]);
    }
  }

  lemma CommandKeepsRow(p: Timing, m: Machine, req: Request, c: Choice)
    requires NoWrap(p) && p.tRP >= 1 && p.usePrecharge && !p.writePausing && RowInv(p, m)
    ensures RowInv(p, Act(p, m, Command(req, c)))
  {
    if IsIssuable(p, m.sub, req, m.now) {
      AcceptedMovesRow(p, m, req, c);
      var m' := Act(p, m, Command(req, c));
      assert m'.trace[..|m'.trace| - 1] == m.trace;
    }
  }

  // Events and the clock leave the registers and the trace alone.
  lemma FireKeepsTime(p: Timing, m: Machine, a: Action)
    requires NoWrap(p) && TimeInv(p, m) && (a.FireRow? || a.FireReply? || a.Tick?)
    ensures TimeInv(p, Act(p, m, a))
  {
  }

  // An event moves the row state from OPEN to PRECHARGING to CLOSED, never to another open row.
  lemma FireKeepsRow(p: Timing, m: Machine, a: Action)
    requires NoWrap(p) && p.usePrecharge && RowInv(p, m) && (a.FireRow? || a.FireReply? || a.Tick?)
    ensures RowInv(p, Act(p, m, a))
  {
  }

  lemma {:induction false} RunKeepsTime(p: Timing, actions: seq<Action>)
    requires NoWrap(p) && !p.writePausing
    ensures TimeInv(p, Run(p, actions))
  {
    if actions != [] {
      var m := Run(p, actions[..|actions| - 1]);
      RunKeepsTime(p, actions[..|actions| - 1]);
      match actions[|actions| - 1]
      case Command(req, c) => CommandKeepsTime(p, m, req, c);
      case a => FireKeepsTime(p, m, a);
    }
  }

  lemma {:induction false} RunKeepsRow(p: Timing, actions: seq<Action>)
    requires NoWrap(p) && p.tRP >= 1 && p.usePrecharge && !p.writePausing
    ensures RowInv(p, Run(p, actions))
  {
    if actions != [] {
      var m := Run(p, actions[..|actions| - 1]);
      RunKeepsRow(p, actions[..|actions| - 1]);
      match actions[|actions| - 1]
      case Command(req, c) => CommandKeepsRow(p, m, req, c);
      case a => FireKeepsRow(p, m, a);
    }
  }

  // ----- Main results -----

  lemma AppendInTime(p: Timing, m: Machine, t: Accepted)
    requires NoWrap(p) && TimeInv(p, m) && TimingSafe(p, m.trace)
    requires t.at == m.now && Register(m.sub.regs, KindOf(t.op)) <= m.now
    ensures TimingSafe(p, m.trace + [t])
  {
    var trace := m.trace + [t];
    forall i | 0 <= i < |m.trace| ensures trace[i].at + Gap(p, trace[i], KindOf(t.op)) <= t.at {
      assert Guards(p, m.sub.regs, m.trace[i]);
    }
  }

  lemma AppendLegal(trace: seq<Accepted>, t: Accepted)
    requires RowsLegal(trace) && RowLegal(RowAfter(trace), t.op, t.row)
    ensures RowsLegal(trace + [t])
  {
    var trace' := trace + [t];
    forall j | 0 <= j < |trace'| ensures RowLegal(RowAfter(trace'[..j]), trace'[j].op, trace'[j].row) {
      assert trace'[..j] == if j < |trace| then trace[..j] else trace;
    }
  }

  // The trace after one action: a command accepted is added at the end.
  lemma TraceGrows(p: Timing, m: Machine, a: Action)
    requires NoWrap(p)
    ensures Act(p, m, a).trace ==
            if a.Command? && IsIssuable(p, m.sub, a.req, m.now) then
              m.trace + [Accepted(a.req.op, a.req.row, a.req.burst, Extra(p, m.sub, a.req, a.choice.lat), m.now)]
            else m.trace
    ensures a.Command? && IsIssuable(p, m.sub, a.req, m.now) ==> Register(m.sub.regs, KindOf(a.req.op)) <= m.now
  {
    hide Issued, RowMoved, Minus, Replied;
  }

  lemma ActInTime(p: Timing, m: Machine, a: Action)
    requires NoWrap(p) && !p.writePausing && TimeInv(p, m) && TimingSafe(p, m.trace)
    ensures TimingSafe(p, Act(p, m, a).trace)
  {
    hide Act, IsIssuable, TimeInv, TimingSafe, Extra, Register;
    TraceGrows(p, m, a);
    if a.Command? && IsIssuable(p, m.sub, a.req, m.now) {
      AppendInTime(p, m, Accepted(a.req.op, a.req.row, a.req.burst, Extra(p, m.sub, a.req, a.choice.lat), m.now));
    }
  }

  lemma ActLegal(p: Timing, m: Machine, a: Action)
    requires NoWrap(p) && p.tRP >= 1 && p.usePrecharge && !p.writePausing && RowInv(p, m) && RowsLegal(m.trace)
    ensures RowsLegal(Act(p, m, a).trace)
  {
    hide Act, IsIssuable, RowsLegal, RowEvents, Extra, RowLegal;
    TraceGrows(p, m, a);
    if a.Command? && IsIssuable(p, m.sub, a.req, m.now) {
      AcceptedMovesRow(p, m, a.req, a.choice);
      AppendLegal(m.trace, Accepted(a.req.op, a.req.row, a.req.burst, Extra(p, m.sub, a.req, a.choice.lat), m.now));
    }
  }

  // In every run each accepted command is at least the configured distance after every earlier one.
  lemma {:induction false} EveryTraceIsSafe(p: Timing, actions: seq<Action>)
    requires NoWrap(p) && !p.writePausing
    ensures TimingSafe(p, Run(p, actions).trace)
  {
    if actions != [] {
      hide Act, TimingSafe, TimeInv;
      EveryTraceIsSafe(p, actions[..|actions| - 1]);
      RunKeepsTime(p, actions[..|actions| - 1]);
      ActInTime(p, Run(p, actions[..|actions| - 1]), actions[|actions| - 1]);
    }
  }

  // With a row precharge time of at least one the accepted commands are a legal run of the row automaton.
  lemma {:induction false} EveryTraceIsLegal(p: Timing, actions: seq<Action>)
    requires NoWrap(p) && p.tRP >= 1 && p.usePrecharge && !p.writePausing
    ensures RowsLegal(Run(p, actions).trace)
  {
    if actions != [] {
      hide Act, RowsLegal, RowInv;
      EveryTraceIsLegal(p, actions[..|actions| - 1]);
      RunKeepsRow(p, actions[..|actions| - 1]);
      ActLegal(p, Run(p, actions[..|actions| - 1]), actions[|actions| - 1]);
    }
  }

  // Between an activation and a later moment at which the row is closed there is a command that closes it.
  lemma {:induction false} ClosedBetween(trace: seq<Accepted>, i: nat, j: nat) returns (k: nat)
    requires i < j <= |trace| && trace[i].op == ACTIVATE && RowAfter(trace[..j]) == Closed
    ensures i < k < j && Closes(trace[k].op)
    decreases j
  {
    assert trace[..j][..j - 1] == trace[..j - 1];
    if Closes(trace[j - 1].op) {
      k := j - 1;
    } else {
      k := ClosedBetween(trace, i, j - 1);
    }
  }

  // Row cycle time: two activations are separated by a closing command, by tRAS plus tRP if it is an explicit
  // precharge, and by the read or write time plus tRP if it is an implicit one.
  lemma RowCycleTime(p: Timing, actions: seq<Action>, i: nat, j: nat) returns (k: nat)
    requires NoWrap(p) && p.tRP >= 1 && p.usePrecharge && !p.writePausing
    requires i < j < |Run(p, actions).trace|
    requires Run(p, actions).trace[i].op == ACTIVATE && Run(p, actions).trace[j].op == ACTIVATE
    ensures i < k < j
    ensures RowCycle(p, Run(p, actions).trace[i], Run(p, actions).trace[k], Run(p, actions).trace[j])
  {
    EveryTraceIsSafe(p, actions);
    EveryTraceIsLegal(p, actions);
    k := CycleThrough(p, Run(p, actions).trace, i, j);
  }

  // Activation a, closing command c, activation b.
  ghost predicate RowCycle(p: Timing, a: Accepted, c: Accepted, b: Accepted) {
    match c.op
    case PRECHARGE => b.at >= a.at + Max(p.tRCD, p.tRAS) + Max(1, p.tRP)
    case PRECHARGE_ALL => b.at >= a.at + Max(p.tRCD, p.tRAS) + Max(1, p.tRP)
    case READ_PRECHARGE => b.at >= a.at + p.tRCD + p.tRTP + p.tRP
    case WRITE_PRECHARGE => b.at >= a.at + p.tRCD + p.tCWD + p.tBURST + c.extra + p.tWR + p.tRP
    case _ => false
  }

  lemma GapsAdd(p: Timing, a: Accepted, c: Accepted, b: Accepted)
    requires NoWrap(p) && a.op == ACTIVATE && Closes(c.op) && b.op == ACTIVATE
    requires a.at + Gap(p, a, KindOf(c.op)) <= c.at && c.at + Gap(p, c, KindOf(b.op)) <= b.at
    ensures RowCycle(p, a, c, b)
  {
    assert Bursts(p, c.burst - 1) >= 0;
  }

  lemma CycleThrough(p: Timing, trace: seq<Accepted>, i: nat, j: nat) returns (k: nat)
    requires NoWrap(p) && TimingSafe(p, trace) && RowsLegal(trace)
    requires i < j < |trace| && trace[i].op == ACTIVATE && trace[j].op == ACTIVATE
    ensures i < k < j && RowCycle(p, trace[i], trace[k], trace[j])
  {
    k := ClosedBetween(trace, i, j);
    GapsAdd(p, trace[i], trace[k], trace[j]);
  }

  // A command cannot be accepted before the cycle `NextIssuable` names, so waking up then misses nothing.
  lemma NotIssuableEarlier(p: Timing, s: Sub, req: Request, now: nat)
    requires now < NextIssuable(s, req)
    ensures !IsIssuable(p, s, req, now)
  {
  }
}
