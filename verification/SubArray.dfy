/**
  One subarray: five timing registers, the row state machine, and the write in progress.  Commands are
  accepted or refused by comparing the registers with the clock; completions arrive as events that the
  commands schedule.
*/
module SubArrays {
  import opened Device

  // Timing parameters in cycles, and the configuration switches the subarray looks at.
  datatype Timing = Timing(
    tAL: nat, tBURST: nat, tCAS: nat, tCCD: nat, tCWD: nat, tRAS: nat, tRCD: nat, tRFC: nat, tRP: nat,
    tRTP: nat, tRTRS: nat, tWR: nat, tWTR: nat, tPD: nat, tXP: nat, tXPDLL: nat, tRDPDEN: nat, tWRPDEN: nat,
    rows: nat, usePrecharge: bool, writePausing: bool, maxCancellations: nat, writeBack: bool,
    optimalPause: bool, pauseThreshold: real)

  // The differences the code takes between unsigned parameters do not wrap.
  predicate NoWrap(p: Timing) {
    p.tAL <= p.tRCD && p.tCCD <= p.tAL + p.tBURST + p.tRTP && p.tCWD <= p.tCAS + p.tBURST + p.tRTRS
  }

  type pos = n: nat | n >= 1 witness 1

  datatype Request = Request(
    id: nat, op: Op, row: nat, burst: pos, priority: bool,
    forced: bool, cancelled: bool, paused: bool, cancellations: nat, progress: nat)

  // Data-dependent latencies of one command: decoder, cell write time, encoder plus endurance.
  datatype Latency = Latency(decode: nat, cell: nat, encode: nat)

  datatype State = CLOSED | OPEN | PRECHARGING | REFRESHING

  // Events the subarray puts in the event queue: those that move its row state, and answers to requests.
  datatype RowEvent = ImplicitPrecharge | PrechargeDone | RefreshDone
  datatype Reply = ReadDone(req: Request) | WriteDone(req: Request)
  datatype At<T> = At(at: nat, what: T)

  datatype Registers = Registers(
    nextActivate: nat, nextPrecharge: nat, nextRead: nat, nextWrite: nat, nextPowerDown: nat)

  datatype Sub = Sub(
    regs: Registers, state: State, openRow: nat, writeCycle: bool,
    isWriting: bool, writeRequest: Request, writeStart: nat, writeEnd: nat, writeEventTime: nat,
    preWrite: Registers)

  // The new state, the events to insert and the ones to remove.
  datatype Events = Events(row: seq<At<RowEvent>>, replies: seq<At<Reply>>, dropped: seq<At<Reply>>)
  const NONE := Events([], [], [])

  datatype Outcome = Outcome(sub: Sub, events: Events)

  // The time of n bursts, kept free of multiplication for the solver's sake.
  function Bursts(p: Timing, n: nat): nat {
    if n == 0 then 0 else Max(p.tBURST, p.tCCD) + Bursts(p, n - 1)
  }

  lemma {:induction false} BurstsIsProduct(p: Timing, n: nat)
    ensures Bursts(p, n) == Max(p.tBURST, p.tCCD) * n
  {
    if n > 0 {
      BurstsIsProduct(p, n - 1);
      assert Max(p.tBURST, p.tCCD) * n == Max(p.tBURST, p.tCCD) * (n - 1) + Max(p.tBURST, p.tCCD);
    }
  }

  // ----- Accepting commands -----

  predicate WriteBlocks(p: Timing, s: Sub) {
    p.writePausing && s.isWriting && s.writeRequest.forced
  }

  predicate IsIssuable(p: Timing, s: Sub, req: Request, now: nat) {
    if req.op == ACTIVATE then
      s.regs.nextActivate <= now && (p.usePrecharge ==> s.state == CLOSED) && !WriteBlocks(p, s)
      && !(p.writePausing && s.isWriting && !req.priority)
    else if IsRead(req.op) then
      s.regs.nextRead <= now && s.state == OPEN && req.row == s.openRow && !WriteBlocks(p, s)
    else if IsWrite(req.op) then
      s.regs.nextWrite <= now && s.state == OPEN && req.row == s.openRow
    else if IsPrecharge(req.op) then
      s.regs.nextPrecharge <= now && (s.state == OPEN || s.state == CLOSED)
    else if IsPowerDown(req.op) then
      s.regs.nextPowerDown <= now && !s.isWriting
    else if req.op == POWERUP then
      true
    else if req.op == REFRESH then
      s.regs.nextActivate <= now && (p.usePrecharge ==> s.state == CLOSED)
    else
      false
  }

  function NextIssuable(s: Sub, req: Request): nat {
    if req.op == ACTIVATE then s.regs.nextActivate
    else if req.op == READ then s.regs.nextRead
    else if req.op == WRITE then s.regs.nextWrite
    else if req.op == PRECHARGE then s.regs.nextPrecharge
    else 0
  }

  // ----- Executing commands -----

  function MarkedWrite(p: Timing, write: Request, writeEnd: nat, nearlyDone: bool, progress: nat): Request {
    var w := write.(progress := progress);
    if nearlyDone then (if progress != writeEnd then w.(paused := true) else w)
    else w.(cancelled := true, cancellations := w.cancellations + 1,
            forced := w.forced || w.cancellations + 1 >= p.maxCancellations)
  }

  // Unsigned subtraction of cycle counts; the end of a write may have passed when its reply is still to come.
  function CyclesFrom(start: nat, end: nat): nat { (end - start) % 0x1_0000_0000_0000_0000 }

  // The write iteration under way, of those that start at the given cycles: `from`, or the last of the leading
  // ones that has started.
  function IterationStart(starts: seq<nat>, now: nat, from: nat): nat {
    if starts == [] || starts[0] > now then from else IterationStart(starts[1..], now, starts[0])
  }

  // Of ascending cycles it is the latest one that has come.
  lemma {:induction false} IterationStartIsLatest(starts: seq<nat>, now: nat, from: nat)
    requires from <= now && forall i, j :: 0 <= i < j < |starts| ==> starts[i] < starts[j]
    requires forall i :: 0 <= i < |starts| ==> from <= starts[i]
    ensures var start := IterationStart(starts, now, from);
      start <= now && (start == from || start in starts) &&
      forall i :: 0 <= i < |starts| && starts[i] <= now ==> starts[i] <= start
  {
    if starts != [] && starts[0] <= now {
      assert forall i :: 0 <= i < |starts| - 1 ==> starts[1..][i] == starts[i + 1];
      IterationStartIsLatest(starts[1..], now, starts[0]);
    }
  }

  // The time the write still needs: from now on, or from the start of the iteration that is cut short.
  function Remaining(p: Timing, s: Sub, now: nat, starts: seq<nat>): nat {
    CyclesFrom(if p.optimalPause then now else IterationStart(starts, now, s.writeStart), s.writeEnd)
  }

  // The fraction written is above the threshold.  For a write that takes no time it is not a number, or below
  // every number.
  predicate NearlyDone(p: Timing, s: Sub, remaining: nat) {
    var timer := CyclesFrom(s.writeStart, s.writeEnd);
    timer > 0 && 1.0 - remaining as real / timer as real > p.pauseThreshold
  }

  // Cancel or pause the write in progress, whose iterations start at the given cycles.
  function WritePaused(p: Timing, s: Sub, now: nat, starts: seq<nat>): Outcome {
    if !(p.writePausing && s.isWriting) then Outcome(s, NONE)
    else
      var progress := Remaining(p, s, now, starts);
      var w' := MarkedWrite(p, s.writeRequest, s.writeEnd, NearlyDone(p, s, progress), progress);
      Outcome(s.(writeRequest := w', regs := s.preWrite),
              Events([], [At(now + 1, WriteDone(w'))], [At(s.writeEventTime, WriteDone(s.writeRequest))]))
  }

  function Activated(p: Timing, s: Sub, req: Request, now: nat): Outcome
    requires NoWrap(p)
  {
    var r := s.regs;
    Outcome(s.(regs := r.(nextPrecharge := Max(r.nextPrecharge, now + Max(p.tRCD, p.tRAS)),
                          nextRead := Max(r.nextRead, now + p.tRCD - p.tAL),
                          nextWrite := Max(r.nextWrite, now + p.tRCD - p.tAL),
                          nextPowerDown := Max(r.nextPowerDown, now + Max(p.tRCD, p.tRAS))),
               openRow := req.row, state := OPEN, writeCycle := false),
            NONE)
  }

  // Registers after a command with an implicit precharge: nothing before `free`.
  function HeldUntil(r: Registers, free: nat): Registers {
    var a := Max(r.nextActivate, free);
    r.(nextActivate := a, nextPrecharge := Max(r.nextPrecharge, a), nextRead := Max(r.nextRead, a),
       nextWrite := Max(r.nextWrite, a))
  }

  function ReadRegisters(p: Timing, r: Registers, req: Request, now: nat, decode: nat): Registers
    requires NoWrap(p)
  {
    var r' :=
      if req.op == READ_PRECHARGE then
        HeldUntil(r, now + Bursts(p, req.burst - 1) + p.tAL + p.tRTP + p.tRP + decode)
      else
        r.(nextPrecharge := Max(r.nextPrecharge,
             now + Bursts(p, req.burst - 1) + p.tAL + p.tBURST + p.tRTP - p.tCCD + decode),
           nextRead := Max(r.nextRead, now + Bursts(p, req.burst)),
           nextWrite := Max(r.nextWrite,
             now + Bursts(p, req.burst - 1) + p.tCAS + p.tBURST + p.tRTRS - p.tCWD + decode));
    r'.(nextPowerDown := Max(r.nextPowerDown,
          now + Bursts(p, req.burst - 1) + p.tCAS + p.tAL + p.tBURST + 1 + decode))
  }

  function ReadIssued(p: Timing, s: Sub, req: Request, now: nat, lat: Latency): Outcome
    requires NoWrap(p)
  {
    var close := At(now + p.tAL + p.tRTP + lat.decode + Bursts(p, req.burst - 1), ImplicitPrecharge);
    var done := At(now + p.tCAS + p.tBURST + lat.decode, ReadDone(req));
    Outcome(s.(regs := ReadRegisters(p, s.regs, req, now, lat.decode)),
            Events(if req.op == READ_PRECHARGE then [close] else [], [done], []))
  }

  // The request as it goes into the array: a paused one resumes with the time it had left.
  function Restarted(p: Timing, s: Sub, req: Request, lat: Latency): Request {
    var timer := if p.writeBack && s.writeCycle then 0 else if req.paused then req.progress else lat.cell;
    req.(paused := false, cancelled := false, progress := if p.writeBack then req.progress else timer)
  }

  function WriteTimer(p: Timing, s: Sub, req: Request, lat: Latency): nat {
    if p.writeBack then (if s.writeCycle then 0 else if req.paused then req.progress else lat.cell)
    else (if req.paused then req.progress else lat.cell) + lat.encode
  }

  function WriteRegisters(p: Timing, r: Registers, req: Request, now: nat, timer: nat): Registers {
    var start := now + Bursts(p, req.burst - 1);
    var r' :=
      if req.op == WRITE_PRECHARGE then
        HeldUntil(r, start + p.tAL + p.tCWD + p.tBURST + timer + p.tWR + p.tRP)
      else
        r.(nextPrecharge := Max(r.nextPrecharge, start + p.tAL + p.tCWD + p.tBURST + timer + p.tWR),
           nextRead := Max(r.nextRead, start + p.tCWD + p.tBURST + p.tWTR + timer),
           nextWrite := Max(r.nextWrite, now + Bursts(p, req.burst) + timer));
    r'.(nextPowerDown := Max(r.nextPowerDown, r'.nextPrecharge))
  }

  function WriteEventTime(p: Timing, req: Request, now: nat, timer: nat): nat {
    now + p.tCWD + Bursts(p, req.burst) + timer
  }

  function WriteEvents(p: Timing, req: Request, now: nat, timer: nat, w: Request): Events {
    var close := now + Bursts(p, req.burst - 1) + p.tAL + p.tCWD + p.tBURST + timer + p.tWR;
    Events(if req.op == WRITE_PRECHARGE then [At(close, ImplicitPrecharge)] else [],
           [At(WriteEventTime(p, req, now, timer), WriteDone(w))], [])
  }

  // The write `w` is in the array for `timer` cycles; the registers before it are kept for a cancellation.
  function WriteStarted(p: Timing, s: Sub, req: Request, now: nat, timer: nat, w: Request): Sub {
    Sub(WriteRegisters(p, s.regs, req, now, timer), s.state, s.openRow, true,
        true, w, now, now + timer, WriteEventTime(p, req, now, timer), s.regs)
  }

  function WriteIssued(p: Timing, s: Sub, req: Request, now: nat, lat: Latency): Outcome {
    var timer := WriteTimer(p, s, req, lat);
    var w := Restarted(p, s, req, lat);
    Outcome(WriteStarted(p, s, req, now, timer, w), WriteEvents(p, req, now, timer, w))
  }

  function PrechargeTimer(p: Timing, s: Sub, lat: Latency): nat {
    if p.writeBack && s.writeCycle then Max(1, p.tRP + lat.cell) + lat.encode else Max(1, p.tRP)
  }

  function Precharged(p: Timing, s: Sub, now: nat, lat: Latency): Outcome {
    var done := now + PrechargeTimer(p, s, lat);
    Outcome(s.(regs := s.regs.(nextActivate := Max(s.regs.nextActivate, done)), state := PRECHARGING),
            Events([At(done, PrechargeDone)], [], []))
  }

  function Refreshed(p: Timing, s: Sub, now: nat): Outcome {
    var done := now + p.tRFC;
    Outcome(s.(regs := s.regs.(nextActivate := Max(s.regs.nextActivate, done)), state := REFRESHING),
            Events([At(done, RefreshDone)], [], []))
  }

  // How the environment resolves what depends on the data in the cells: latencies, and when the iterations of
  // the write in progress start.
  datatype Choice = Choice(lat: Latency, starts: seq<nat>)

  function Both(e: Events, f: Events): Events {
    Events(e.row + f.row, e.replies + f.replies, e.dropped + f.dropped)
  }

  function Then(first: Outcome, second: Outcome): Outcome {
    Outcome(second.sub, Both(first.events, second.events))
  }

  function Issued(p: Timing, s: Sub, req: Request, now: nat, c: Choice): Outcome
    requires NoWrap(p)
  {
    var paused := WritePaused(p, s, now, c.starts);
    if req.op == ACTIVATE then Then(paused, Activated(p, paused.sub, req, now))
    else if IsRead(req.op) then Then(paused, ReadIssued(p, paused.sub, req, now, c.lat))
    else if IsWrite(req.op) then WriteIssued(p, s, req, now, c.lat)
    else if IsPrecharge(req.op) then Precharged(p, s, now, c.lat)
    else if req.op == REFRESH then Refreshed(p, s, now)
    else Outcome(s, NONE)
  }

  function RowMoved(p: Timing, s: Sub, what: RowEvent, now: nat): Outcome {
    match what
    case ImplicitPrecharge =>
      Outcome(s.(state := PRECHARGING), Events([At(now + p.tRP, PrechargeDone)], [], []))
    case PrechargeDone => Outcome(s.(state := CLOSED, openRow := p.rows), NONE)
    case RefreshDone =>
      Outcome(if p.usePrecharge then s.(state := CLOSED, openRow := p.rows) else s.(state := OPEN), NONE)
  }

  // Write-to-write timing lets a new write in before the last one ends, so only the latest one clears the flag.
  function Replied(s: Sub, what: Reply): Sub {
    if what.WriteDone? && what.req.id == s.writeRequest.id then s.(isWriting := false) else s
  }

  // A request for row 0 of one burst.
  function Plain(op: Op): Request { Request(0, op, 0, 1, false, false, false, false, 0, 0) }

  const NO_LATENCY := Choice(Latency(0, 0, 0), [])
  const NO_REQUEST := Plain(NOP)
  const NO_REGISTERS := Registers(0, 0, 0, 0, 0)
  const FRESH := Sub(NO_REGISTERS, CLOSED, 0, false, false, NO_REQUEST, 0, 0, 0, NO_REGISTERS)

  // ----- Runs -----

  // A command the subarray accepted, when, and the write time or decode latency it was charged.
  datatype Accepted = Accepted(op: Op, row: nat, burst: pos, extra: nat, at: nat)

  // A subarray with its clock, the events it waits for and the trace of accepted commands.
  datatype Machine = Machine(
    sub: Sub, now: nat, row: seq<At<RowEvent>>, replies: seq<At<Reply>>, trace: seq<Accepted>)

  datatype Action =
    | Command(req: Request, choice: Choice)
    | FireRow(k: nat)
    | FireReply(k: nat)
    | Tick

  function Extra(p: Timing, s: Sub, req: Request, lat: Latency): nat {
    if IsWrite(req.op) then WriteTimer(p, s, req, lat) else if IsRead(req.op) then lat.decode else 0
  }

  // Events fire in their own cycle; the clock moves on only when none is due.  A refused command, an event
  // that is not due and an early tick leave the machine as it is.
  function Act(p: Timing, m: Machine, a: Action): Machine
    requires NoWrap(p)
  {
    match a
    case Command(req, c) =>
      if !IsIssuable(p, m.sub, req, m.now) then m
      else
        var o := Issued(p, m.sub, req, m.now, c);
        var t := Accepted(req.op, req.row, req.burst, Extra(p, m.sub, req, c.lat), m.now);
        Machine(o.sub, m.now, m.row + o.events.row, Minus(m.replies, o.events.dropped) + o.events.replies,
                m.trace + [t])
    case FireRow(k) =>
      if k < |m.row| && m.row[k].at == m.now then
        var o := RowMoved(p, m.sub, m.row[k].what, m.now);
        m.(sub := o.sub, row := m.row[..k] + m.row[k + 1..] + o.events.row)
      else m
    case FireReply(k) =>
      if k < |m.replies| && m.replies[k].at == m.now then
        m.(sub := Replied(m.sub, m.replies[k].what), replies := m.replies[..k] + m.replies[k + 1..])
      else m
    case Tick =>
      if NothingDue(m) then m.(now := m.now + 1) else m
  }

  predicate NothingDue(m: Machine) {
    && (forall k :: 0 <= k < |m.row| ==> m.row[k].at > m.now)
    && (forall k :: 0 <= k < |m.replies| ==> m.replies[k].at > m.now)
  }

  function Minus<T(==)>(events: seq<At<T>>, dropped: seq<At<T>>): seq<At<T>> {
    if events == [] then []
    else if events[0] in dropped then Minus(events[1..], dropped)
    else [events[0]] + Minus(events[1..], dropped)
  }

  function Run(p: Timing, actions: seq<Action>): Machine
    requires NoWrap(p)
  {
    if actions == [] then Machine(FRESH, 0, [], [], [])
    else Act(p, Run(p, actions[..|actions| - 1]), actions[|actions| - 1])
  }

  // ----- The subarray as an object -----

  ghost predicate AtMost(r: Registers, s: Registers) {
    && r.nextActivate <= s.nextActivate && r.nextPrecharge <= s.nextPrecharge && r.nextRead <= s.nextRead
    && r.nextWrite <= s.nextWrite && r.nextPowerDown <= s.nextPowerDown
  }

  // The registers saved for a cancelled write are never ahead of the current ones.
  ghost predicate Consistent(s: Sub) {
    s.isWriting ==> AtMost(s.preWrite, s.regs)
  }

  lemma BothNone(e: Events)
    ensures Both(e, NONE) == e
  {
  }

  predicate ToSubArray(op: Op) {
    op == ACTIVATE || IsRead(op) || IsWrite(op) || IsPrecharge(op) || op == REFRESH
  }

  class SubArray {
    const p: Timing
    var nextActivate: nat
    var nextPrecharge: nat
    var nextRead: nat
    var nextWrite: nat
    var nextPowerDown: nat
    var state: State
    var openRow: nat
    var writeCycle: bool
    var isWriting: bool
    var writeRequest: Request
    var writeStart: nat
    var writeEnd: nat
    var writeEventTime: nat
    var preWrite: Registers

    function Regs(): Registers
      reads this
    {
      Registers(nextActivate, nextPrecharge, nextRead, nextWrite, nextPowerDown)
    }

    function Model(): Sub
      reads this
    {
      Sub(Regs(), state, openRow, writeCycle, isWriting, writeRequest, writeStart, writeEnd, writeEventTime, preWrite)
    }

    constructor (params: Timing)
      ensures p == params && Model() == FRESH
    {
      p := params;
      nextActivate, nextPrecharge, nextRead, nextWrite, nextPowerDown := 0, 0, 0, 0, 0;
      state, openRow, writeCycle, isWriting := CLOSED, 0, false, false;
      writeRequest, writeStart, writeEnd, writeEventTime := NO_REQUEST, 0, 0, 0;
      preWrite := NO_REGISTERS;
    }

    // The time the write in progress still needs, by the pause mode.
    method WriteProgress(now: nat, starts: seq<nat>) returns (writeProgress: nat)
      ensures writeProgress == Remaining(p, Model(), now, starts)
    {
      hide CyclesFrom;
      writeProgress := CyclesFrom(now, writeEnd);
      if !p.optimalPause {
        var nextIterationStart := writeStart;
        var i := 0;
        while i < |starts| && starts[i] <= now
          invariant i <= |starts|
          invariant IterationStart(starts[i..], now, nextIterationStart) == IterationStart(starts, now, writeStart)
        {
          nextIterationStart := starts[i];
          i := i + 1;
        }
        writeProgress := CyclesFrom(nextIterationStart, writeEnd);
      }
    }

    method CheckWritePausing(now: nat, starts: seq<nat>) returns (events: Events)
      modifies this`writeRequest, this`nextActivate, this`nextPrecharge, this`nextRead, this`nextWrite,
               this`nextPowerDown
      ensures Outcome(Model(), events) == WritePaused(p, old(Model()), now, starts)
    {
      hide Remaining, CyclesFrom, MarkedWrite;
      events := NONE;
      if p.writePausing && isWriting {
        var writeProgress := WriteProgress(now, starts);
        var writeTimer := CyclesFrom(writeStart, writeEnd);
        var nearlyDone := writeTimer > 0 && 1.0 - writeProgress as real / writeTimer as real > p.pauseThreshold;
        events := events.(dropped := [At(writeEventTime, WriteDone(writeRequest))]);
        MarkWrite(nearlyDone, writeProgress);
        events := events.(replies := [At(now + 1, WriteDone(writeRequest))]);
        nextActivate := preWrite.nextActivate;
        nextPrecharge := preWrite.nextPrecharge;
        nextWrite := preWrite.nextWrite;
        nextRead := preWrite.nextRead;
        nextPowerDown := preWrite.nextPowerDown;
      }
    }

    // The flags of the write in progress: paused when it is nearly done, cancelled otherwise.
    method MarkWrite(nearlyDone: bool, progress: nat)
      modifies this`writeRequest
      ensures writeRequest == MarkedWrite(p, old(writeRequest), writeEnd, nearlyDone, progress)
    {
      writeRequest := writeRequest.(progress := progress);
      if nearlyDone {
        if progress != writeEnd {
          writeRequest := writeRequest.(paused := true);
        }
      } else {
        writeRequest := writeRequest.(cancelled := true, cancellations := writeRequest.cancellations + 1);
        if writeRequest.cancellations >= p.maxCancellations {
          writeRequest := writeRequest.(forced := true);
        }
      }
    }

    method Activate(req: Request, now: nat, c: Choice) returns (ok: bool, events: Events)
      requires NoWrap(p) && req.op == ACTIVATE
      modifies this
      ensures var s := WritePaused(p, old(Model()), now, c.starts).sub;
        ok <==> s.regs.nextActivate <= now && (p.usePrecharge ==> s.state == CLOSED)
      ensures Outcome(Model(), events) ==
        if ok then Issued(p, old(Model()), req, now, c) else WritePaused(p, old(Model()), now, c.starts)
    {
      hide WritePaused, Activated, Both;
      events := CheckWritePausing(now, c.starts);
      if nextActivate > now || (p.usePrecharge && state != CLOSED) {
        ok := false;
        return;
      }
      BothNone(events);
      OpenRow(req, now);
      ok := true;
    }

    method OpenRow(req: Request, now: nat)
      requires NoWrap(p)
      modifies this`nextPrecharge, this`nextRead, this`nextWrite, this`nextPowerDown, this`openRow, this`state,
               this`writeCycle
      ensures Outcome(Model(), NONE) == Activated(p, old(Model()), req, now)
    {
      hide Max;
      nextPrecharge := Max(nextPrecharge, now + Max(p.tRCD, p.tRAS));
      nextRead := Max(nextRead, now + p.tRCD - p.tAL);
      nextWrite := Max(nextWrite, now + p.tRCD - p.tAL);
      nextPowerDown := Max(nextPowerDown, now + Max(p.tRCD, p.tRAS));
      openRow := req.row;
      state := OPEN;
      writeCycle := false;
    }

    method Read(req: Request, now: nat, c: Choice) returns (ok: bool, events: Events)
      requires NoWrap(p) && IsRead(req.op)
      modifies this
      ensures var s := WritePaused(p, old(Model()), now, c.starts).sub;
        ok <==> s.regs.nextRead <= now && s.state == OPEN && req.row == s.openRow
      ensures Outcome(Model(), events) ==
        if ok then Issued(p, old(Model()), req, now, c) else WritePaused(p, old(Model()), now, c.starts)
    {
      hide WritePaused, ReadRegisters, Bursts;
      events := CheckWritePausing(now, c.starts);
      if nextRead > now || state != OPEN || req.row != openRow {
        ok := false;
        return;
      }
      UpdateReadTiming(req, now, c.lat.decode);
      var close := now + p.tAL + p.tRTP + c.lat.decode + Bursts(p, req.burst - 1);
      events := Both(events, Events(
        if req.op == READ_PRECHARGE then [At(close, ImplicitPrecharge)] else [],
        [At(now + p.tCAS + p.tBURST + c.lat.decode, ReadDone(req))], []));
      ok := true;
    }

    method UpdateReadTiming(req: Request, now: nat, decLat: nat)
      requires NoWrap(p) && IsRead(req.op)
      modifies this`nextActivate, this`nextPrecharge, this`nextRead, this`nextWrite, this`nextPowerDown
      ensures Regs() == ReadRegisters(p, old(Regs()), req, now, decLat)
    {
      var tail := Bursts(p, req.burst - 1);
      if req.op == READ_PRECHARGE {
        nextActivate := Max(nextActivate, now + tail + p.tAL + p.tRTP + p.tRP + decLat);
        nextPrecharge := Max(nextPrecharge, nextActivate);
        nextRead := Max(nextRead, nextActivate);
        nextWrite := Max(nextWrite, nextActivate);
      } else {
        nextPrecharge := Max(nextPrecharge, now + tail + p.tAL + p.tBURST + p.tRTP - p.tCCD + decLat);
        nextRead := Max(nextRead, now + Bursts(p, req.burst));
        nextWrite := Max(nextWrite, now + tail + p.tCAS + p.tBURST + p.tRTRS - p.tCWD + decLat);
      }
      nextPowerDown := Max(nextPowerDown, now + tail + p.tCAS + p.tAL + p.tBURST + 1 + decLat);
    }

    method Write(req: Request, now: nat, c: Choice) returns (ok: bool, events: Events)
      requires NoWrap(p) && IsWrite(req.op)
      modifies this
      ensures ok <==> old(nextWrite <= now && state == OPEN && req.row == openRow)
      ensures Outcome(Model(), events) ==
        if ok then WriteIssued(p, old(Model()), req, now, c.lat) else Outcome(old(Model()), NONE)
    {
      events := NONE;
      if nextWrite > now || state != OPEN || req.row != openRow {
        ok := false;
        return;
      }
      var writeTimer := c.lat.cell;
      var request := req.(cancelled := false);
      if request.paused {
        writeTimer := request.progress;
        request := request.(paused := false);
      }
      if p.writeBack && writeCycle {
        writeTimer := 0;
      }
      if !p.writeBack {
        request := request.(progress := writeTimer);
        writeTimer := writeTimer + c.lat.encode;
      }
      assert writeTimer == WriteTimer(p, Model(), req, c.lat) && request == Restarted(p, Model(), req, c.lat);
      StartWrite(req, now, writeTimer, request);
      events := WriteEvents(p, req, now, writeTimer, request);
      ok := true;
    }

    method StartWrite(req: Request, now: nat, writeTimer: nat, request: Request)
      requires IsWrite(req.op)
      modifies this`nextActivate, this`nextPrecharge, this`nextRead, this`nextWrite, this`nextPowerDown,
               this`preWrite, this`isWriting, this`writeRequest, this`writeStart, this`writeEnd, this`writeEventTime,
               this`writeCycle
      ensures Model() == WriteStarted(p, old(Model()), req, now, writeTimer, request)
    {
      hide WriteRegisters, WriteEventTime, Bursts;
      preWrite := Regs();
      UpdateWriteTiming(req, now, writeTimer);
      MarkWriting(req, now, writeTimer, request);
    }

    // A write is in progress, in case it is to be paused or cancelled.
    method MarkWriting(req: Request, now: nat, writeTimer: nat, request: Request)
      modifies this`isWriting, this`writeRequest, this`writeStart, this`writeEnd, this`writeEventTime, this`writeCycle
      ensures isWriting && writeRequest == request && writeStart == now && writeEnd == now + writeTimer
      ensures writeEventTime == WriteEventTime(p, req, now, writeTimer) && writeCycle
    {
      hide WriteEventTime;
      isWriting := true;
      writeRequest := request;
      writeStart := now;
      writeEnd := now + writeTimer;
      writeEventTime := WriteEventTime(p, req, now, writeTimer);
      writeCycle := true;
    }

    method UpdateWriteTiming(req: Request, now: nat, writeTimer: nat)
      requires IsWrite(req.op)
      modifies this`nextActivate, this`nextPrecharge, this`nextRead, this`nextWrite, this`nextPowerDown
      ensures Regs() == WriteRegisters(p, old(Regs()), req, now, writeTimer)
    {
      var start := now + Bursts(p, req.burst - 1);
      if req.op == WRITE_PRECHARGE {
        nextActivate := Max(nextActivate, start + p.tAL + p.tCWD + p.tBURST + writeTimer + p.tWR + p.tRP);
        nextPrecharge := Max(nextPrecharge, nextActivate);
        nextRead := Max(nextRead, nextActivate);
        nextWrite := Max(nextWrite, nextActivate);
      } else {
        nextPrecharge := Max(nextPrecharge, start + p.tAL + p.tCWD + p.tBURST + writeTimer + p.tWR);
        nextRead := Max(nextRead, start + p.tCWD + p.tBURST + p.tWTR + writeTimer);
        nextWrite := Max(nextWrite, now + Bursts(p, req.burst) + writeTimer);
      }
      nextPowerDown := Max(nextPowerDown, nextPrecharge);
    }

    method Precharge(req: Request, now: nat, c: Choice) returns (ok: bool, events: Events)
      requires NoWrap(p) && IsPrecharge(req.op)
      modifies this`nextActivate, this`state
      ensures ok <==> old(nextPrecharge <= now && (state == CLOSED || state == OPEN))
      ensures Outcome(Model(), events) ==
          if ok then Issued(p, old(Model()), req, now, c) else Outcome(old(Model()), NONE)
    {
      events := NONE;
      if nextPrecharge > now || (state != CLOSED && state != OPEN) {
        ok := false;
        return;
      }
      hide Max;
      var writeTimer := Max(1, p.tRP);
      if p.writeBack && writeCycle {
        writeTimer := Max(1, p.tRP + c.lat.cell) + c.lat.encode;
      }
      nextActivate := Max(nextActivate, now + writeTimer);
      events := Events([At(now + writeTimer, PrechargeDone)], [], []);
      state := PRECHARGING;
      ok := true;
    }

    method Refresh(req: Request, now: nat, c: Choice) returns (ok: bool, events: Events)
      requires NoWrap(p) && req.op == REFRESH
      modifies this`nextActivate, this`state
      ensures ok <==> old(nextActivate <= now && (p.usePrecharge ==> state == CLOSED))
      ensures Outcome(Model(), events) ==
          if ok then Issued(p, old(Model()), req, now, c) else Outcome(old(Model()), NONE)
    {
      events := NONE;
      if nextActivate > now || (state != CLOSED && p.usePrecharge) {
        ok := false;
        return;
      }
      hide Max;
      nextActivate := Max(nextActivate, now + p.tRFC);
      events := Events([At(now + p.tRFC, RefreshDone)], [], []);
      state := REFRESHING;
      ok := true;
    }

    // A command the subarray says it can take is taken, even when taking it cancels a write.
    method IssueCommand(req: Request, now: nat, c: Choice) returns (ok: bool, events: Events)
      requires NoWrap(p) && Consistent(Model()) && ToSubArray(req.op)
      modifies this
      ensures ok <==> IsIssuable(p, old(Model()), req, now)
      ensures ok ==> Outcome(Model(), events) == Issued(p, old(Model()), req, now, c)
      ensures !ok ==> Model() == old(Model()) && events == NONE
      ensures Consistent(Model())
    {
      ok, events := false, NONE;
      IssuedConsistent(p, Model(), req, now, c);
      if IsIssuable(p, Model(), req, now) {
        if req.op == ACTIVATE {
          ok, events := Activate(req, now, c);
        } else if IsRead(req.op) {
          ok, events := Read(req, now, c);
        } else if IsWrite(req.op) {
          ok, events := Write(req, now, c);
        } else if IsPrecharge(req.op) {
          ok, events := Precharge(req, now, c);
        } else {
          ok, events := Refresh(req, now, c);
        }
      }
    }

    method RequestComplete(what: RowEvent, now: nat) returns (events: Events)
      modifies this
      ensures Outcome(Model(), events) == RowMoved(p, old(Model()), what, now)
    {
      events := NONE;
      match what {
        case ImplicitPrecharge =>
          state := PRECHARGING;
          events := Events([At(now + p.tRP, PrechargeDone)], [], []);
        case PrechargeDone =>
          state := CLOSED;
          openRow := p.rows;
        case RefreshDone =>
          if p.usePrecharge {
            state := CLOSED;
            openRow := p.rows;
          } else {
            state := OPEN;
          }
      }
    }

    method ReplyComplete(what: Reply)
      modifies this
      ensures Model() == Replied(old(Model()), what)
    {
      if what.WriteDone? && what.req.id == writeRequest.id {
        isWriting := false;
      }
    }
  }

  lemma IssuedConsistent(p: Timing, s: Sub, req: Request, now: nat, c: Choice)
    requires NoWrap(p) && Consistent(s)
    ensures Consistent(Issued(p, s, req, now, c).sub)
  {
    hide Bursts, WriteTimer, WriteEvents, WriteEventTime, Restarted, PrechargeTimer;
  }
}
