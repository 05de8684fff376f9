/**
  An uncached DDR3 bank over its subarrays: bank-level timing, power-down states, and the list of subarrays
  that are open.
*/
module Banks {
  import opened Device
  import opened Sequences
  import opened SubArrays
  import opened SubArrayRuns

  datatype BankState = BANK_CLOSED | BANK_OPEN | BANK_PDPF | BANK_PDA | BANK_PDPS

  datatype BankRegisters = BankRegisters(
    nextActivate: nat, nextPrecharge: nat, nextRead: nat, nextWrite: nat, nextPowerDown: nat, nextPowerUp: nat)

  // `active` is the queue of open subarrays, the latest first.
  datatype Bank = Bank(regs: BankRegisters, state: BankState, active: seq<nat>, subs: seq<Machine>)

  predicate PoweredDown(s: BankState) { s == BANK_PDPF || s == BANK_PDPS || s == BANK_PDA }

  predicate SubIssuable(p: Timing, b: Bank, k: nat, req: Request, now: nat) {
    k < |b.subs| && IsIssuable(p, b.subs[k].sub, req, now)
  }

  predicate BankIssuable(p: Timing, b: Bank, k: nat, req: Request, now: nat) {
    if req.op == ACTIVATE then
      b.regs.nextActivate <= now && !PoweredDown(b.state) && SubIssuable(p, b, k, req, now)
    else if IsRead(req.op) then
      b.regs.nextRead <= now && b.state == BANK_OPEN && SubIssuable(p, b, k, req, now)
    else if IsWrite(req.op) then
      b.regs.nextWrite <= now && b.state == BANK_OPEN && SubIssuable(p, b, k, req, now)
    else if IsPrecharge(req.op) then
      && b.regs.nextPrecharge <= now && (b.state == BANK_CLOSED || b.state == BANK_OPEN)
      && if req.op == PRECHARGE_ALL then forall i :: 0 <= i < |b.active| ==> SubIssuable(p, b, b.active[i], req, now)
         else SubIssuable(p, b, k, req, now)
    else if IsPowerDown(req.op) then
      && b.regs.nextPowerDown <= now && (b.state == BANK_CLOSED || b.state == BANK_OPEN)
      && !(req.op != POWERDOWN_PDA && b.state == BANK_OPEN)
      && forall i :: 0 <= i < |b.subs| ==> SubIssuable(p, b, i, req, now)
    else if req.op == POWERUP then
      && b.regs.nextPowerUp <= now && PoweredDown(b.state)
      && forall i :: 0 <= i < |b.subs| ==> SubIssuable(p, b, i, req, now)
    else if req.op == REFRESH then
      && b.regs.nextActivate <= now && (b.state == BANK_CLOSED || b.state == BANK_OPEN)
      && SubIssuable(p, b, k, req, now)
    else
      SubIssuable(p, b, k, req, now)
  }

  function BankNextIssuable(b: Bank, k: nat, req: Request): nat
    requires k < |b.subs|
  {
    var bank :=
      if req.op == ACTIVATE || req.op == REFRESH then b.regs.nextActivate
      else if IsRead(req.op) then b.regs.nextRead
      else if IsWrite(req.op) then b.regs.nextWrite
      else if IsPrecharge(req.op) then b.regs.nextPrecharge
      else 0;
    Max(NextIssuable(b.subs[k].sub, req), bank)
  }

  // The subarrays a command is forwarded to.
  function Targets(b: Bank, k: nat, op: Op): seq<nat> {
    if op == PRECHARGE_ALL then b.active
    else if IsPowerDown(op) || op == POWERUP then []
    else [k]
  }

  function ActiveAfter(active: seq<nat>, k: nat, op: Op): seq<nat> {
    if op == ACTIVATE then [k] + active
    else if op == PRECHARGE_ALL then []
    else if Closes(op) then Without(active, k)
    else active
  }

  function StateAfter(b: Bank, k: nat, op: Op): BankState {
    if op == ACTIVATE then BANK_OPEN
    else if Closes(op) then (if ActiveAfter(b.active, k, op) == [] then BANK_CLOSED else b.state)
    else if IsPowerDown(op) then
      (if b.state == BANK_OPEN then BANK_PDA else if op == POWERDOWN_PDPS then BANK_PDPS else BANK_PDPF)
    else if op == POWERUP then (if b.state == BANK_PDA then BANK_OPEN else BANK_CLOSED)
    else b.state
  }

  function RegistersAfter(p: Timing, b: Bank, req: Request, now: nat): BankRegisters
    requires NoWrap(p)
  {
    var r := b.regs;
    var tail := Bursts(p, req.burst - 1);
    if req.op == ACTIVATE then r.(nextPowerDown := Max(r.nextPowerDown, now + p.tRCD))
    else if IsRead(req.op) then
      r.(nextPowerDown := Max(r.nextPowerDown,
           if req.op == READ_PRECHARGE then now + tail + p.tAL + p.tRTP + p.tRP else tail + now + p.tRDPDEN),
         nextRead := Max(r.nextRead, now + Bursts(p, req.burst)),
         nextWrite := Max(r.nextWrite, now + tail + p.tCAS + p.tBURST + p.tRTRS - p.tCWD))
    else if IsWrite(req.op) then
      // With an implicit precharge the power-down register restarts from nextActivate.
      r.(nextPowerDown :=
           if req.op == WRITE_PRECHARGE then
             Max(r.nextActivate, now + tail + p.tAL + p.tCWD + p.tBURST + p.tWR + p.tRP)
           else Max(r.nextPowerDown, tail + now + p.tWRPDEN),
         nextRead := Max(r.nextRead, now + tail + p.tCWD + p.tBURST + p.tWTR),
         nextWrite := Max(r.nextWrite, now + Bursts(p, req.burst)))
    else if IsPrecharge(req.op) then r.(nextPowerDown := Max(r.nextPowerDown, now + p.tRP))
    else if req.op == REFRESH then r.(nextPowerDown := Max(r.nextPowerDown, now + p.tRFC))
    else if IsPowerDown(req.op) then r.(nextPowerUp := Max(r.nextPowerUp, now + p.tPD))
    else if req.op == POWERUP then
      r.(nextPowerDown := Max(r.nextPowerDown, now + p.tXP),
         nextActivate := Max(r.nextActivate, now + p.tXP),
         nextPrecharge := Max(r.nextPrecharge, now + p.tXP),
         nextWrite := Max(r.nextWrite, now + p.tXP),
         nextRead := Max(r.nextRead, now + if b.state == BANK_PDPS then p.tXPDLL else p.tXP))
    else r
  }

  // Each target takes the command with its own latencies.
  function SubsAfter(p: Timing, subs: seq<Machine>, targets: seq<nat>, req: Request, cs: seq<Choice>): seq<Machine>
    requires NoWrap(p) && |cs| == |subs|
    decreases |targets|
  {
    if targets == [] then subs
    else
      var k := targets[0];
      var rest := if k < |subs| then subs[k := Act(p, subs[k], Command(req, cs[k]))] else subs;
      SubsAfter(p, rest, targets[1..], req, cs)
  }

  function BankIssued(p: Timing, b: Bank, k: nat, req: Request, now: nat, cs: seq<Choice>): Bank
    requires NoWrap(p) && |cs| == |b.subs|
  {
    Bank(RegistersAfter(p, b, req, now), StateAfter(b, k, req.op), ActiveAfter(b.active, k, req.op),
         SubsAfter(p, b.subs, Targets(b, k, req.op), req, cs))
  }

  // ----- Commands the bank or a subarray refuses -----

  // The checks an operation makes itself before it touches anything.
  predicate Sane(b: Bank, op: Op, now: nat) {
    if op == ACTIVATE then b.regs.nextActivate <= now && (b.state == BANK_CLOSED || b.active != [])
    else if IsRead(op) then b.regs.nextRead <= now && b.state == BANK_OPEN
    else if IsWrite(op) then b.regs.nextWrite <= now && b.state == BANK_OPEN
    else if IsPrecharge(op) then b.regs.nextPrecharge <= now && (b.state == BANK_CLOSED || b.state == BANK_OPEN)
    else if op == REFRESH then b.regs.nextActivate <= now
    else if IsPowerDown(op) then b.regs.nextPowerDown <= now && (b.state == BANK_CLOSED || b.state == BANK_OPEN)
    else op == POWERUP && b.regs.nextPowerUp <= now && PoweredDown(b.state)
  }

  datatype Closing = Closing(ok: bool, active: seq<nat>, subs: seq<Machine>)

  // Open subarrays are precharged one by one, the latest first, until one refuses; that one has left the
  // queue by then.
  function ClosedOneByOne(p: Timing, active: seq<nat>, subs: seq<Machine>, req: Request, now: nat, cs: seq<Choice>)
      : Closing
    requires NoWrap(p) && |cs| == |subs| && forall k :: k in active ==> k < |subs|
    decreases |active|
  {
    if active == [] then Closing(true, [], subs)
    else
      var k := active[0];
      assert k in active && forall i :: i in active[1..] ==> i in active;
      if !IsIssuable(p, subs[k].sub, req, now) then Closing(false, active[1..], subs)
      else ClosedOneByOne(p, active[1..], subs[k := Act(p, subs[k], Command(req, cs[k]))], req, now, cs)
  }

  datatype Attempt = Attempt(ok: bool, bank: Bank)

  // What an operation does, taken or not: nothing if its own checks fail; otherwise the bank's registers are
  // moved before the subarray is asked, and stay so when it refuses.
  function Attempted(p: Timing, b: Bank, k: nat, req: Request, now: nat, cs: seq<Choice>): Attempt
    requires NoWrap(p) && |cs| == |b.subs| && k < |b.subs| && forall i :: i in b.active ==> i < |b.subs|
  {
    if !Sane(b, req.op, now) then Attempt(false, b)
    else if req.op == PRECHARGE_ALL then
      var c := ClosedOneByOne(p, b.active, b.subs, req, now, cs);
      Attempt(c.ok, Bank(RegistersAfter(p, b, req, now), if c.ok then BANK_CLOSED else b.state, c.active, c.subs))
    else if IsPowerDown(req.op) || req.op == POWERUP || IsIssuable(p, b.subs[k].sub, req, now) then
      Attempt(true, BankIssued(p, b, k, req, now, cs))
    else Attempt(false, b.(regs := RegistersAfter(p, b, req, now)))
  }

  // ----- Runs -----

  datatype BankAction =
    | Request(k: nat, req: Request, choices: seq<Choice>)
    | Event(k: nat, action: Action)
    | NextCycle

  datatype BankMachine = BankMachine(bank: Bank, now: nat)

  function BankAct(p: Timing, m: BankMachine, a: BankAction): BankMachine
    requires NoWrap(p)
  {
    match a
    case Request(k, req, cs) =>
      if |cs| == |m.bank.subs| && k < |m.bank.subs| && BankIssuable(p, m.bank, k, req, m.now) then
        m.(bank := BankIssued(p, m.bank, k, req, m.now, cs))
      else m
    case Event(k, e) =>
      if k < |m.bank.subs| && (e.FireRow? || e.FireReply?) then
        m.(bank := m.bank.(subs := m.bank.subs[k := Act(p, m.bank.subs[k], e)]))
      else m
    case NextCycle =>
      if forall i :: 0 <= i < |m.bank.subs| ==> NothingDue(m.bank.subs[i]) then
        BankMachine(m.bank.(subs :=
                      seq(|m.bank.subs|, i requires 0 <= i < |m.bank.subs| => Act(p, m.bank.subs[i], Tick))),
                    m.now + 1)
      else m
  }

  // A bank of n subarrays, powered up or in precharge power-down with fast exit.
  function BankRun(p: Timing, n: nat, poweredDown: bool, actions: seq<BankAction>): BankMachine
    requires NoWrap(p)
  {
    if actions == [] then
      BankMachine(Bank(BankRegisters(0, 0, 0, 0, 0, 0), if poweredDown then BANK_PDPF else BANK_CLOSED, [],
                       seq(n, _ => Machine(FRESH, 0, [], [], []))), 0)
    else
      BankAct(p, BankRun(p, n, poweredDown, actions[..|actions| - 1]), actions[|actions| - 1])
  }

  // ----- Agreement of the bank with its subarrays -----

  predicate Distinct(s: seq<nat>) {
    forall i, j :: 0 <= i < j < |s| ==> s[i] != s[j]
  }

  // The queue lists exactly the open subarrays with no implicit precharge in flight, each once.
  ghost predicate Lists(active: seq<nat>, subs: seq<Machine>) {
    Distinct(active) && forall k: nat :: k in active <==> k < |subs| && RowOf(subs[k]).Open?
  }

  ghost predicate SubsOk(p: Timing, subs: seq<Machine>, now: nat) {
    forall k :: 0 <= k < |subs| ==> RowEvents(p, subs[k]) && subs[k].now == now
  }

  ghost predicate Agrees(p: Timing, b: Bank, now: nat) {
    && Lists(b.active, b.subs) && SubsOk(p, b.subs, now)
    && (b.state == BANK_OPEN || b.state == BANK_PDA <==> b.active != [])
  }

  lemma WithoutDistinct(active: seq<nat>, k: nat)
    requires Distinct(active)
    ensures Distinct(Without(active, k)) && k !in Without(active, k)
  {
    if active != [] {
      assert forall j :: 0 <= j < |active| - 1 ==> active[1..][j] == active[j + 1];
      assert active[0] !in active[1..];
      if active[0] != k {
        WithoutDistinct(active[1..], k);
        assert active[0] !in Without(active[1..], k);
      }
    }
  }

  // What forwarding a command does to the subarrays, one by one.
  lemma SubsAfterAt(p: Timing, subs: seq<Machine>, targets: seq<nat>, req: Request, cs: seq<Choice>)
    requires NoWrap(p) && |cs| == |subs| && Distinct(targets)
    ensures |SubsAfter(p, subs, targets, req, cs)| == |subs|
    ensures forall i :: 0 <= i < |subs| ==>
      SubsAfter(p, subs, targets, req, cs)[i] ==
          (if i in targets then Act(p, subs[i], Command(req, cs[i])) else subs[i])
    decreases |targets|
  {
    if targets != [] {
      var k := targets[0];
      var rest := if k < |subs| then subs[k := Act(p, subs[k], Command(req, cs[k]))] else subs;
      assert forall j :: 0 <= j < |targets| - 1 ==> targets[1..][j] == targets[j + 1];
      SubsAfterAt(p, rest, targets[1..], req, cs);
      assert forall i :: i in targets <==> i == k || i in targets[1..];
      assert k !in targets[1..];
    }
  }

  lemma SubsAfterOne(p: Timing, subs: seq<Machine>, k: nat, req: Request, cs: seq<Choice>)
    requires NoWrap(p) && |cs| == |subs| && k < |subs|
    ensures SubsAfter(p, subs, [k], req, cs) == subs[k := Act(p, subs[k], Command(req, cs[k]))]
  {
    hide Act;
    var rest := subs[k := Act(p, subs[k], Command(req, cs[k]))];
    assert SubsAfter(p, rest, [k][1..], req, cs) == rest;
  }

  // The command reaches each target only when the target can take it.
  lemma TargetsCanTakeIt(p: Timing, b: Bank, k: nat, req: Request, now: nat, i: nat)
    requires BankIssuable(p, b, k, req, now) && i in Targets(b, k, req.op)
    ensures SubIssuable(p, b, i, req, now)
  {
  }

  // The rows of the subarrays before and after a command that reached `targets`.
  ghost predicate RowsMoved(subs: seq<Machine>, subs': seq<Machine>, targets: seq<nat>, req: Request) {
    |subs'| == |subs| && forall i :: 0 <= i < |subs| ==>
      if i in targets then
        RowLegal(RowOf(subs[i]), req.op, req.row) && RowOf(subs'[i]) == RowStep(RowOf(subs[i]), req.op, req.row)
      else RowOf(subs'[i]) == RowOf(subs[i])
  }

  lemma IssuedMovesRows(p: Timing, b: Bank, k: nat, req: Request, now: nat, cs: seq<Choice>)
    requires NoWrap(p) && p.tRP >= 1 && p.usePrecharge && !p.writePausing
    requires Distinct(b.active) && SubsOk(p, b.subs, now)
    requires |cs| == |b.subs| && BankIssuable(p, b, k, req, now)
    ensures SubsOk(p, BankIssued(p, b, k, req, now, cs).subs, now)
    ensures RowsMoved(b.subs, BankIssued(p, b, k, req, now, cs).subs, Targets(b, k, req.op), req)
  {
    var targets := Targets(b, k, req.op);
    SubsAfterAt(p, b.subs, targets, req, cs);
    forall i | 0 <= i < |b.subs| && i in targets
      ensures var m' := Act(p, b.subs[i], Command(req, cs[i]));
        && RowEvents(p, m') && m'.now == now
        && RowLegal(RowOf(b.subs[i]), req.op, req.row)
        && RowOf(m') == RowStep(RowOf(b.subs[i]), req.op, req.row)
    {
      TargetsCanTakeIt(p, b, k, req, now, i);
      AcceptedMovesRow(p, b.subs[i], req, cs[i]);
    }
  }

  lemma ActiveFollowsRows(b: Bank, subs': seq<Machine>, k: nat, req: Request)
    requires Lists(b.active, b.subs) && k < |b.subs| && RowsMoved(b.subs, subs', Targets(b, k, req.op), req)
    ensures Lists(ActiveAfter(b.active, k, req.op), subs')
  {
    if Closes(req.op) && req.op != PRECHARGE_ALL {
      WithoutDistinct(b.active, k);
    } else if req.op == ACTIVATE {
      assert k !in b.active;
    }
  }

  lemma IssuedAgrees(p: Timing, b: Bank, k: nat, req: Request, now: nat, cs: seq<Choice>)
    requires NoWrap(p) && p.tRP >= 1 && p.usePrecharge && !p.writePausing && Agrees(p, b, now)
    requires |cs| == |b.subs| && k < |b.subs| && BankIssuable(p, b, k, req, now)
    ensures Agrees(p, BankIssued(p, b, k, req, now, cs), now)
  {
    IssuedMovesRows(p, b, k, req, now, cs);
    ActiveFollowsRows(b, BankIssued(p, b, k, req, now, cs).subs, k, req);
  }

  // An event of a subarray leaves its row as it counts, and its clock.
  lemma EventKeepsRow(p: Timing, s: Machine, e: Action)
    requires NoWrap(p) && p.usePrecharge && RowEvents(p, s) && (e.FireRow? || e.FireReply?)
    ensures RowOf(Act(p, s, e)) == RowOf(s) && RowEvents(p, Act(p, s, e)) && Act(p, s, e).now == s.now
  {
  }

  lemma EventAgrees(p: Timing, m: BankMachine, k: nat, e: Action)
    requires NoWrap(p) && p.usePrecharge && Agrees(p, m.bank, m.now)
    ensures Agrees(p, BankAct(p, m, Event(k, e)).bank, m.now)
  {
    hide Act, RowEvents, RowOf;
    if k < |m.bank.subs| && (e.FireRow? || e.FireReply?) {
      EventKeepsRow(p, m.bank.subs[k], e);
    }
  }

  lemma NextCycleAgrees(p: Timing, m: BankMachine)
    requires NoWrap(p) && Agrees(p, m.bank, m.now)
    ensures Agrees(p, BankAct(p, m, NextCycle).bank, BankAct(p, m, NextCycle).now)
  {
    var m' := BankAct(p, m, NextCycle);
    assert |m'.bank.subs| == |m.bank.subs|;
    forall i | 0 <= i < |m.bank.subs|
      ensures RowOf(m'.bank.subs[i]) == RowOf(m.bank.subs[i])
      ensures RowEvents(p, m'.bank.subs[i]) && m'.bank.subs[i].now == m'.now
    {
    }
  }

  // In every run the bank is open, or in active power-down, exactly when its queue of open subarrays is not
  // empty, and the queue is exact.
  lemma {:induction false} BankAlwaysAgrees(p: Timing, n: nat, poweredDown: bool, actions: seq<BankAction>)
    requires NoWrap(p) && p.tRP >= 1 && p.usePrecharge && !p.writePausing
    ensures var m := BankRun(p, n, poweredDown, actions); Agrees(p, m.bank, m.now)
  {
    if actions != [] {
      BankAlwaysAgrees(p, n, poweredDown, actions[..|actions| - 1]);
      var m := BankRun(p, n, poweredDown, actions[..|actions| - 1]);
      match actions[|actions| - 1]
      case Request(k, req, cs) =>
        if |cs| == |m.bank.subs| && k < |m.bank.subs| && BankIssuable(p, m.bank, k, req, m.now) {
          IssuedAgrees(p, m.bank, k, req, m.now, cs);
        }
      case Event(k, e) => EventAgrees(p, m, k, e);
      case NextCycle => NextCycleAgrees(p, m);
    }
  }

  lemma {:induction false} AllClose(p: Timing, active: seq<nat>, subs: seq<Machine>, req: Request, now: nat,
      cs: seq<Choice>)
    requires NoWrap(p) && |cs| == |subs| && Distinct(active)
    requires forall k :: k in active ==> k < |subs| && IsIssuable(p, subs[k].sub, req, now)
    ensures ClosedOneByOne(p, active, subs, req, now, cs) == Closing(true, [], SubsAfter(p, subs, active, req, cs))
    decreases |active|
  {
    hide Act, IsIssuable;
    if active != [] {
      var k := active[0];
      assert k in active && forall i :: i in active[1..] ==> i in active && i != k;
      AllClose(p, active[1..], subs[k := Act(p, subs[k], Command(req, cs[k]))], req, now, cs);
    }
  }

  // A command the bank says it can take passes the operation's own checks and every subarray it concerns.
  lemma IssuableIsTaken(p: Timing, b: Bank, k: nat, req: Request, now: nat, cs: seq<Choice>)
    requires NoWrap(p) && |cs| == |b.subs| && k < |b.subs| && Agrees(p, b, now)
    requires ToSubArray(req.op) || IsPowerDown(req.op) || req.op == POWERUP
    requires BankIssuable(p, b, k, req, now)
    ensures Attempted(p, b, k, req, now, cs) == Attempt(true, BankIssued(p, b, k, req, now, cs))
    ensures IsPowerDown(req.op) && b.state == BANK_OPEN ==> req.op == POWERDOWN_PDA
  {
    hide RegistersAfter, IsIssuable, RowEvents, RowOf;
    if req.op == PRECHARGE_ALL {
      AllClose(p, b.active, b.subs, req, now, cs);
    }
  }

  // From the acceptance of an implicit precharge to the end of the precharge a subarray takes no command
  // that touches its row.
  lemma RefusesWhileClosing(p: Timing, m: Machine, req: Request)
    requires p.tRP >= 1 && p.usePrecharge && RowEvents(p, m)
    requires m.row != [] && KindOf(req.op) != ToNothing
    ensures !IsIssuable(p, m.sub, req, m.now)
  {
  }

  // Cached accesses are refused on an uncached bank in every state.
  lemma CachedAlwaysRefused(p: Timing, b: Bank, k: nat, req: Request, now: nat)
    requires req.op == CACHED_READ || req.op == CACHED_WRITE
    ensures !BankIssuable(p, b, k, req, now)
  {
  }

  // The bank never takes a command before the cycle it announces.
  lemma BankNotIssuableEarlier(p: Timing, b: Bank, k: nat, req: Request, now: nat)
    requires k < |b.subs| && now < BankNextIssuable(b, k, req)
    ensures !BankIssuable(p, b, k, req, now)
  {
  }

  lemma ActKeepsClock(p: Timing, m: Machine, a: Action)
    requires NoWrap(p) && a.Command?
    ensures Act(p, m, a).now == m.now
  {
    hide Issued;
  }

  // ----- The bank as an object -----

  class DDR3Bank {
    const p: Timing
    var regs: BankRegisters
    var state: BankState
    var activeSubArrayQueue: seq<nat>
    var subs: seq<Machine>

    function Model(): Bank
      reads this
    {
      Bank(regs, state, activeSubArrayQueue, subs)
    }

    constructor (params: Timing, n: nat, initPD: bool)
      ensures p == params
      ensures Model() == Bank(BankRegisters(0, 0, 0, 0, 0, 0), if initPD then BANK_PDPF else BANK_CLOSED, [],
                              seq(n, _ => Machine(FRESH, 0, [], [], [])))
    {
      p := params;
      regs := BankRegisters(0, 0, 0, 0, 0, 0);
      state := if initPD then BANK_PDPF else BANK_CLOSED;
      activeSubArrayQueue := [];
      subs := seq(n, _ => Machine(FRESH, 0, [], [], []));
    }

    // Forward a command to a subarray, which may refuse it.
    method IssueToChild(k: nat, req: Request, cs: seq<Choice>) returns (success: bool)
      requires NoWrap(p) && k < |subs| && |cs| == |subs|
      modifies this`subs
      ensures success <==> IsIssuable(p, old(subs[k].sub), req, old(subs[k].now))
      ensures subs == if success then old(subs)[k := Act(p, old(subs[k]), Command(req, cs[k]))] else old(subs)
      ensures success ==> subs == SubsAfter(p, old(subs), [k], req, cs)
    {
      hide Act;
      SubsAfterOne(p, subs, k, req, cs);
      success := IsIssuable(p, subs[k].sub, req, subs[k].now);
      if success {
        subs := subs[k := Act(p, subs[k], Command(req, cs[k]))];
      }
    }

    method RemoveActive(k: nat)
      modifies this`activeSubArrayQueue
      ensures activeSubArrayQueue == Without(old(activeSubArrayQueue), k)
    {
      var i := 0;
      while i < |activeSubArrayQueue| && activeSubArrayQueue[i] != k
        invariant i <= |activeSubArrayQueue| && k !in activeSubArrayQueue[..i]
      {
        i := i + 1;
      }
      WithoutAt(activeSubArrayQueue, k, i);
      if i < |activeSubArrayQueue| {
        activeSubArrayQueue := activeSubArrayQueue[..i] + activeSubArrayQueue[i + 1..];
      }
    }

    // The subarrays keep the bank's clock, and the queue names subarrays that exist.
    predicate Ready(now: nat)
      reads this
    {
      && (forall i :: 0 <= i < |subs| ==> subs[i].now == now)
      && (forall i :: i in activeSubArrayQueue ==> i < |subs|)
    }

    method Activate(k: nat, req: Request, now: nat, cs: seq<Choice>) returns (ok: bool)
      requires NoWrap(p) && |cs| == |subs| && k < |subs| && Ready(now) && req.op == ACTIVATE
      modifies this
      ensures Attempt(ok, Model()) == Attempted(p, old(Model()), k, req, now, cs)
    {
      hide Act, IsIssuable, ClosedOneByOne, SubsAfter, Bursts;
      if regs.nextActivate > now || (state != BANK_CLOSED && activeSubArrayQueue == []) {
        ok := false;
        return;
      }
      regs := regs.(nextPowerDown := Max(regs.nextPowerDown, now + p.tRCD));
      ok := IssueToChild(k, req, cs);
      if ok {
        state := BANK_OPEN;
        activeSubArrayQueue := [k] + activeSubArrayQueue;
      }
    }

    method Read(k: nat, req: Request, now: nat, cs: seq<Choice>) returns (ok: bool)
      requires NoWrap(p) && |cs| == |subs| && k < |subs| && Ready(now) && IsRead(req.op)
      modifies this
      ensures Attempt(ok, Model()) == Attempted(p, old(Model()), k, req, now, cs)
    {
      hide Act, IsIssuable, ClosedOneByOne, SubsAfter, RegistersAfter;
      if regs.nextRead > now || state != BANK_OPEN {
        ok := false;
        return;
      }
      UpdateReadTiming(req, now);
      ok := IssueToChild(k, req, cs);
      if ok && req.op == READ_PRECHARGE {
        RemoveActive(k);
        if activeSubArrayQueue == [] {
          state := BANK_CLOSED;
        }
      }
    }

    method UpdateReadTiming(req: Request, now: nat)
      requires NoWrap(p) && IsRead(req.op)
      modifies this`regs
      ensures regs == RegistersAfter(p, old(Model()), req, now)
    {
      hide Bursts;
      var tail := Bursts(p, req.burst - 1);
      if req.op == READ_PRECHARGE {
        regs := regs.(nextPowerDown := Max(regs.nextPowerDown, now + tail + p.tAL + p.tRTP + p.tRP));
      } else {
        regs := regs.(nextPowerDown := Max(regs.nextPowerDown, tail + now + p.tRDPDEN));
      }
      regs := regs.(nextRead := Max(regs.nextRead, now + Bursts(p, req.burst)));
      regs := regs.(nextWrite := Max(regs.nextWrite, now + tail + p.tCAS + p.tBURST + p.tRTRS - p.tCWD));
    }

    method Write(k: nat, req: Request, now: nat, cs: seq<Choice>) returns (ok: bool)
      requires NoWrap(p) && |cs| == |subs| && k < |subs| && Ready(now) && IsWrite(req.op)
      modifies this
      ensures Attempt(ok, Model()) == Attempted(p, old(Model()), k, req, now, cs)
    {
      hide Act, IsIssuable, ClosedOneByOne, SubsAfter, RegistersAfter;
      if regs.nextWrite > now || state != BANK_OPEN {
        ok := false;
        return;
      }
      UpdateWriteTiming(req, now);
      ok := IssueToChild(k, req, cs);
      if ok && req.op == WRITE_PRECHARGE {
        RemoveActive(k);
        if activeSubArrayQueue == [] {
          state := BANK_CLOSED;
        }
      }
    }

    // With an implicit precharge the power-down register restarts from nextActivate.
    method UpdateWriteTiming(req: Request, now: nat)
      requires NoWrap(p) && IsWrite(req.op)
      modifies this`regs
      ensures regs == RegistersAfter(p, old(Model()), req, now)
    {
      hide Bursts;
      var tail := Bursts(p, req.burst - 1);
      if req.op == WRITE_PRECHARGE {
        regs := regs.(nextPowerDown :=
          Max(regs.nextActivate, now + tail + p.tAL + p.tCWD + p.tBURST + p.tWR + p.tRP));
      } else {
        regs := regs.(nextPowerDown := Max(regs.nextPowerDown, tail + now + p.tWRPDEN));
      }
      regs := regs.(nextRead := Max(regs.nextRead, now + tail + p.tCWD + p.tBURST + p.tWTR));
      regs := regs.(nextWrite := Max(regs.nextWrite, now + Bursts(p, req.burst)));
    }

    method Precharge(k: nat, req: Request, now: nat, cs: seq<Choice>) returns (ok: bool)
      requires NoWrap(p) && |cs| == |subs| && k < |subs| && Ready(now) && IsPrecharge(req.op)
      modifies this
      ensures Attempt(ok, Model()) == Attempted(p, old(Model()), k, req, now, cs)
    {
      hide Act, IsIssuable, ClosedOneByOne, SubsAfter, Bursts;
      if regs.nextPrecharge > now || (state != BANK_CLOSED && state != BANK_OPEN) {
        ok := false;
        return;
      }
      regs := regs.(nextPowerDown := Max(regs.nextPowerDown, now + p.tRP));
      if req.op == PRECHARGE {
        ok := IssueToChild(k, req, cs);
        if !ok { return; }
        RemoveActive(k);
      } else {
        ok := PrechargeAll(req, now, cs);
        if !ok { return; }
      }
      if activeSubArrayQueue == [] {
        state := BANK_CLOSED;
      }
      ok := true;
    }

    // Close the open subarrays one after the other, the latest first.
    method PrechargeAll(req: Request, now: nat, cs: seq<Choice>) returns (ok: bool)
      requires NoWrap(p) && |cs| == |subs| && Ready(now)
      modifies this`activeSubArrayQueue, this`subs
      ensures Closing(ok, activeSubArrayQueue, subs) ==
              ClosedOneByOne(p, old(activeSubArrayQueue), old(subs), req, now, cs)
      ensures ok ==> activeSubArrayQueue == []
    {
      hide Act, IsIssuable;
      while activeSubArrayQueue != []
        invariant |cs| == |subs| && Ready(now)
        invariant ClosedOneByOne(p, activeSubArrayQueue, subs, req, now, cs) ==
                  ClosedOneByOne(p, old(activeSubArrayQueue), old(subs), req, now, cs)
        decreases |activeSubArrayQueue|
      {
        var openedSubArray := activeSubArrayQueue[0];
        ghost var queue := activeSubArrayQueue;
        assert openedSubArray in queue && forall i :: i in queue[1..] ==> i in queue;
        ActKeepsClock(p, subs[openedSubArray], Command(req, cs[openedSubArray]));
        activeSubArrayQueue := activeSubArrayQueue[1..];
        var success := IssueToChild(openedSubArray, req, cs);
        if !success {
          ok := false;
          return;
        }
      }
      ok := true;
    }

    method Refresh(k: nat, req: Request, now: nat, cs: seq<Choice>) returns (ok: bool)
      requires NoWrap(p) && |cs| == |subs| && k < |subs| && Ready(now) && req.op == REFRESH
      modifies this
      ensures Attempt(ok, Model()) == Attempted(p, old(Model()), k, req, now, cs)
    {
      hide Act, IsIssuable, ClosedOneByOne, SubsAfter, Bursts;
      if regs.nextActivate > now {
        ok := false;
        return;
      }
      regs := regs.(nextPowerDown := Max(regs.nextPowerDown, now + p.tRFC));
      ok := IssueToChild(k, req, cs);
    }

    // An open bank may only be asked for active power-down: anything else fails an assertion.
    method PowerDown(req: Request, now: nat) returns (ok: bool)
      requires NoWrap(p) && IsPowerDown(req.op) && Ready(now)
      requires Sane(Model(), req.op, now) && state == BANK_OPEN ==> req.op == POWERDOWN_PDA
      modifies this`regs, this`state
      ensures forall k: nat, cs :: |cs| == |subs| && k < |subs| ==>
                Attempt(ok, Model()) == Attempted(p, old(Model()), k, req, now, cs)
      ensures ok == old(Sane(Model(), req.op, now))
    {
      ok := false;
      if regs.nextPowerDown <= now && (state == BANK_OPEN || state == BANK_CLOSED) {
        regs := regs.(nextPowerUp := Max(regs.nextPowerUp, now + p.tPD));
        if state == BANK_OPEN {
          assert req.op == POWERDOWN_PDA;
          state := BANK_PDA;
        } else {
          state := if req.op == POWERDOWN_PDPS then BANK_PDPS else BANK_PDPF;
        }
        ok := true;
      }
    }

    method PowerUp(req: Request, now: nat) returns (ok: bool)
      requires NoWrap(p) && req.op == POWERUP && Ready(now)
      modifies this`regs, this`state
      ensures forall k: nat, cs :: |cs| == |subs| && k < |subs| ==>
                Attempt(ok, Model()) == Attempted(p, old(Model()), k, req, now, cs)
      ensures ok == old(Sane(Model(), req.op, now))
    {
      ok := false;
      if regs.nextPowerUp <= now && PoweredDown(state) {
        regs := regs.(nextPowerDown := Max(regs.nextPowerDown, now + p.tXP));
        regs := regs.(nextActivate := Max(regs.nextActivate, now + p.tXP));
        regs := regs.(nextPrecharge := Max(regs.nextPrecharge, now + p.tXP));
        regs := regs.(nextWrite := Max(regs.nextWrite, now + p.tXP));
        if state == BANK_PDPS {
          regs := regs.(nextRead := Max(regs.nextRead, now + p.tXPDLL));
        } else {
          regs := regs.(nextRead := Max(regs.nextRead, now + p.tXP));
        }
        state := if state == BANK_PDA then BANK_OPEN else BANK_CLOSED;
        ok := true;
      }
    }

    // A command the bank says it can take is taken by the bank and by every subarray it concerns.
    method IssueCommand(k: nat, req: Request, now: nat, cs: seq<Choice>) returns (ok: bool)
      requires NoWrap(p) && p.tRP >= 1 && p.usePrecharge && !p.writePausing && Agrees(p, Model(), now)
      requires |cs| == |subs| && k < |subs| && (ToSubArray(req.op) || IsPowerDown(req.op) || req.op == POWERUP)
      modifies this
      ensures ok <==> BankIssuable(p, old(Model()), k, req, now)
      ensures Model() == if ok then BankIssued(p, old(Model()), k, req, now, cs) else old(Model())
      ensures Agrees(p, Model(), now)
    {
      hide BankIssuable, Attempted, BankIssued;
      ok := false;
      if BankIssuable(p, Model(), k, req, now) {
        IssuedAgrees(p, Model(), k, req, now, cs);
        IssuableIsTaken(p, Model(), k, req, now, cs);
        if req.op == ACTIVATE {
          ok := Activate(k, req, now, cs);
        } else if IsRead(req.op) {
          ok := Read(k, req, now, cs);
        } else if IsWrite(req.op) {
          ok := Write(k, req, now, cs);
        } else if IsPrecharge(req.op) {
          ok := Precharge(k, req, now, cs);
        } else if req.op == REFRESH {
          ok := Refresh(k, req, now, cs);
        } else if req.op == POWERUP {
          ok := PowerUp(req, now);
        } else {
          ok := PowerDown(req, now);
        }
      }
    }
  }
}
