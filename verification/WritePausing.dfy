/**
  Forward progress of writes when reads and activations may cancel or pause them.  The machine is the
  subarray; around it, the pool holds the write requests that wait with the controller.
*/
module WritePausing {
  import opened Device
  import opened SubArrays

  datatype World = World(machine: Machine, pool: set<Request>)

  datatype Step =
    // A write arrives with no history.
    | Arrive(req: Request)
    // The controller touches a waiting write: it may change the command and force the write.
    | Edit(req: Request, op: Op, force: bool)
    // The subarray acts; a write command takes its request out of the pool.
    | Sub(action: Action)

  function Next(p: Timing, w: World, s: Step): World
    requires NoWrap(p)
  {
    match s
    case Arrive(r) =>
      if IsWrite(r.op) && r.cancellations == 0 && !r.cancelled && !r.paused then w.(pool := w.pool + {r}) else w
    case Edit(r, op, force) =>
      if r in w.pool && IsWrite(op) then
        w.(pool := w.pool - {r} + {r.(op := op, forced := r.forced || force)})
      else w
    case Sub(a) =>
      var m' := Act(p, w.machine, a);
      match a
      case Command(req, _) =>
        if !IsWrite(req.op) then w.(machine := m')
        else if req !in w.pool || !IsIssuable(p, w.machine.sub, req, w.machine.now) then w
        else World(m', w.pool - {req})
      case FireReply(k) =>
        // A cancelled or paused write goes back to the head of the queue.
        if k < |w.machine.replies| && w.machine.replies[k].at == w.machine.now
           && w.machine.replies[k].what.WriteDone?
           && (w.machine.replies[k].what.req.cancelled || w.machine.replies[k].what.req.paused)
        then World(m', w.pool + {w.machine.replies[k].what.req})
        else w.(machine := m')
      case _ => w.(machine := m')
  }

  function After(p: Timing, steps: seq<Step>): World
    requires NoWrap(p)
  {
    if steps == [] then World(Machine(FRESH, 0, [], [], []), {})
    else Next(p, After(p, steps[..|steps| - 1]), steps[|steps| - 1])
  }

  function Limit(p: Timing): nat { Max(1, p.maxCancellations) }

  // Cancelled at most `Limit` times, and out of reach of a cancellation once the limit is met.
  predicate Bounded(p: Timing, r: Request) {
    r.cancellations <= Limit(p) && (r.cancellations == Limit(p) ==> r.forced)
  }

  ghost predicate AllBounded(p: Timing, w: World) {
    && (forall r :: r in w.pool ==> Bounded(p, r))
    && Bounded(p, w.machine.sub.writeRequest)
    && (forall e :: e in w.machine.replies && e.what.WriteDone? ==> Bounded(p, e.what.req))
  }

  lemma MinusSubset<T>(events: seq<At<T>>, dropped: seq<At<T>>)
    ensures forall e :: e in Minus(events, dropped) ==> e in events
  {
  }

  lemma IssuedBounded(p: Timing, s: Sub, req: Request, now: nat, c: Choice)
    requires NoWrap(p) && Bounded(p, s.writeRequest) && IsIssuable(p, s, req, now)
    requires IsWrite(req.op) ==> Bounded(p, req)
    ensures Bounded(p, Issued(p, s, req, now, c).sub.writeRequest)
    ensures forall e :: e in Issued(p, s, req, now, c).events.replies && e.what.WriteDone? ==> Bounded(p, e.what.req)
  {
  }

  lemma ActBounded(p: Timing, m: Machine, a: Action)
    requires NoWrap(p) && Bounded(p, m.sub.writeRequest)
    requires forall e :: e in m.replies && e.what.WriteDone? ==> Bounded(p, e.what.req)
    requires a.Command? && IsWrite(a.req.op) ==> Bounded(p, a.req)
    ensures Bounded(p, Act(p, m, a).sub.writeRequest)
    ensures forall e :: e in Act(p, m, a).replies && e.what.WriteDone? ==> Bounded(p, e.what.req)
  {
    hide Issued;
    if a.Command? && IsIssuable(p, m.sub, a.req, m.now) {
      IssuedBounded(p, m.sub, a.req, m.now, a.choice);
      MinusSubset(m.replies, Issued(p, m.sub, a.req, m.now, a.choice).events.dropped);
    }
  }

  lemma NextBounded(p: Timing, w: World, s: Step)
    requires NoWrap(p) && AllBounded(p, w)
    ensures AllBounded(p, Next(p, w, s))
  {
    if s.Sub? && (s.action.Command? && IsWrite(s.action.req.op) ==> s.action.req in w.pool) {
      ActBounded(p, w.machine, s.action);
    }
  }

  // No write is cancelled more often than the limit, wherever it is.
  lemma {:induction false} CancellationsBounded(p: Timing, steps: seq<Step>)
    requires NoWrap(p)
    ensures AllBounded(p, After(p, steps))
  {
    if steps != [] {
      CancellationsBounded(p, steps[..|steps| - 1]);
      NextBounded(p, After(p, steps[..|steps| - 1]), steps[|steps| - 1]);
    }
  }

  // ----- Forced writes -----

  // Every write command in the run carries the FORCED flag.
  predicate AllForced(steps: seq<Step>) {
    forall i :: 0 <= i < |steps| && steps[i].Sub? && steps[i].action.Command? && IsWrite(steps[i].action.req.op)
      ==> steps[i].action.req.forced
  }

  ghost predicate Undisturbed(m: Machine) {
    && (m.sub.isWriting ==> m.sub.writeRequest.forced)
    && (forall e :: e in m.replies && e.what.WriteDone? ==> !e.what.req.cancelled && !e.what.req.paused)
  }

  lemma IssuedUndisturbed(p: Timing, s: Sub, req: Request, now: nat, c: Choice)
    requires NoWrap(p) && IsIssuable(p, s, req, now)
    requires (s.isWriting ==> s.writeRequest.forced) && (IsWrite(req.op) ==> req.forced)
    ensures var o := Issued(p, s, req, now, c);
      && (o.sub.isWriting ==> o.sub.writeRequest.forced)
      && forall e :: e in o.events.replies && e.what.WriteDone? ==> !e.what.req.cancelled && !e.what.req.paused
  {
  }

  lemma ForcedActUndisturbed(p: Timing, m: Machine, a: Action)
    requires NoWrap(p) && Undisturbed(m) && (a.Command? && IsWrite(a.req.op) ==> a.req.forced)
    ensures Undisturbed(Act(p, m, a))
  {
    hide Issued;
    if a.Command? && IsIssuable(p, m.sub, a.req, m.now) {
      IssuedUndisturbed(p, m.sub, a.req, m.now, a.choice);
      MinusSubset(m.replies, Issued(p, m.sub, a.req, m.now, a.choice).events.dropped);
    }
  }

  lemma ForcedNextUndisturbed(p: Timing, w: World, s: Step)
    requires NoWrap(p) && Undisturbed(w.machine) && AllForced([s])
    ensures Undisturbed(Next(p, w, s).machine)
  {
    hide Act;
    assert s == [s][0];
    if s.Sub? {
      ForcedActUndisturbed(p, w.machine, s.action);
    }
  }

  // If only forced writes are issued, every write completes uncancelled and unpaused.
  lemma {:induction false} ForcedWritesComplete(p: Timing, steps: seq<Step>)
    requires NoWrap(p) && AllForced(steps)
    ensures Undisturbed(After(p, steps).machine)
  {
    if steps != [] {
      assert forall i :: 0 <= i < |steps| - 1 ==> steps[..|steps| - 1][i] == steps[i];
      ForcedWritesComplete(p, steps[..|steps| - 1]);
      ForcedNextUndisturbed(p, After(p, steps[..|steps| - 1]), steps[|steps| - 1]);
    }
  }
}
