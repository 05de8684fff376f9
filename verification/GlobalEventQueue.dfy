/**
  Several event queues, each in its own clock domain, driven by one global clock.  A queue at frequency f
  under a global frequency F has the ratio m = F / f, at least one, and its cycle n falls in global cycle
  floor(n * m).
*/
module GlobalEventQueues {
  import opened EventQueues

  // A subsystem: its handler, its queue and world, and its clock ratio.
  datatype Domain<!W, !B> = Domain(handler: Handler<W, B>, sim: Sim<W, B>, frequency: real)

  function Ratio(global: real, local: real): (m: real)
    requires 0.0 < local <= global
    ensures m >= 1.0 && m * local == global
  {
    global / local
  }

  ghost predicate DomainOk<W(!new), B(!new)>(d: Domain<W, B>, global: real) {
    0.0 < d.frequency <= global && Ready(d.handler, d.sim)
  }

  function Next<W, B>(d: Domain<W, B>): nat { d.sim.queue.next }
  function Clock<W, B>(d: Domain<W, B>): nat { d.sim.queue.current }

  // The global cycle of local cycle n.
  function ToGlobal(n: nat, m: real): (g: nat)
    requires m >= 1.0
    ensures g as real <= n as real * m < g as real + 1.0
    ensures g >= n
  {
    var x := n as real * m;
    ScaleUp(n as real, m);
    x.Floor
  }

  // The local cycle reached at global cycle g.
  function ToLocal(g: nat, m: real): (n: nat)
    requires m >= 1.0
    ensures n as real <= g as real / m < n as real + 1.0
    ensures n <= g
  {
    ScaleDown(g as real, m);
    (g as real / m).Floor
  }

  lemma MulMonotone(x: real, y: real, m: real)
    requires x <= y && m >= 0.0
    ensures x * m <= y * m
  {
    assert (y - x) * m >= 0.0;
    assert (y - x) * m == y * m - x * m;
  }

  lemma MulStrict(x: real, y: real, m: real)
    requires x < y && m > 0.0
    ensures x * m < y * m
  {
    assert (y - x) * m > 0.0;
    assert (y - x) * m == y * m - x * m;
  }

  lemma MulReflects(x: real, y: real, m: real)
    requires m > 0.0
    ensures x * m < y * m ==> x < y
    ensures x * m <= y * m ==> x <= y
  {
    if x >= y { MulMonotone(y, x, m); }
    if x > y { MulStrict(y, x, m); }
  }

  lemma ScaleUp(x: real, m: real)
    requires x >= 0.0 && m >= 1.0
    ensures x * m >= x
  {
    MulMonotone(1.0, m, x);
  }

  lemma ScaleDown(x: real, m: real)
    requires x >= 0.0 && m >= 1.0
    ensures 0.0 <= x / m <= x
  {
    var y := x / m;
    assert y * m == x;
    MulReflects(0.0, y, m);
    ScaleUp(y, m);
  }

  // The skew bound: no local clock is behind the global one, or more than one local cycle ahead of it.
  predicate InStep(clock: nat, g: nat, m: real)
    requires m >= 1.0
  {
    ToLocal(g, m) <= clock <= ToLocal(g, m) + 1
  }

  // A local cycle that falls at or before global cycle g is at most one past the cycle reached at g.
  lemma DueCycleInStep(n: nat, g: nat, m: real)
    requires m >= 1.0 && ToGlobal(n, m) <= g
    ensures n <= ToLocal(g, m) + 1
  {
    QuotientBound(n as real, g as real, m);
    assert n as real < g as real / m + 1.0 < ToLocal(g, m) as real + 2.0;
  }

  lemma QuotientBound(x: real, g: real, m: real)
    requires m >= 1.0 && x * m < g + 1.0
    ensures x < g / m + 1.0
  {
    var q := g / m;
    assert q * m == g;
    assert (q + 1.0) * m == q * m + m;
    MulReflects(x, q + 1.0, m);
  }

  lemma QuotientMonotone(a: real, b: real, m: real)
    requires m > 0.0 && a <= b
    ensures a / m <= b / m
  {
    var x, y := a / m, b / m;
    assert x * m == a && y * m == b;
    MulReflects(x, y, m);
  }

  lemma ToLocalMonotone(g: nat, g': nat, m: real)
    requires m >= 1.0 && g <= g'
    ensures ToLocal(g, m) <= ToLocal(g', m)
  {
    QuotientMonotone(g as real, g' as real, m);
    assert ToLocal(g, m) as real <= g as real / m <= g' as real / m < ToLocal(g', m) as real + 1.0;
  }

  lemma ToGlobalMonotone(n: nat, n': nat, m: real)
    requires m >= 1.0 && n <= n'
    ensures ToGlobal(n, m) <= ToGlobal(n', m)
  {
    hide ToGlobal;
    MulMonotone(n as real, n' as real, m);
    var x, y := n as real * m, n' as real * m;
    assert ToGlobal(n, m) as real <= x <= y < ToGlobal(n', m) as real + 1.0;
  }

  // ----- One domain -----

  function Due<W, B>(d: Domain<W, B>, global: real): nat
    requires 0.0 < d.frequency <= global
  {
    if Next(d) == MAX_CYCLE then MAX_CYCLE else ToGlobal(Next(d), Ratio(global, d.frequency))
  }

  function Looped<W(!new), B(==, !new)>(d: Domain<W, B>, steps: nat): Domain<W, B>
    requires Ready(d.handler, d.sim) && Clock(d) + steps < MAX_CYCLE
  {
    d.(sim := Advanced(d.handler, d.sim, steps))
  }

  function Synced<W(!new), B(==, !new)>(d: Domain<W, B>, g: nat, global: real): Domain<W, B>
    requires DomainOk(d, global) && g < MAX_CYCLE
  {
    var local := ToLocal(g, Ratio(global, d.frequency));
    if local > Clock(d) then Looped(d, local - Clock(d)) else d
  }

  // A domain was either left alone or brought to its new clock by its own loop.
  ghost predicate RanAlone<W(!new), B(!new)>(d: Domain<W, B>, d': Domain<W, B>) {
    && d'.handler == d.handler && d'.frequency == d.frequency
    && Ready(d.handler, d.sim)
    && (d' == d || (Clock(d) <= Clock(d') < MAX_CYCLE && d' == Looped(d, Clock(d') - Clock(d))))
  }

  lemma LoopedAgain<W(!new), B(!new)>(d: Domain<W, B>, d': Domain<W, B>, steps: nat)
    requires RanAlone(d, d') && Ready(d'.handler, d'.sim) && Clock(d') + steps < MAX_CYCLE
    ensures RanAlone(d, Looped(d', steps))
  {
    if d' != d {
      AdvanceTwice(d.handler, d.sim, Clock(d') - Clock(d), steps);
    }
  }

  // Never ahead by more than one local cycle; the half of `InStep` that holds at all times.
  predicate NotAhead<W, B>(d: Domain<W, B>, g: nat, global: real)
    requires 0.0 < d.frequency <= global
  {
    Clock(d) <= ToLocal(g, Ratio(global, d.frequency)) + 1
  }

  lemma SyncedInStep<W(!new), B(!new)>(d0: Domain<W, B>, d: Domain<W, B>, g: nat, global: real)
    requires DomainOk(d, global) && RanAlone(d0, d) && NotAhead(d, g, global) && g < MAX_CYCLE
    ensures DomainOk(Synced(d, g, global), global) && RanAlone(d0, Synced(d, g, global))
    ensures InStep(Clock(Synced(d, g, global)), g, Ratio(global, d.frequency))
    ensures Next(Synced(d, g, global)) >= Next(d)
    ensures Synced(d, g, global).frequency == d.frequency
  {
    var local := ToLocal(g, Ratio(global, d.frequency));
    if local > Clock(d) {
      LoopedAgain(d0, d, local - Clock(d));
    }
  }

  lemma LoopedToEvent<W(!new), B(!new)>(d0: Domain<W, B>, d: Domain<W, B>, g: nat, global: real)
    requires DomainOk(d, global) && RanAlone(d0, d) && Due(d, global) <= g < MAX_CYCLE
    ensures Clock(d) <= Next(d) < MAX_CYCLE
    ensures var e := Looped(d, Next(d) - Clock(d));
      DomainOk(e, global) && RanAlone(d0, e) && NotAhead(e, g, global) && Next(e) > Next(d) && Next(d) <= g
  {
    LoopedAgain(d0, d, Next(d) - Clock(d));
    DueCycleInStep(Next(d), g, Ratio(global, d.frequency));
  }

  lemma DueMonotone<W, B>(d: Domain<W, B>, e: Domain<W, B>, global: real)
    requires 0.0 < d.frequency <= global && e.frequency == d.frequency && Next(d) <= Next(e)
    ensures Due(e, global) >= Due(d, global) || Due(e, global) == MAX_CYCLE
  {
    ToGlobalMonotone(Next(d), Next(e), Ratio(global, d.frequency));
    hide ToGlobal, Ratio;
  }

  lemma NotAheadLater<W, B>(d: Domain<W, B>, g: nat, g': nat, global: real)
    requires 0.0 < d.frequency <= global && NotAhead(d, g, global) && g <= g'
    ensures NotAhead(d, g', global)
  {
    ToLocalMonotone(g, g', Ratio(global, d.frequency));
  }

  // Cycles a domain still has to its next event's horizon T; the sum bounds the events left to deliver.
  function Left<W, B>(d: Domain<W, B>, T: nat): nat {
    if Next(d) > T then 0 else T + 1 - Next(d)
  }

  function Work<W, B>(ds: seq<Domain<W, B>>, T: nat): nat {
    if ds == [] then 0 else Left(ds[0], T) + Work(ds[1..], T)
  }

  lemma WorkMonotone<W, B>(ds: seq<Domain<W, B>>, ds': seq<Domain<W, B>>, T: nat)
    requires |ds| == |ds'| && forall i :: 0 <= i < |ds| ==> Left(ds'[i], T) <= Left(ds[i], T)
    ensures Work(ds', T) <= Work(ds, T)
    ensures (exists i :: 0 <= i < |ds| && Left(ds'[i], T) < Left(ds[i], T)) ==> Work(ds', T) < Work(ds, T)
  {
    if ds != [] {
      assert forall i :: 0 <= i < |ds| - 1 ==> ds[1..][i] == ds[i + 1] && ds'[1..][i] == ds'[i + 1];
      WorkMonotone(ds[1..], ds'[1..], T);
      if i :| 0 <= i < |ds| && Left(ds'[i], T) < Left(ds[i], T) && i > 0 {
        assert Left(ds'[1..][i - 1], T) < Left(ds[1..][i - 1], T);
      }
    }
  }

  // ----- All domains -----

  ghost predicate AllOk<W(!new), B(!new)>(ds: seq<Domain<W, B>>, g: nat, global: real) {
    forall i :: 0 <= i < |ds| ==> DomainOk(ds[i], global) && NotAhead(ds[i], g, global)
  }

  ghost predicate AllRan<W(!new), B(!new)>(start: seq<Domain<W, B>>, ds: seq<Domain<W, B>>) {
    |start| == |ds| && forall i :: 0 <= i < |ds| ==> RanAlone(start[i], ds[i])
  }

  ghost predicate AllInStep<W(!new), B(!new)>(ds: seq<Domain<W, B>>, g: nat, global: real) {
    forall i :: 0 <= i < |ds| ==>
      DomainOk(ds[i], global) && InStep(Clock(ds[i]), g, Ratio(global, ds[i].frequency))
  }

  ghost predicate NothingDue<W(!new), B(!new)>(ds: seq<Domain<W, B>>, g: nat, global: real) {
    forall i :: 0 <= i < |ds| ==> DomainOk(ds[i], global) && Due(ds[i], global) > g
  }

  ghost predicate SyncedAll<W(!new), B(!new)>(ds: seq<Domain<W, B>>, ds': seq<Domain<W, B>>, g: nat, global: real)
    requires g < MAX_CYCLE
  {
    |ds| == |ds'|
    && forall i :: 0 <= i < |ds| ==> DomainOk(ds[i], global) && ds'[i] == Synced(ds[i], g, global)
  }

  lemma LoopOne<W(!new), B(!new)>(start: seq<Domain<W, B>>, ds: seq<Domain<W, B>>, k: nat, g: nat, g': nat,
                                  global: real, T: nat)
    requires AllOk(ds, g, global) && AllRan(start, ds) && k < |ds|
    requires g <= g' <= T < MAX_CYCLE && Due(ds[k], global) <= g'
    ensures Ready(ds[k].handler, ds[k].sim) && Clock(ds[k]) <= Next(ds[k]) < MAX_CYCLE
    ensures var ds' := ds[k := Looped(ds[k], Next(ds[k]) - Clock(ds[k]))];
      AllOk(ds', g', global) && AllRan(start, ds') && Work(ds', T) < Work(ds, T)
  {
    LoopedToEvent(start[k], ds[k], g', global);
    var ds' := ds[k := Looped(ds[k], Next(ds[k]) - Clock(ds[k]))];
    assert Left(ds'[k], T) < Left(ds[k], T);
    WorkMonotone(ds, ds', T);
    forall i | 0 <= i < |ds'| && i != k ensures NotAhead(ds'[i], g', global) {
      NotAheadLater(ds[i], g, g', global);
    }
  }

  lemma SyncAllKeeps<W(!new), B(!new)>(start: seq<Domain<W, B>>, ds: seq<Domain<W, B>>, ds': seq<Domain<W, B>>,
                                       g: nat, global: real, T: nat)
    requires AllOk(ds, g, global) && AllRan(start, ds) && g < MAX_CYCLE && SyncedAll(ds, ds', g, global)
    ensures AllOk(ds', g, global) && AllRan(start, ds') && AllInStep(ds', g, global)
    ensures Work(ds', T) <= Work(ds, T)
    ensures NothingDue(ds, g, global) ==> NothingDue(ds', g, global)
  {
    forall i | 0 <= i < |ds|
      ensures DomainOk(ds'[i], global) && RanAlone(start[i], ds'[i]) && Left(ds'[i], T) <= Left(ds[i], T)
      ensures InStep(Clock(ds'[i]), g, Ratio(global, ds'[i].frequency)) && NotAhead(ds'[i], g, global)
      ensures Due(ds[i], global) > g ==> Due(ds'[i], global) > g
    {
      SyncedInStep(start[i], ds[i], g, global);
      DueMonotone(ds[i], ds'[i], global);
    }
    WorkMonotone(ds, ds', T);
  }

  lemma AllOkLater<W(!new), B(!new)>(ds: seq<Domain<W, B>>, g: nat, g': nat, global: real)
    requires AllOk(ds, g, global) && g <= g'
    ensures AllOk(ds, g', global)
  {
    forall i | 0 <= i < |ds| ensures NotAhead(ds[i], g', global) {
      NotAheadLater(ds[i], g, g', global);
    }
  }

  // ----- The global queue -----

  class GlobalEventQueue<W(!new), B(==, !new)> {
    var domains: seq<Domain<W, B>>
    var frequency: real
    var currentCycle: nat

    ghost predicate Valid()
      reads this
    {
      AllOk(domains, currentCycle, frequency)
    }

    constructor (freq: real)
      ensures Valid() && domains == [] && frequency == freq && currentCycle == 0
    {
      domains := [];
      frequency := freq;
      currentCycle := 0;
    }

    // A subsystem joins with its own clock at zero.
    method AddSystem(d: Domain<W, B>)
      requires Valid() && DomainOk(d, frequency) && Clock(d) == 0
      modifies this`domains
      ensures Valid() && domains == old(domains) + [d]
    {
      domains := domains + [d];
    }

    // The earliest global cycle with an event due, and the first queue that has it.
    method GetNextEvent() returns (cycle: nat, which: nat)
      requires Valid()
      ensures which <= |domains|
      ensures which == |domains| ==> cycle == MAX_CYCLE
      ensures which < |domains| ==> cycle == Due(domains[which], frequency) < MAX_CYCLE
      ensures forall i :: 0 <= i < |domains| ==> cycle <= Due(domains[i], frequency)
      ensures forall i :: 0 <= i < which < |domains| ==> cycle < Due(domains[i], frequency)
    {
      cycle, which := MAX_CYCLE, |domains|;
      for k := 0 to |domains|
        invariant which == |domains| ==> cycle == MAX_CYCLE
        invariant which < |domains| ==> which < k && cycle == Due(domains[which], frequency) < MAX_CYCLE
        invariant which <= |domains|
        invariant forall i :: 0 <= i < k ==> cycle <= Due(domains[i], frequency)
        invariant forall i :: 0 <= i < which < |domains| ==> cycle < Due(domains[i], frequency)
      {
        if Next(domains[k]) != MAX_CYCLE {
          var globalEventCycle := ToGlobal(Next(domains[k]), Ratio(frequency, domains[k].frequency));
          if globalEventCycle < cycle {
            cycle, which := globalEventCycle, k;
          }
        }
      }
    }

    // Bring every local clock that is behind up to the global one.
    method Sync()
      requires Valid() && currentCycle < MAX_CYCLE
      modifies this`domains
      ensures SyncedAll(old(domains), domains, currentCycle, frequency)
    {
      for k := 0 to |domains|
        invariant |domains| == old(|domains|)
        invariant forall i :: 0 <= i < k ==> domains[i] == Synced(old(domains[i]), currentCycle, frequency)
        invariant forall i :: k <= i < |domains| ==> domains[i] == old(domains[i])
      {
        var setCycle := ToLocal(currentCycle, Ratio(frequency, domains[k].frequency));
        if setCycle > Clock(domains[k]) {
          domains := domains[k := Looped(domains[k], setCycle - Clock(domains[k]))];
        }
      }
    }

    // After any call the global clock has moved by exactly `steps`, every local clock is in step, nothing
    // due has been missed, and each domain is where its own loop alone would have taken it.
    method Cycle(steps: nat)
      requires Valid() && currentCycle + steps < MAX_CYCLE
      modifies this
      ensures Valid() && frequency == old(frequency)
      ensures currentCycle == old(currentCycle) + steps
      ensures AllInStep(domains, currentCycle, frequency)
      ensures NothingDue(domains, currentCycle, frequency)
      ensures AllRan(old(domains), domains)
    {
      var iterationSteps: nat := 0;
      ghost var T := currentCycle + steps;
      while iterationSteps <= steps
        invariant iterationSteps <= steps && currentCycle + (steps - iterationSteps) == T
        invariant frequency == old(frequency) && Valid() && AllRan(old(domains), domains)
        decreases Work(domains, T)
      {
        var nextEvent, which := GetNextEvent();
        var globalQueueSteps := if nextEvent > currentCycle then nextEvent - currentCycle else 0;
        if globalQueueSteps > steps - iterationSteps {
          Finish(steps - iterationSteps, old(domains));
          return;
        }
        RunNext(which, globalQueueSteps, old(domains), T);
        iterationSteps := iterationSteps + globalQueueSteps;
      }
    }

    // Deliver what is due on queue `which`, move the global clock there and synchronise.
    method RunNext(which: nat, globalQueueSteps: nat, ghost start: seq<Domain<W, B>>, ghost T: nat)
      requires Valid() && AllRan(start, domains) && which < |domains|
      requires currentCycle + globalQueueSteps <= T < MAX_CYCLE
      requires Due(domains[which], frequency) <= currentCycle + globalQueueSteps
      modifies this`domains, this`currentCycle
      ensures Valid() && AllRan(start, domains)
      ensures currentCycle == old(currentCycle) + globalQueueSteps
      ensures Work(domains, T) < old(Work(domains, T))
    {
      hide Looped, AllRan, SyncedAll, Work;
      LoopOne(start, domains, which, currentCycle, currentCycle + globalQueueSteps, frequency, T);
      var localQueueSteps := Next(domains[which]) - Clock(domains[which]);
      domains := domains[which := Looped(domains[which], localQueueSteps)];
      currentCycle := currentCycle + globalQueueSteps;
      ghost var looped := domains;
      Sync();
      SyncAllKeeps(start, looped, domains, currentCycle, frequency, T);
    }

    // Nothing more is due in this call: move the global clock to its end and synchronise.
    method Finish(rest: nat, ghost start: seq<Domain<W, B>>)
      requires Valid() && AllRan(start, domains) && currentCycle + rest < MAX_CYCLE
      requires NothingDue(domains, currentCycle + rest, frequency)
      modifies this`domains, this`currentCycle
      ensures Valid() && AllRan(start, domains)
      ensures currentCycle == old(currentCycle) + rest
      ensures AllInStep(domains, currentCycle, frequency) && NothingDue(domains, currentCycle, frequency)
    {
      ghost var g, before := currentCycle, domains;
      currentCycle := currentCycle + rest;
      AllOkLater(domains, g, currentCycle, frequency);
      Sync();
      SyncAllKeeps(start, before, domains, currentCycle, frequency, currentCycle);
    }
  }
}
