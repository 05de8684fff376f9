/**
  The event queue of one clock domain: a map from cycles to event lists, the cached least key, and
  the two loops that drive it.  `Loop` advances one cycle; `LoopFor` jumps from event to event.

  Event handlers are values: a handler sees the world, the queue and the event, and answers with a new
  world and a list of queue effects.  The theorems hold for every handler that inserts and removes only
  at cycles strictly after the one being processed.
*/
module EventQueues {
  import opened Sequences

  // The largest 64-bit cycle count stands for "no event".
  const MAX_CYCLE: nat := 0xFFFF_FFFF_FFFF_FFFF

  // `priority` is the priority stored in the event, which an insertion need not agree with.
  datatype Event<B> = Event(id: nat, priority: int, body: B)

  datatype Queue<B> = Queue(events: map<nat, seq<Event<B>>>, next: nat, last: nat, current: nat)

  datatype Effect<B> =
    | Insert(event: Event<B>, when: nat, priority: int)
    | Remove(event: Event<B>, when: nat)

  datatype Reaction<W, B> = Reaction(world: W, effects: seq<Effect<B>>)

  datatype Sim<W, B> = Sim(queue: Queue<B>, world: W)

  type Handler<!W, !B> = (W, Queue<B>, Event<B>) -> Reaction<W, B>

  ghost predicate Later<B>(effects: seq<Effect<B>>, now: nat) {
    forall f :: f in effects ==> now < f.when < MAX_CYCLE
  }

  ghost predicate Strict<W(!new), B(!new)>(h: Handler<W, B>) {
    forall w, q, e :: Later(h(w, q, e).effects, q.next)
  }

  lemma LeastExists(s: set<nat>, x: nat)
    requires x in s
    ensures exists k :: k in s && forall j :: j in s ==> k <= j
    decreases x
  {
    if y :| y in s && y < x {
      LeastExists(s, y);
    }
  }

  function Least(s: set<nat>): (k: nat)
    requires s != {}
    ensures k in s && forall j :: j in s ==> k <= j
  {
    var x :| x in s;
    LeastExists(s, x);
    var k :| k in s && forall j :: j in s ==> k <= j;
    k
  }

  function NextKey<B>(events: map<nat, seq<Event<B>>>): nat {
    if events.Keys == {} then MAX_CYCLE else Least(events.Keys)
  }

  // The cached next cycle is exact and never behind the clock, and no list is empty.
  ghost predicate WellFormed<B>(q: Queue<B>) {
    && q.next == NextKey(q.events)
    && q.current <= q.next
    && forall k :: k in q.events ==> k < MAX_CYCLE && q.events[k] != []
  }

  // ----- Insertion and removal -----

  // Where an event of the given priority goes: before the first stored priority that is larger.
  function Position<B>(list: seq<Event<B>>, priority: int): (i: nat)
    ensures i <= |list|
    ensures forall j :: 0 <= j < i ==> list[j].priority <= priority
    ensures i < |list| ==> list[i].priority > priority
  {
    if list == [] || list[0].priority > priority then 0 else 1 + Position(list[1..], priority)
  }

  lemma PositionIsFirst<B>(list: seq<Event<B>>, priority: int, i: nat)
    requires i <= |list|
    requires forall j :: 0 <= j < i ==> list[j].priority <= priority
    requires i < |list| ==> list[i].priority > priority
    ensures i == Position(list, priority)
  {
  }

  function Spliced<B>(list: seq<Event<B>>, e: Event<B>, priority: int): seq<Event<B>> {
    var i := Position(list, priority);
    list[..i] + [e] + list[i..]
  }

  lemma SplicedSize<B>(list: seq<Event<B>>, e: Event<B>, priority: int)
    ensures |Spliced(list, e, priority)| == |list| + 1
    ensures Spliced(list, e, priority)[Position(list, priority)] == e
  {
    hide Position;
  }

  lemma SplicedAt<B>(list: seq<Event<B>>, e: Event<B>, priority: int, m: nat)
    requires m <= |list| && |Spliced(list, e, priority)| == |list| + 1
    ensures var i := Position(list, priority);
      Spliced(list, e, priority)[m] == if m < i then list[m] else if m == i then e else list[m - 1]
  {
    hide Position;
  }

  ghost predicate SortedByPriority<B>(list: seq<Event<B>>) {
    forall i, j :: 0 <= i < j < |list| ==> list[i].priority <= list[j].priority
  }

  // The priority stored in the event fits where the priority given for the insertion puts it.
  predicate Fits<B>(list: seq<Event<B>>, e: Event<B>, i: nat)
    requires i <= |list|
  {
    (i > 0 ==> list[i - 1].priority <= e.priority) && (i < |list| ==> e.priority <= list[i].priority)
  }

  // A list sorted by stored priority stays so exactly when the stored priority of the new event lies between
  // its neighbours'; when it is the priority given for the insertion it always does.
  lemma SortedIff<B>(list: seq<Event<B>>, e: Event<B>, priority: int)
    requires SortedByPriority(list)
    ensures SortedByPriority(Spliced(list, e, priority)) <==> Fits(list, e, Position(list, priority))
    ensures e.priority == priority ==> SortedByPriority(Spliced(list, e, priority))
  {
    var i := Position(list, priority);
    var r := Spliced(list, e, priority);
    SplicedSize(list, e, priority);
    hide Spliced, Position;
    if i > 0 {
      SplicedAt(list, e, priority, i - 1);
    }
    if i < |list| {
      SplicedAt(list, e, priority, i + 1);
    }
    if Fits(list, e, i) {
      forall a, b | 0 <= a < b < |r| ensures r[a].priority <= r[b].priority {
        SplicedAt(list, e, priority, a);
        SplicedAt(list, e, priority, b);
      }
    }
  }

  // It need not: a refresh callback stores its priority, 20, and an event that is inserted after it at 30
  // through an overload that does not store the priority keeps 0.
  lemma InsertionUnsorts<B>(body: B, body': B)
    ensures var refresh := Event(1, 20, body); var wake := Event(2, 0, body');
      && SortedByPriority([refresh]) && Spliced([refresh], wake, 30) == [refresh, wake]
      && !SortedByPriority([refresh, wake])
  {
    var list := [Event(1, 20, body), Event(2, 0, body')];
    assert Position([list[0]], 30) == 1 by {
      assert [list[0]][1..] == [];
    }
    assert list[0].priority > list[1].priority;
  }

  function Inserted<B>(q: Queue<B>, e: Event<B>, when: nat, priority: int): Queue<B> {
    q.(next := if when < q.next then when else q.next,
       events := q.events[when := if when in q.events then Spliced(q.events[when], e, priority) else [e]])
  }

  function Removed<B(==)>(q: Queue<B>, e: Event<B>, when: nat): Queue<B> {
    if when !in q.events then q
    else
      var rest := Without(q.events[when], e);
      var events :=
        if e !in q.events[when] then q.events
        else if rest == [] then q.events - {when}
        else q.events[when := rest];
      q.(events := events, next := NextKey(events))
  }

  function Applied<B(==)>(q: Queue<B>, f: Effect<B>): Queue<B> {
    match f
    case Insert(e, when, priority) => Inserted(q, e, when, priority)
    case Remove(e, when) => Removed(q, e, when)
  }

  function AppliedAll<B(==)>(q: Queue<B>, effects: seq<Effect<B>>): Queue<B>
    decreases |effects|
  {
    if effects == [] then q else AppliedAll(Applied(q, effects[0]), effects[1..])
  }

  lemma AppliedAllAppend<B>(q: Queue<B>, effects: seq<Effect<B>>, f: Effect<B>)
    ensures AppliedAll(q, effects + [f]) == Applied(AppliedAll(q, effects), f)
    decreases |effects|
  {
    if effects == [] {
      assert effects + [f] == [f];
    } else {
      assert (effects + [f])[1..] == effects[1..] + [f];
      AppliedAllAppend(Applied(q, effects[0]), effects[1..], f);
    }
  }

  lemma NextKeyIs<B>(events: map<nat, seq<Event<B>>>, k: nat)
    requires k in events && forall j :: j in events ==> k <= j
    ensures NextKey(events) == k
  {
    assert k in events.Keys;
  }

  lemma InsertedWellFormed<B>(q: Queue<B>, e: Event<B>, when: nat, priority: int)
    requires WellFormed(q) && q.current <= when < MAX_CYCLE
    ensures WellFormed(Inserted(q, e, when, priority))
  {
    var r := Inserted(q, e, when, priority);
    assert when in r.events;
    NextKeyIs(r.events, r.next);
  }

  lemma RemovedWellFormed<B>(q: Queue<B>, e: Event<B>, when: nat)
    requires WellFormed(q)
    ensures WellFormed(Removed(q, e, when))
  {
    var r := Removed(q, e, when);
    assert forall k :: k in r.events ==> k in q.events;
    if r.events.Keys != {} {
      assert Least(r.events.Keys) in q.events.Keys;
    }
  }

  // What an effect in the future leaves alone: the clocks, the least key and the list at that key.
  ghost predicate SameFront<B>(q: Queue<B>, r: Queue<B>) {
    && r.next == q.next && r.last == q.last && r.current == q.current
    && q.next in q.events && q.next in r.events && r.events[q.next] == q.events[q.next]
  }

  lemma AppliedKeepsFront<B>(q: Queue<B>, f: Effect<B>)
    requires WellFormed(q) && q.next in q.events && q.next < f.when < MAX_CYCLE
    ensures WellFormed(Applied(q, f)) && SameFront(q, Applied(q, f))
  {
    match f
    case Insert(e, when, priority) =>
      InsertedWellFormed(q, e, when, priority);
    case Remove(e, when) =>
      RemovedWellFormed(q, e, when);
      var r := Removed(q, e, when);
      assert q.next in r.events.Keys && forall j :: j in r.events ==> j in q.events.Keys;
      NextKeyIs(r.events, q.next);
  }

  lemma AppliedAllKeepsFront<B>(q: Queue<B>, effects: seq<Effect<B>>)
    requires WellFormed(q) && q.next in q.events && Later(effects, q.next)
    ensures WellFormed(AppliedAll(q, effects)) && SameFront(q, AppliedAll(q, effects))
    decreases |effects|
  {
    if effects != [] {
      assert effects[0] in effects;
      AppliedKeepsFront(q, effects[0]);
      assert forall f :: f in effects[1..] ==> f in effects;
      AppliedAllKeepsFront(Applied(q, effects[0]), effects[1..]);
    }
  }

  // ----- Delivering one list -----

  function Handled<W, B(==)>(h: Handler<W, B>, s: Sim<W, B>, e: Event<B>): Sim<W, B> {
    var r := h(s.world, s.queue, e);
    Sim(AppliedAll(s.queue, r.effects), r.world)
  }

  function HandledAll<W, B(==)>(h: Handler<W, B>, s: Sim<W, B>, list: seq<Event<B>>): Sim<W, B>
    decreases |list|
  {
    if list == [] then s else HandledAll(h, Handled(h, s, list[0]), list[1..])
  }

  lemma HandledKeepsFront<W(!new), B(!new)>(h: Handler<W, B>, s: Sim<W, B>, e: Event<B>)
    requires Strict(h) && WellFormed(s.queue) && s.queue.next in s.queue.events
    ensures WellFormed(Handled(h, s, e).queue) && SameFront(s.queue, Handled(h, s, e).queue)
  {
    AppliedAllKeepsFront(s.queue, h(s.world, s.queue, e).effects);
  }

  lemma HandledAllKeepsFront<W(!new), B(!new)>(h: Handler<W, B>, s: Sim<W, B>, list: seq<Event<B>>)
    requires Strict(h) && WellFormed(s.queue) && s.queue.next in s.queue.events
    ensures WellFormed(HandledAll(h, s, list).queue) && SameFront(s.queue, HandledAll(h, s, list).queue)
    decreases |list|
  {
    if list != [] {
      HandledKeepsFront(h, s, list[0]);
      HandledAllKeepsFront(h, Handled(h, s, list[0]), list[1..]);
    }
  }

  lemma HandledAllAppend<W, B>(h: Handler<W, B>, s: Sim<W, B>, list: seq<Event<B>>, e: Event<B>)
    ensures HandledAll(h, s, list + [e]) == Handled(h, HandledAll(h, s, list), e)
    decreases |list|
  {
    if list == [] {
      assert list + [e] == [e];
    } else {
      assert (list + [e])[1..] == list[1..] + [e];
      HandledAllAppend(h, Handled(h, s, list[0]), list[1..], e);
    }
  }

  // The list just delivered goes away and the next key is looked up again.
  function Retired<B>(q: Queue<B>): Queue<B> {
    var events := q.events - {q.next};
    q.(events := events, last := q.next, next := NextKey(events))
  }

  ghost predicate Ready<W(!new), B(!new)>(h: Handler<W, B>, s: Sim<W, B>) {
    Strict(h) && WellFormed(s.queue)
  }

  function Processed<W(!new), B(==, !new)>(h: Handler<W, B>, s: Sim<W, B>): (t: Sim<W, B>)
    requires Ready(h, s) && s.queue.next in s.queue.events
    ensures WellFormed(t.queue) && t.queue.current == s.queue.current && s.queue.next < t.queue.next
    ensures t.queue.last == s.queue.next
  {
    HandledAllKeepsFront(h, s, s.queue.events[s.queue.next]);
    var t := HandledAll(h, s, s.queue.events[s.queue.next]);
    assert t.queue.next == Least(t.queue.events.Keys);
    assert forall k :: k in t.queue.events - {t.queue.next} ==> k in t.queue.events.Keys && t.queue.next < k;
    t.(queue := Retired(t.queue))
  }

  // ----- The two loops -----

  function At<W, B>(s: Sim<W, B>, cycle: nat): Sim<W, B> {
    s.(queue := s.queue.(current := cycle))
  }

  function Ticked<W(!new), B(==, !new)>(h: Handler<W, B>, s: Sim<W, B>): (t: Sim<W, B>)
    requires Ready(h, s) && s.queue.current < MAX_CYCLE
    ensures WellFormed(t.queue) && t.queue.current == s.queue.current + 1
  {
    var t := if s.queue.next == s.queue.current then Processed(h, s) else s;
    At(t, t.queue.current + 1)
  }

  function TickedBy<W(!new), B(==, !new)>(h: Handler<W, B>, s: Sim<W, B>, n: nat): (t: Sim<W, B>)
    requires Ready(h, s) && s.queue.current + n <= MAX_CYCLE
    ensures WellFormed(t.queue) && t.queue.current == s.queue.current + n
    decreases n
  {
    if n == 0 then s else TickedBy(h, Ticked(h, s), n - 1)
  }

  // Cycles from the next event to the end of the run; what every jump shortens.
  function Distance<B>(q: Queue<B>, steps: nat): nat {
    if q.next > q.current + steps then 0 else q.current + steps + 1 - q.next
  }

  function Skipped<W(!new), B(==, !new)>(h: Handler<W, B>, s: Sim<W, B>, steps: nat): (t: Sim<W, B>)
    requires Ready(h, s) && s.queue.current + steps < MAX_CYCLE
    ensures WellFormed(t.queue) && t.queue.current == s.queue.current + steps
    ensures steps > 0 ==> t.queue.next > t.queue.current
    ensures t.queue.next >= s.queue.next
    decreases Distance(s.queue, steps)
  {
    if steps == 0 then s
    else if s.queue.next > s.queue.current + steps then At(s, s.queue.current + steps)
    else
      var d := s.queue.next - s.queue.current;
      Skipped(h, Processed(h, At(s, s.queue.next)), steps - d)
  }

  function Advanced<W(!new), B(==, !new)>(h: Handler<W, B>, s: Sim<W, B>, steps: nat): (t: Sim<W, B>)
    requires Ready(h, s) && s.queue.current + steps < MAX_CYCLE
    ensures WellFormed(t.queue) && t.queue.current == s.queue.current + steps
    ensures t.queue.next > t.queue.current
    ensures t.queue.next >= s.queue.next
  {
    if steps == 0 then
      (if s.queue.next == s.queue.current then Processed(h, s) else s)
    else Skipped(h, s, steps)
  }

  // ----- Skipping agrees with ticking -----

  // When the next event is in the future, one tick only moves the clock.
  lemma SkipOneIdleCycle<W(!new), B(!new)>(h: Handler<W, B>, s: Sim<W, B>, n: nat)
    requires Ready(h, s) && s.queue.current < s.queue.next
    requires 0 < n && s.queue.current + n < MAX_CYCLE
    ensures Advanced(h, s, n) == Advanced(h, At(s, s.queue.current + 1), n - 1)
  {
    var u := At(s, s.queue.current + 1);
    if s.queue.next <= s.queue.current + n {
      assert At(u, s.queue.next) == At(s, s.queue.next);
      var p := Processed(h, At(s, s.queue.next));
      var rest := s.queue.current + n - s.queue.next;
      assert Skipped(h, s, n) == Skipped(h, p, rest);
      if n == 1 {
        assert u == At(s, s.queue.next) && Advanced(h, u, 0) == p;
      } else {
        assert Skipped(h, u, n - 1) == Skipped(h, p, rest);
      }
    } else if n > 1 {
      assert At(u, u.queue.current + (n - 1)) == At(s, s.queue.current + n);
    }
  }

  lemma SkipOneCycle<W(!new), B(!new)>(h: Handler<W, B>, s: Sim<W, B>, n: nat)
    requires Ready(h, s) && 0 < n && s.queue.current + n < MAX_CYCLE
    ensures Advanced(h, s, n) == Advanced(h, Ticked(h, s), n - 1)
  {
    if s.queue.next == s.queue.current {
      assert At(s, s.queue.next) == s;
      SkipOneIdleCycle(h, Processed(h, s), n);
    } else {
      SkipOneIdleCycle(h, s, n);
    }
  }

  // `Loop(n)` reaches exactly the state of n calls of `Loop()` followed by `Loop(0)`.
  lemma {:induction false} SkippingIsTicking<W(!new), B(!new)>(h: Handler<W, B>, s: Sim<W, B>, n: nat)
    requires Ready(h, s) && s.queue.current + n < MAX_CYCLE
    ensures Advanced(h, s, n) == Advanced(h, TickedBy(h, s, n), 0)
    decreases n
  {
    if n > 0 {
      SkipOneCycle(h, s, n);
      SkippingIsTicking(h, Ticked(h, s), n - 1);
    }
  }

  // How a run is cut into calls does not matter.
  lemma {:induction false} AdvanceTwice<W(!new), B(!new)>(h: Handler<W, B>, s: Sim<W, B>, a: nat, b: nat)
    requires Ready(h, s) && s.queue.current + a + b < MAX_CYCLE
    ensures Advanced(h, Advanced(h, s, a), b) == Advanced(h, s, a + b)
    decreases a
  {
    if a > 0 {
      SkipOneCycle(h, s, a);
      SkipOneCycle(h, s, a + b);
      AdvanceTwice(h, Ticked(h, s), a - 1, b);
    } else if s.queue.next == s.queue.current {
      assert At(s, s.queue.next) == s;
    }
  }

  // A handler that also writes down every delivery: the cycle and the event.
  function Logged<W, B>(h: Handler<W, B>): Handler<(W, seq<(nat, Event<B>)>), B> {
    (w: (W, seq<(nat, Event<B>)>), q, e) =>
      var r := h(w.0, q, e);
      Reaction((r.world, w.1 + [(q.next, e)]), r.effects)
  }

  // The same events are delivered, at the same cycles and in the same order.
  lemma SameDeliveries<W(!new), B(!new)>(h: Handler<W, B>, q: Queue<B>, w: W, n: nat)
    requires Ready(h, Sim(q, w)) && q.current + n < MAX_CYCLE
    ensures Strict(Logged(h))
    ensures Advanced(Logged(h), Sim(q, (w, [])), n).world.1
         == Advanced(Logged(h), TickedBy(Logged(h), Sim(q, (w, [])), n), 0).world.1
  {
    LoggedIsStrict(h);
    SkippingIsTicking(Logged(h), Sim(q, (w, [])), n);
  }

  lemma LoggedIsStrict<W(!new), B(!new)>(h: Handler<W, B>)
    requires Strict(h)
    ensures Strict(Logged(h))
  {
    forall w: (W, seq<(nat, Event<B>)>), q, e ensures Later(Logged(h)(w, q, e).effects, q.next) {
      assert Logged(h)(w, q, e).effects == h(w.0, q, e).effects;
    }
  }

  // ----- The queue as an object -----

  class EventQueue<B(==, !new)> {
    var eventMap: map<nat, seq<Event<B>>>
    var nextEventCycle: nat
    var lastEventCycle: nat
    var currentCycle: nat

    function Model(): Queue<B>
      reads this
    {
      Queue(eventMap, nextEventCycle, lastEventCycle, currentCycle)
    }

    constructor ()
      ensures Model() == Queue(map[], MAX_CYCLE, 0, 0) && WellFormed(Model())
    {
      eventMap := map[];
      nextEventCycle := MAX_CYCLE;
      lastEventCycle := 0;
      currentCycle := 0;
    }

    method InsertEvent(e: Event<B>, when: nat, priority: int)
      modifies this
      ensures Model() == Inserted(old(Model()), e, when, priority)
      ensures old(WellFormed(Model())) && old(currentCycle) <= when < MAX_CYCLE ==> WellFormed(Model())
    {
      if WellFormedGuard(when) { InsertedWellFormed(Model(), e, when, priority); }
      if when < nextEventCycle {
        nextEventCycle := when;
      }
      if when !in eventMap {
        eventMap := eventMap[when := [e]];
      } else {
        var list := eventMap[when];
        var i := 0;
        while i < |list| && list[i].priority <= priority
          invariant i <= |list|
          invariant forall j :: 0 <= j < i ==> list[j].priority <= priority
        {
          i := i + 1;
        }
        PositionIsFirst(list, priority, i);
        eventMap := eventMap[when := list[..i] + [e] + list[i..]];
      }
    }

    ghost predicate WellFormedGuard(when: nat)
      reads this
    {
      WellFormed(Model()) && currentCycle <= when < MAX_CYCLE
    }

    method RemoveEvent(e: Event<B>, when: nat) returns (removed: bool)
      modifies this
      ensures Model() == Removed(old(Model()), e, when)
      ensures removed <==> when in old(eventMap) && e in old(eventMap)[when]
      ensures old(WellFormed(Model())) ==> WellFormed(Model())
    {
      removed := false;
      if WellFormed(Model()) { RemovedWellFormed(Model(), e, when); }
      if when in eventMap {
        var list := eventMap[when];
        var i := 0;
        while i < |list| && list[i] != e
          invariant i <= |list| && e !in list[..i]
        {
          i := i + 1;
        }
        WithoutAt(list, e, i);
        if i < |list| {
          removed := true;
          var rest := list[..i] + list[i + 1..];
          eventMap := if rest == [] then eventMap - {when} else eventMap[when := rest];
        }
        nextEventCycle := NextKey(eventMap);
      }
    }

    method Process<W(!new)>(h: Handler<W, B>, world: W) returns (world': W)
      requires Ready(h, Sim(Model(), world)) && nextEventCycle in eventMap
      modifies this
      ensures Sim(Model(), world') == Processed(h, Sim(old(Model()), world))
    {
      var list := eventMap[nextEventCycle];
      world' := world;
      ghost var start := Sim(Model(), world);
      for i := 0 to |list|
        invariant Sim(Model(), world') == HandledAll(h, start, list[..i])
      {
        HandledAllAppend(h, start, list[..i], list[i]);
        assert list[..i] + [list[i]] == list[..i + 1];
        var r := h(world', Model(), list[i]);
        Apply(r.effects);
        world' := r.world;
      }
      assert list[..|list|] == list;
      HandledAllKeepsFront(h, start, list);
      eventMap := eventMap - {nextEventCycle};
      lastEventCycle := nextEventCycle;
      nextEventCycle := NextKey(eventMap);
    }

    // The queue calls a handler makes, in order.
    method Apply(effects: seq<Effect<B>>)
      modifies this
      ensures Model() == AppliedAll(old(Model()), effects)
    {
      ghost var start := Model();
      for i := 0 to |effects|
        invariant Model() == AppliedAll(start, effects[..i])
      {
        AppliedAllAppend(start, effects[..i], effects[i]);
        assert effects[..i] + [effects[i]] == effects[..i + 1];
        match effects[i] {
          case Insert(e, when, priority) => InsertEvent(e, when, priority);
          case Remove(e, when) => var _ := RemoveEvent(e, when);
        }
      }
      assert effects[..|effects|] == effects;
    }

    method Loop<W(!new)>(h: Handler<W, B>, world: W) returns (world': W)
      requires Ready(h, Sim(Model(), world)) && currentCycle < MAX_CYCLE
      modifies this
      ensures Sim(Model(), world') == Ticked(h, Sim(old(Model()), world))
    {
      world' := world;
      if nextEventCycle == currentCycle {
        world' := Process(h, world);
      }
      currentCycle := currentCycle + 1;
    }

    method LoopFor<W(!new)>(h: Handler<W, B>, world: W, steps: nat) returns (world': W)
      requires Ready(h, Sim(Model(), world)) && currentCycle + steps < MAX_CYCLE
      modifies this
      ensures Sim(Model(), world') == Advanced(h, Sim(old(Model()), world), steps)
    {
      hide Processed, HandledAll;
      world' := world;
      if steps == 0 && nextEventCycle == currentCycle {
        world' := Process(h, world);
        return;
      }
      var stepCycles: nat := steps;
      while stepCycles > 0
        invariant Ready(h, Sim(Model(), world')) && currentCycle + stepCycles < MAX_CYCLE
        invariant Skipped(h, Sim(Model(), world'), stepCycles) == Skipped(h, Sim(old(Model()), world), steps)
        decreases Distance(Model(), stepCycles), stepCycles
      {
        if nextEventCycle > currentCycle + stepCycles {
          currentCycle := currentCycle + stepCycles;
          break;
        }
        var currentSteps := nextEventCycle - currentCycle;
        currentCycle := currentCycle + currentSteps;
        stepCycles := stepCycles - currentSteps;
        world' := Process(h, world');
      }
    }
  }
}
