/**
 What each client of the SSE service gets over a run: every matching publish has exactly
 one outcome, the tracker is the window of the client's full queues, and a reconnect
 delivers exactly once.
 */
module SseClients {
  import opened Options
  import opened SseManager
  import opened SseRuns
  import opened SseOrder

  // ------------------------------------------------- reading the histories

  /** The events of a log that a filter takes. */
  function Matching(f: Filter, es: seq<Event>): seq<Event> {
    if es == [] then []
    else
      var n := |es| - 1;
      Matching(f, es[..n]) + (if ClientMatches(f, es[n]) then [es[n]] else [])
  }

  function Newer(es: seq<Event>, last: int): seq<Event> {
    if es == [] then []
    else
      var n := |es| - 1;
      Newer(es[..n], last) + (if es[n].id > last then [es[n]] else [])
  }

  function EventsIn(items: seq<Item>): seq<Event> {
    if items == [] then []
    else
      var n := |items| - 1;
      EventsIn(items[..n]) + (if items[n].Send? then [items[n].event] else [])
  }

  function ItemsOffered(os: seq<Offering>): seq<Item> {
    seq(|os|, i requires 0 <= i < |os| => os[i].item)
  }

  function ItemsEnqueued(os: seq<Offering>): seq<Item> {
    if os == [] then []
    else
      var n := |os| - 1;
      ItemsEnqueued(os[..n]) + (if os[n].outcome.Enqueued? then [os[n].item] else [])
  }

  function FullTimes(os: seq<Offering>): seq<real> {
    if os == [] then []
    else
      var n := |os| - 1;
      FullTimes(os[..n]) + (if os[n].outcome.Enqueued? then [] else [os[n].at])
  }

  /** The sixty seconds before the last full queue. */
  function Recent(times: seq<real>): seq<real> {
    if times == [] then [] else Since(times, times[|times| - 1] - WINDOW)
  }

  ghost predicate Ordered(times: seq<real>) {
    forall i, j :: 0 <= i < j < |times| ==> times[i] <= times[j]
  }

  lemma {:induction false} SinceAppend(a: seq<real>, b: seq<real>, cutoff: real)
    ensures Since(a + b, cutoff) == Since(a, cutoff) + Since(b, cutoff)
  {
    if a == [] {
      assert a + b == b;
    } else {
      var head := if a[0] >= cutoff then [a[0]] else [];
      assert (a + b)[1..] == a[1..] + b;
      assert Since(a + b, cutoff) == head + Since(a[1..] + b, cutoff);
      SinceAppend(a[1..], b, cutoff);
      assert head + (Since(a[1..], cutoff) + Since(b, cutoff)) == (head + Since(a[1..], cutoff)) + Since(b, cutoff);
    }
  }

  lemma {:induction false} SinceTwice(a: seq<real>, early: real, late: real)
    requires early <= late
    ensures Since(Since(a, early), late) == Since(a, late)
  {
    if a != [] {
      SinceTwice(a[1..], early, late);
      var head := if a[0] >= early then [a[0]] else [];
      SinceAppend(head, Since(a[1..], early), late);
      if head != [] { assert head[1..] == []; }
    }
  }

  /** Pruning as it goes along leaves the same as one look at the whole history. */
  lemma RecentGrows(times: seq<real>, now: real)
    requires times != [] ==> times[|times| - 1] <= now
    ensures Since(Recent(times) + [now], now - WINDOW) == Recent(times + [now])
  {
    SinceAppend(Recent(times), [now], now - WINDOW);
    SinceAppend(times, [now], now - WINDOW);
    if times != [] {
      SinceTwice(times, times[|times| - 1] - WINDOW, now - WINDOW);
    }
  }

  // -------------------------------------------- what a step does to a client

  /** The item that goes round in a step. */
  function ItemOf(s: System, step: Step): Option<Item> {
    if Publishes(s, step) then Some(Send(EventOf(s, step)))
    else if Enabled(s, step) && step.Tick? then Some(Heartbeat)
    else None
  }

  function TimeOf(s: System, step: Step): real {
    if step.Finish? || step.Counted? || step.Tick? then step.now else s.clock
  }

  predicate Reaches(s: System, step: Step, c: ClientId) {
    && ItemOf(s, step).Some? && c in s.m.connections
    && (Publishes(s, step) ==> ClientMatches(s.m.connections[c], EventOf(s, step)))
  }

  ghost predicate SameAs(s: System, t: System, c: ClientId)
    requires c in s.m.queues && c in s.clients
  {
    && c in t.m.queues && t.m.queues[c] == s.m.queues[c]
    && (c in t.m.connections <==> c in s.m.connections)
    && (c in t.m.connections ==> t.m.connections[c] == s.m.connections[c])
    && Tracked(t.m, c) == Tracked(s.m, c)
    && c in t.clients && t.clients[c] == s.clients[c]
  }

  ghost predicate OfferEffect(s: System, step: Step, t: System, c: ClientId)
    requires c in s.m.queues && c in s.clients && Reaches(s, step, c)
  {
    var item, now, o := ItemOf(s, step).value, TimeOf(s, step), OutcomeOf(s.m, c, TimeOf(s, step));
    && c in t.clients && t.clients[c] == Offered(s.clients[c], item, now, o, |t.published|)
    && c in t.m.queues && t.m.queues[c] == (if o.Enqueued? then s.m.queues[c] + [item] else s.m.queues[c])
    && (c in t.m.connections <==> !o.Evicted?)
    && (c in t.m.connections ==> t.m.connections[c] == s.m.connections[c])
    && (o.Dropped? ==> Tracked(t.m, c) == Retracked(s.m, c, now))
    && (o.Enqueued? ==> Tracked(t.m, c) == Tracked(s.m, c))
  }

  ghost predicate OtherEffect(s: System, step: Step, t: System, c: ClientId)
    requires c in s.m.queues && c in s.clients
  {
    var k, queue := s.clients[c], s.m.queues[c];
    if Enabled(s, step) && step == Disconnect(c) then
      && c !in t.m.connections && c in t.m.queues && t.m.queues[c] == queue
      && c in t.clients && t.clients[c] == k.(left := Some(|s.published|))
    else if step.Shutdown? && c in s.m.connections then
      && c !in t.m.connections && c in t.m.queues && c in t.clients
      && t.m.queues[c] == (if Room(s.m.capacity, queue) then queue + [Close] else queue)
      && t.clients[c] == k.(left := Some(|s.published|), closed := Room(s.m.capacity, queue))
    else if Enabled(s, step) && step == Consume(c) then
      && c in t.m.queues && t.m.queues[c] == queue[1..]
      && (c in t.m.connections <==> c in s.m.connections)
      && (c in t.m.connections ==> t.m.connections[c] == s.m.connections[c])
      && Tracked(t.m, c) == Tracked(s.m, c)
      && c in t.clients && t.clients[c] == k.(taken := k.taken + [queue[0]])
    else SameAs(s, t, c)
  }

  ghost predicate ClientEffect(s: System, step: Step, t: System, c: ClientId)
    requires c in s.m.queues && c in s.clients
  {
    && t.clock == (if Enabled(s, step) then TimeOf(s, step) else s.clock)
    && if Reaches(s, step, c) then OfferEffect(s, step, t, c) else OtherEffect(s, step, t, c)
  }

  lemma FanOutEffect(s: System, m: Manager, published: seq<Event>, targets: set<ClientId>, item: Item, now: real,
                     c: ClientId)
    requires Consistent(m) && targets <= m.connections.Keys && c in m.queues && c in s.clients
    requires m.queues == s.m.queues && m.connections == s.m.connections && m.fulls == s.m.fulls
             && m.capacity == s.m.capacity
    ensures var t := FanOut(s, m, published, targets, item, now);
      && c in t.clients && c in t.m.queues
      && (c !in targets ==> SameAs(s, t, c))
      && (c in targets ==>
            var o := OutcomeOf(s.m, c, now);
            && t.clients[c] == Offered(s.clients[c], item, now, o, |published|)
            && t.m.queues[c] == (if o.Enqueued? then s.m.queues[c] + [item] else s.m.queues[c])
            && (c in t.m.connections <==> !o.Evicted?)
            && (c in t.m.connections ==> t.m.connections[c] == s.m.connections[c])
            && (o.Dropped? ==> Tracked(t.m, c) == Retracked(s.m, c, now))
            && (o.Enqueued? ==> Tracked(t.m, c) == Tracked(s.m, c)))
  {
  }

  lemma PublishClientEffect(s: System, step: Step, c: ClientId)
    requires Consistent(s.m) && c in s.m.queues && c in s.clients && Publishes(s, step)
    ensures ClientEffect(s, step, Next(s, step), c)
  {
    var e := EventOf(s, step);
    var s' := if step.Finish? then s.(pending := s.pending - {step.publish}) else s;
    var m := s.m.(sequence := Max(e.id, s.m.sequence), ring := PushRing(s.m.ring, e, s.m.bufferSize));
    FanOutEffect(s', m, s.published + [e], Audience(m, e), Send(e), step.now, c);
  }

  lemma TickClientEffect(s: System, step: Step, c: ClientId)
    requires Consistent(s.m) && c in s.m.queues && c in s.clients && Enabled(s, step) && step.Tick?
    ensures ClientEffect(s, step, Next(s, step), c)
  {
    FanOutEffect(s, s.m, s.published, s.m.connections.Keys, Heartbeat, step.now, c);
  }

  lemma QuietClientEffect(s: System, step: Step, c: ClientId)
    requires Consistent(s.m) && c in s.m.queues && c in s.clients
    requires !Publishes(s, step) && !(Enabled(s, step) && step.Tick?)
    ensures ClientEffect(s, step, Next(s, step), c)
  {
  }

  lemma StepClientEffect(s: System, step: Step, c: ClientId)
    requires Consistent(s.m) && c in s.m.queues && c in s.clients
    ensures ClientEffect(s, step, Next(s, step), c)
  {
    if Publishes(s, step) {
      PublishClientEffect(s, step, c);
    } else if Enabled(s, step) && step.Tick? {
      TickClientEffect(s, step, c);
    } else {
      QuietClientEffect(s, step, c);
    }
  }

  // -------------------------------------------------------------- invariant

  function End(published: seq<Event>, k: Client): nat {
    if k.left.Some? then k.left.value else |published|
  }

  /** Every full queue was judged by the window of full queues up to it. */
  ghost predicate Judged(os: seq<Offering>, i: nat)
    requires i < |os|
  {
    os[i].outcome.Enqueued? || (os[i].outcome.Evicted? <==> |Recent(FullTimes(os[..i + 1]))| >= THRESHOLD)
  }

  ghost predicate SpanOk(published: seq<Event>, k: Client) {
    && k.joined <= End(published, k) <= |published|
    && EventsIn(ItemsOffered(k.offers)) == Matching(k.filter, published[k.joined..End(published, k)])
  }

  ghost predicate JoinOk(m: Manager, published: seq<Event>, k: Client) {
    && k.joined <= |published| && k.counter <= m.sequence
    && (IdsAscend(published) ==> forall i :: k.joined <= i < |published| ==> published[i].id > k.counter)
    && k.replayed == (if k.last.None? then []
                      else ReplayItems(LastOf(published[..k.joined], m.bufferSize), k.filter, k.last.value,
                          m.capacity, 0))
  }

  ghost predicate QueueOk(capacity: nat, k: Client, queue: seq<Item>) {
    && k.taken + queue == Sends(k.replayed) + ItemsEnqueued(k.offers) + (if k.closed then [Close] else [])
    && (capacity > 0 ==> |queue| <= capacity)
    && (capacity == 0 ==> forall i :: 0 <= i < |k.offers| ==> k.offers[i].outcome.Enqueued?)
  }

  /** Full queues are recorded in time order, none later than the clock. */
  ghost predicate TimesOk(clock: real, times: seq<real>) {
    Ordered(times) && forall i :: 0 <= i < |times| ==> times[i] <= clock
  }

  ghost predicate AllJudged(os: seq<Offering>) {
    forall i :: 0 <= i < |os| ==> Judged(os, i)
  }

  /** Only the last offer can have evicted. */
  ghost predicate EvictedLast(os: seq<Offering>, gone: bool) {
    forall i :: 0 <= i < |os| && os[i].outcome.Evicted? ==> i == |os| - 1 && gone
  }

  ghost predicate VerdictsOk(k: Client) {
    AllJudged(k.offers) && EvictedLast(k.offers, k.left.Some? && !k.closed)
  }

  ghost predicate TrackOk(clock: real, k: Client, connected: bool, tracked: seq<real>) {
    && (connected <==> k.left.None?) && (k.closed ==> k.left.Some?)
    && TimesOk(clock, FullTimes(k.offers))
    && VerdictsOk(k)
    && (connected ==> tracked == Recent(FullTimes(k.offers)) && |tracked| < THRESHOLD)
  }

  ghost predicate ClientInv(s: System, c: ClientId)
    requires c in s.clients
  {
    && c in s.m.queues
    && (c in s.m.connections ==> s.m.connections[c] == s.clients[c].filter)
    && SpanOk(s.published, s.clients[c])
    && JoinOk(s.m, s.published, s.clients[c])
    && QueueOk(s.m.capacity, s.clients[c], s.m.queues[c])
    && TrackOk(s.clock, s.clients[c], c in s.m.connections, Tracked(s.m, c))
  }

  lemma OfferedAppend(os: seq<Offering>, o: Offering)
    ensures EventsIn(ItemsOffered(os + [o]))
            == EventsIn(ItemsOffered(os)) + (if o.item.Send? then [o.item.event] else [])
    ensures ItemsEnqueued(os + [o]) == ItemsEnqueued(os) + (if o.outcome.Enqueued? then [o.item] else [])
    ensures FullTimes(os + [o]) == FullTimes(os) + (if o.outcome.Enqueued? then [] else [o.at])
  {
    assert (os + [o])[..|os|] == os;
    assert ItemsOffered(os + [o]) == ItemsOffered(os) + [o.item];
    assert (ItemsOffered(os) + [o.item])[..|os|] == ItemsOffered(os);
  }

  lemma MatchingAppend(f: Filter, es: seq<Event>, e: Event)
    ensures Matching(f, es + [e]) == Matching(f, es) + (if ClientMatches(f, e) then [e] else [])
  {
    assert (es + [e])[..|es|] == es;
  }

  lemma SpanOkOffer(published: seq<Event>, k: Client, o: Offering, published': seq<Event>)
    requires SpanOk(published, k) && k.left.None?
    requires if o.item.Send? then ClientMatches(k.filter, o.item.event) && published' == published + [o.item.event]
             else published' == published
    ensures SpanOk(published', Offered(k, o.item, o.at, o.outcome, |published'|))
  {
    OfferedAppend(k.offers, o);
    assert Offering(o.item, o.at, o.outcome) == o;
    if o.item.Send? { SpanGrows(published, o.item.event, k); }
  }

  lemma SpanOkPass(published: seq<Event>, k: Client, e: Event)
    requires SpanOk(published, k) && (k.left.None? ==> !ClientMatches(k.filter, e))
    ensures SpanOk(published + [e], k)
  {
    SpanGrows(published, e, k);
  }

  lemma SpanOkStep(s: System, step: Step, t: System, c: ClientId)
    requires c in s.clients && ClientInv(s, c)
    requires LogEffect(s, step, t) && ClientEffect(s, step, t, c)
    ensures c in t.clients && SpanOk(t.published, t.clients[c])
  {
    var k := s.clients[c];
    if Reaches(s, step, c) {
      var o := Offering(ItemOf(s, step).value, TimeOf(s, step), OutcomeOf(s.m, c, TimeOf(s, step)));
      SpanOkOffer(s.published, k, o, t.published);
    } else if Publishes(s, step) {
      SpanOkPass(s.published, k, EventOf(s, step));
    }
  }

  lemma SpanGrows(published: seq<Event>, e: Event, k: Client)
    requires k.joined <= End(published, k) <= |published|
    ensures k.left.None? ==>
              Matching(k.filter, (published + [e])[k.joined..|published| + 1])
              == Matching(k.filter, published[k.joined..|published|]) + (if ClientMatches(k.filter, e) then [e] else [])
    ensures k.left.Some? ==> (published + [e])[k.joined..k.left.value] == published[k.joined..k.left.value]
  {
    assert (published + [e])[k.joined..|published| + 1] == published[k.joined..|published|] + [e];
    MatchingAppend(k.filter, published[k.joined..|published|], e);
  }

  ghost predicate AscendAbove(m: Manager, published: seq<Event>, published': seq<Event>) {
    IdsAscend(published') ==>
      (IdsAscend(published) && forall i :: |published| <= i < |published'| ==> published'[i].id > m.sequence)
  }

  lemma JoinOkGrows(m: Manager, published: seq<Event>, k: Client, m': Manager, published': seq<Event>)
    requires JoinOk(m, published, k) && published <= published'
    requires m'.bufferSize == m.bufferSize && m'.capacity == m.capacity && m'.sequence >= m.sequence
    requires AscendAbove(m, published, published')
    ensures JoinOk(m', published', k)
  {
    assert published'[..k.joined] == published[..k.joined];
    if IdsAscend(published') {
      forall i | k.joined <= i < |published'| ensures published'[i].id > k.counter {
        if i < |published| { assert published'[i] == published[i]; }
      }
    }
  }

  lemma NewIdsAbove(s: System, step: Step, t: System)
    requires CounterInv(s) && LogEffect(s, step, t)
    ensures s.published <= t.published && t.m.sequence >= s.m.sequence && AscendAbove(s.m, s.published, t.published)
  {
    AscendStep(s, step, t);
  }

  lemma JoinIsFixed(s: System, step: Step, t: System, c: ClientId)
    requires c in s.m.queues && c in s.clients && ClientEffect(s, step, t, c)
    ensures c in t.clients
    ensures var k, k' := s.clients[c], t.clients[c];
      k'.joined == k.joined && k'.counter == k.counter && k'.replayed == k.replayed
      && k'.last == k.last && k'.filter == k.filter
  {
  }

  lemma JoinOkStep(s: System, step: Step, t: System, c: ClientId)
    requires CounterInv(s) && c in s.clients && ClientInv(s, c)
    requires LogEffect(s, step, t) && ClientEffect(s, step, t, c)
    ensures c in t.clients && JoinOk(t.m, t.published, t.clients[c])
  {
    NewIdsAbove(s, step, t);
    JoinOkGrows(s.m, s.published, s.clients[c], t.m, t.published);
    JoinIsFixed(s, step, t, c);
  }

  lemma QueueOkOffer(capacity: nat, k: Client, queue: seq<Item>, o: Offering, published: nat)
    requires QueueOk(capacity, k, queue) && !k.closed
    requires o.outcome.Enqueued? <==> Room(capacity, queue)
    ensures QueueOk(capacity, Offered(k, o.item, o.at, o.outcome, published),
                    if o.outcome.Enqueued? then queue + [o.item] else queue)
  {
    OfferedAppend(k.offers, o);
    if o.outcome.Enqueued? {
      assert k.taken + (queue + [o.item]) == (k.taken + queue) + [o.item];
      assert Sends(k.replayed) + (ItemsEnqueued(k.offers) + [o.item])
             == (Sends(k.replayed) + ItemsEnqueued(k.offers)) + [o.item];
    }
  }

  lemma QueueOkReached(s: System, step: Step, t: System, c: ClientId)
    requires c in s.clients && ClientInv(s, c) && Reaches(s, step, c)
    requires LogEffect(s, step, t) && ClientEffect(s, step, t, c)
    ensures c in t.clients && c in t.m.queues && QueueOk(t.m.capacity, t.clients[c], t.m.queues[c])
  {
    var o := Offering(ItemOf(s, step).value, TimeOf(s, step), OutcomeOf(s.m, c, TimeOf(s, step)));
    QueueOkOffer(s.m.capacity, s.clients[c], s.m.queues[c], o, |t.published|);
  }

  lemma ConsumeKeepsQueueOk(capacity: nat, k: Client, queue: seq<Item>)
    requires QueueOk(capacity, k, queue) && queue != []
    ensures QueueOk(capacity, k.(taken := k.taken + [queue[0]]), queue[1..])
  {
    assert (k.taken + [queue[0]]) + queue[1..] == k.taken + queue;
  }

  lemma CloseKeepsQueueOk(capacity: nat, k: Client, queue: seq<Item>, left: Option<nat>)
    requires QueueOk(capacity, k, queue) && !k.closed
    ensures var fits := Room(capacity, queue);
      QueueOk(capacity, k.(left := left, closed := fits), if fits then queue + [Close] else queue)
  {
    assert k.taken + (queue + [Close]) == (k.taken + queue) + [Close];
  }

  lemma QueueOkQuiet(s: System, step: Step, t: System, c: ClientId)
    requires c in s.clients && ClientInv(s, c) && !Reaches(s, step, c)
    requires LogEffect(s, step, t) && ClientEffect(s, step, t, c)
    ensures c in t.clients && c in t.m.queues && QueueOk(t.m.capacity, t.clients[c], t.m.queues[c])
  {
    var k, queue := s.clients[c], s.m.queues[c];
    if Enabled(s, step) && step == Consume(c) {
      ConsumeKeepsQueueOk(s.m.capacity, k, queue);
    } else if step.Shutdown? && c in s.m.connections {
      CloseKeepsQueueOk(s.m.capacity, k, queue, Some(|s.published|));
    }
  }

  lemma QueueOkStep(s: System, step: Step, t: System, c: ClientId)
    requires c in s.clients && ClientInv(s, c)
    requires LogEffect(s, step, t) && ClientEffect(s, step, t, c)
    ensures c in t.clients && c in t.m.queues && QueueOk(t.m.capacity, t.clients[c], t.m.queues[c])
  {
    if Reaches(s, step, c) { QueueOkReached(s, step, t, c); } else { QueueOkQuiet(s, step, t, c); }
  }

  lemma TimesOkOffer(clock: real, times: seq<real>, now: real)
    requires TimesOk(clock, times) && now >= clock
    ensures TimesOk(now, times) && TimesOk(now, times + [now])
  {
  }

  lemma JudgedAppend(os: seq<Offering>, o: Offering, i: nat)
    requires i < |os|
    ensures Judged(os + [o], i) <==> Judged(os, i)
  {
    assert (os + [o])[..i + 1] == os[..i + 1];
  }

  lemma JudgedLast(os: seq<Offering>, o: Offering)
    ensures Judged(os + [o], |os|) <==>
              (o.outcome.Enqueued? || (o.outcome.Evicted? <==> |Recent(FullTimes(os) + [o.at])| >= THRESHOLD))
  {
    OfferedAppend(os, o);
    assert (os + [o])[..|os| + 1] == os + [o];
  }

  lemma JudgedSnoc(os: seq<Offering>, o: Offering)
    requires AllJudged(os)
    requires !o.outcome.Enqueued? ==> (o.outcome.Evicted? <==> |Recent(FullTimes(os) + [o.at])| >= THRESHOLD)
    ensures AllJudged(os + [o])
  {
    JudgedLast(os, o);
    forall i | 0 <= i < |os| ensures Judged(os + [o], i) { JudgedAppend(os, o, i); }
  }

  lemma EvictedSnoc(os: seq<Offering>, o: Offering)
    requires EvictedLast(os, false)
    ensures EvictedLast(os + [o], o.outcome.Evicted?)
  {
    forall i | 0 <= i < |os| ensures !(os + [o])[i].outcome.Evicted? { assert (os + [o])[i] == os[i]; }
  }

  lemma VerdictsOkOffer(k: Client, o: Offering, published: nat)
    requires VerdictsOk(k) && k.left.None? && !k.closed
    requires !o.outcome.Enqueued? ==>
               (o.outcome.Evicted? <==> |Recent(FullTimes(k.offers) + [o.at])| >= THRESHOLD)
    ensures VerdictsOk(Offered(k, o.item, o.at, o.outcome, published))
  {
    assert Offering(o.item, o.at, o.outcome) == o;
    JudgedSnoc(k.offers, o);
    EvictedSnoc(k.offers, o);
  }

  lemma TrackOkOffer(clock: real, k: Client, tracked: seq<real>, o: Offering, published: nat)
    requires TrackOk(clock, k, true, tracked) && o.at >= clock
    requires !o.outcome.Enqueued? ==>
               (o.outcome.Evicted? <==> |Since(tracked + [o.at], o.at - WINDOW)| >= THRESHOLD)
    ensures TrackOk(o.at, Offered(k, o.item, o.at, o.outcome, published), !o.outcome.Evicted?,
                    if o.outcome.Enqueued? then tracked else Since(tracked + [o.at], o.at - WINDOW))
  {
    var times := FullTimes(k.offers);
    OfferedAppend(k.offers, o);
    assert Offering(o.item, o.at, o.outcome) == o && times + [] == times;
    RecentGrows(times, o.at);
    TimesOkOffer(clock, times, o.at);
    VerdictsOkOffer(k, o, published);
  }

  lemma TrackOkReached(s: System, step: Step, t: System, c: ClientId)
    requires c in s.clients && ClientInv(s, c) && Reaches(s, step, c)
    requires LogEffect(s, step, t) && ClientEffect(s, step, t, c)
    ensures c in t.clients && TrackOk(t.clock, t.clients[c], c in t.m.connections, Tracked(t.m, c))
  {
    var o := Offering(ItemOf(s, step).value, TimeOf(s, step), OutcomeOf(s.m, c, TimeOf(s, step)));
    TrackOkOffer(s.clock, s.clients[c], Tracked(s.m, c), o, |t.published|);
  }

  lemma LaterKeepsTrackOk(clock: real, clock': real, k: Client, connected: bool, tracked: seq<real>)
    requires TrackOk(clock, k, connected, tracked) && clock <= clock'
    ensures TrackOk(clock', k, connected, tracked)
  {
  }

  lemma LeavingKeepsTrackOk(clock: real, k: Client, tracked: seq<real>, left: nat, closed: bool, tracked': seq<real>)
    requires TrackOk(clock, k, true, tracked)
    ensures TrackOk(clock, k.(left := Some(left), closed := closed), false, tracked')
  {
  }

  lemma ConsumeKeepsTrackOk(clock: real, k: Client, connected: bool, tracked: seq<real>, item: Item)
    requires TrackOk(clock, k, connected, tracked)
    ensures TrackOk(clock, k.(taken := k.taken + [item]), connected, tracked)
  {
  }

  lemma TrackOkQuiet(s: System, step: Step, t: System, c: ClientId)
    requires c in s.clients && ClientInv(s, c) && !Reaches(s, step, c)
    requires LogEffect(s, step, t) && ClientEffect(s, step, t, c)
    ensures c in t.clients && TrackOk(t.clock, t.clients[c], c in t.m.connections, Tracked(t.m, c))
  {
    var k, here, tracked := s.clients[c], c in s.m.connections, Tracked(s.m, c);
    LaterKeepsTrackOk(s.clock, t.clock, k, here, tracked);
    if Enabled(s, step) && step == Disconnect(c) {
      LeavingKeepsTrackOk(t.clock, k, tracked, |s.published|, k.closed, Tracked(t.m, c));
    } else if step.Shutdown? && here {
      LeavingKeepsTrackOk(t.clock, k, tracked, |s.published|, Room(s.m.capacity, s.m.queues[c]), Tracked(t.m, c));
    } else if Enabled(s, step) && step == Consume(c) {
      ConsumeKeepsTrackOk(t.clock, k, here, tracked, s.m.queues[c][0]);
    }
  }

  lemma TrackOkStep(s: System, step: Step, t: System, c: ClientId)
    requires c in s.clients && ClientInv(s, c)
    requires LogEffect(s, step, t) && ClientEffect(s, step, t, c)
    ensures c in t.clients && TrackOk(t.clock, t.clients[c], c in t.m.connections, Tracked(t.m, c))
  {
    if Reaches(s, step, c) { TrackOkReached(s, step, t, c); } else { TrackOkQuiet(s, step, t, c); }
  }

  lemma ClientInvStep(s: System, step: Step, t: System, c: ClientId)
    requires CounterInv(s) && c in s.clients && ClientInv(s, c)
    requires LogEffect(s, step, t) && ClientEffect(s, step, t, c)
    ensures c in t.clients && ClientInv(t, c)
  {
    SpanOkStep(s, step, t, c);
    JoinOkStep(s, step, t, c);
    QueueOkStep(s, step, t, c);
    TrackOkStep(s, step, t, c);
  }

  lemma {:induction false} ReplayFits(ring: seq<Event>, f: Filter, last: int, capacity: nat, held: nat)
    requires capacity > 0 ==> held <= capacity
    ensures capacity > 0 ==> held + |ReplayItems(ring, f, last, capacity, held)| <= capacity
  {
    if ring != [] {
      if ring[0].id > last && ClientMatches(f, ring[0]) && (capacity == 0 || held < capacity) {
        ReplayFits(ring[1..], f, last, capacity, held + 1);
      } else {
        ReplayFits(ring[1..], f, last, capacity, held);
      }
    }
  }

  lemma ConnectSpan(s: System, c: ClientId, f: Filter, last: Option<int>)
    requires CounterInv(s) && Consistent(s.m) && Enabled(s, Connect(c, f, last))
    ensures var t := Next(s, Connect(c, f, last));
      c in t.clients && SpanOk(t.published, t.clients[c]) && JoinOk(t.m, t.published, t.clients[c])
  {
    var t := Next(s, Connect(c, f, last));
    assert s.published[..|s.published|] == s.published;
    assert s.published[t.clients[c].joined..|s.published|] == [];
  }

  lemma ConnectQueue(s: System, c: ClientId, f: Filter, last: Option<int>)
    requires Consistent(s.m) && Enabled(s, Connect(c, f, last))
    ensures var t := Next(s, Connect(c, f, last));
      && c in t.clients && c in t.m.queues && QueueOk(t.m.capacity, t.clients[c], t.m.queues[c])
      && TrackOk(t.clock, t.clients[c], c in t.m.connections, Tracked(t.m, c))
  {
    var t := Next(s, Connect(c, f, last));
    var k := t.clients[c];
    assert Sends([]) == [];
    if last.Some? { ReplayFits(s.m.ring, f, last.value, s.m.capacity, 0); }
    assert [] + t.m.queues[c] == Sends(k.replayed) + ItemsEnqueued(k.offers) + [];
    assert c !in s.m.fulls;
  }

  lemma ConnectStep(s: System, c: ClientId, f: Filter, last: Option<int>)
    requires CounterInv(s) && Consistent(s.m) && Enabled(s, Connect(c, f, last))
    ensures var t := Next(s, Connect(c, f, last)); c in t.clients && ClientInv(t, c)
  {
    ConnectSpan(s, c, f, last);
    ConnectQueue(s, c, f, last);
  }

  lemma StepKeepsClients(s: System, step: Step)
    requires Consistent(s.m)
    ensures s.clients.Keys <= Next(s, step).clients.Keys
    ensures forall c :: c in Next(s, step).clients && c !in s.clients ==>
              Enabled(s, step) && step.Connect? && step.client == c
  {
  }

  lemma {:induction false} ClientInvRun(bufferSize: nat, capacity: nat, attached: bool, top: nat, steps: seq<Step>,
                                        c: ClientId)
    requires c in Run(Started(bufferSize, capacity, attached, top), steps).clients
    ensures ClientInv(Run(Started(bufferSize, capacity, attached, top), steps), c)
    decreases |steps|
  {
    var start := Started(bufferSize, capacity, attached, top);
    if steps != [] {
      var n := |steps| - 1;
      var s := Run(start, steps[..n]);
      CounterInvRun(bufferSize, capacity, attached, top, steps[..n]);
      if c in s.clients {
        ClientInvRun(bufferSize, capacity, attached, top, steps[..n], c);
        StepLogEffect(s, steps[n]);
        StepClientEffect(s, steps[n], c);
        ClientInvStep(s, steps[n], Run(start, steps), c);
      } else {
        StepKeepsClients(s, steps[n]);
        ConnectStep(s, c, steps[n].filter, steps[n].last);
      }
    }
  }
}
