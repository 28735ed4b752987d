/**
 Who gets an event, and who is evicted, in the words of the subscription itself: tenant,
 data_uuid, pattern, room in the queue, and the clock.
 */
module SseReach {
  import opened Options
  import opened EventFilter
  import opened SseManager
  import opened SseRuns
  import opened SseOrder
  import opened SseClients
  import opened SseDelivery

  // ------------------------------------------------------------- one delivery

  /** The tenant test binds only if both sides have a tenant; an empty one counts as none. */
  ghost predicate SameTenant(f: Filter, e: Event) {
    f.company == None || f.company == Some("") || e.company == None || e.company == Some("") || f.company == e.company
  }

  /** Every filter the client has set takes the event. */
  ghost predicate Takes(f: Filter, e: Event) {
    && SameTenant(f, e)
    && (f.dataUuid == None || f.dataUuid == e.dataUuid)
    && (f.pattern == None || FnMatch(e.eventType, f.pattern.value))
  }

  /** A delivery appends the event to the queue of exactly the connected clients that take it
      and have room, and touches no other queue; what is typed as a heartbeat everyone takes. */
  lemma DeliveredExactly(m: Manager, e: Event, now: real, c: ClientId)
    requires Consistent(m) && c in m.queues
    ensures var due := c in m.connections && (e.eventType == "__heartbeat__" || Takes(m.connections[c], e))
                       && (m.capacity == 0 || |m.queues[c]| < m.capacity);
      c in Deliver(m, e, now).queues
      && Deliver(m, e, now).queues[c] == if due then m.queues[c] + [Send(e)] else m.queues[c]
  {
  }

  /** A heartbeat goes to every connected client with room, whatever its filters. */
  lemma HeartbeatReachesAll(m: Manager, now: real, c: ClientId)
    requires Consistent(m) && c in m.queues
    ensures var room := c in m.connections && (m.capacity == 0 || |m.queues[c]| < m.capacity);
      c in Beat(m, now).queues
      && Beat(m, now).queues[c] == if room then m.queues[c] + [Heartbeat] else m.queues[c]
  {
  }

  // -------------------------------------------------------------- over a run

  /** The draft a step finishes publishing and the number it gets. */
  ghost predicate Publishing(s: System, step: Step, d: Draft, id: nat) {
    && Enabled(s, step)
    && match step
       case Counted(draft, _) => d == draft && id == s.m.sequence + 1
       case Finish(p, _) =>
         s.pending[p].0 == d && id == (if s.pending[p].1.Some? then s.pending[p].1.value else s.m.sequence + 1)
       case _ => false
  }

  lemma PublishDelivers(s: System, step: Step, d: Draft, id: nat)
    requires Consistent(s.m) && Publishing(s, step, d, id)
    ensures var m := s.m.(sequence := Max(id, s.m.sequence));
      Next(s, step).m == Deliver(m, Event(d.eventType, d.data, d.dataUuid, d.company, id), step.now)
    ensures Next(s, step).published == s.published + [Event(d.eventType, d.data, d.dataUuid, d.company, id)]
  {
    StepsAreTheOperations(s, step);
  }

  /** In every run, whichever branch numbers it: a publish reaches exactly the connected
      clients that take it and have room, with its type, data, data_uuid and tenant unchanged. */
  lemma PublishReachesExactly(start: System, steps: seq<Step>, step: Step, d: Draft, id: nat, c: ClientId)
    requires Consistent(start.m) && Publishing(Run(start, steps), step, d, id)
    requires c in Run(start, steps).m.queues
    ensures var s, t := Run(start, steps), Run(start, steps + [step]);
      var e := Event(d.eventType, d.data, d.dataUuid, d.company, id);
      var due := c in s.m.connections && (d.eventType == "__heartbeat__" || Takes(s.m.connections[c], e))
                 && (s.m.capacity == 0 || |s.m.queues[c]| < s.m.capacity);
      && t.published == s.published + [e] && c in t.m.queues
      && t.m.queues[c] == if due then s.m.queues[c] + [Send(e)] else s.m.queues[c]
  {
    var s := Run(start, steps);
    RunOneMore(start, steps, step);
    PublishDelivers(s, step, d, id);
    DeliveredExactly(s.m.(sequence := Max(id, s.m.sequence)), Event(d.eventType, d.data, d.dataUuid, d.company, id),
        step.now, c);
  }

  /** An event without a tenant reaches the clients of every tenant, and a client without a
      tenant gets the events of every tenant. */
  lemma NoTenantMeansEveryTenant(start: System, steps: seq<Step>, step: Step, d: Draft, id: nat, c: ClientId)
    requires Consistent(start.m) && Publishing(Run(start, steps), step, d, id) && d.eventType != "__heartbeat__"
    requires c in Run(start, steps).m.connections
    requires var s := Run(start, steps); var f := s.m.connections[c];
      && (d.company == None || f.company == None) && f.dataUuid == None && f.pattern == None
      && c in s.m.queues && (s.m.capacity == 0 || |s.m.queues[c]| < s.m.capacity)
    ensures var s, t := Run(start, steps), Run(start, steps + [step]);
      c in t.m.queues && t.m.queues[c] == s.m.queues[c] + [Send(Event(d.eventType, d.data, d.dataUuid, d.company, id))]
  {
    PublishReachesExactly(start, steps, step, d, id, c);
  }

  lemma {:induction false} ReplayedTake(ring: seq<Event>, f: Filter, last: int, capacity: nat, held: nat, e: Event)
    requires e in ReplayItems(ring, f, last, capacity, held)
    ensures e in ring && e.id > last && (e.eventType == "__heartbeat__" || Takes(f, e))
  {
    if ring[0].id > last && ClientMatches(f, ring[0]) && e == ring[0] {
    } else if ring[0].id > last && ClientMatches(f, ring[0]) {
      ReplayedTake(ring[1..], f, last, capacity, held + 1, e);
    } else {
      ReplayedTake(ring[1..], f, last, capacity, held, e);
    }
  }

  lemma {:induction false} EnqueuedWereOffered(os: seq<Offering>, e: Event)
    requires e in EventsIn(ItemsEnqueued(os))
    ensures e in EventsIn(ItemsOffered(os))
  {
    if os != [] {
      var n := |os| - 1;
      assert os == os[..n] + [os[n]];
      OfferedAppend(os[..n], os[n]);
      if os[n].outcome.Enqueued? {
        EventsInAppend(ItemsEnqueued(os[..n]), [os[n].item]);
        EventsInOne(os[n].item);
      } else {
        assert ItemsEnqueued(os) == ItemsEnqueued(os[..n]);
      }
      if e in EventsIn(ItemsEnqueued(os[..n])) { EnqueuedWereOffered(os[..n], e); }
    }
  }

  lemma {:induction false} EventsInHolds(items: seq<Item>, e: Event)
    ensures e in EventsIn(items) <==> Send(e) in items
  {
    if items != [] {
      EventsInHolds(items[..|items| - 1], e);
      assert items == items[..|items| - 1] + [items[|items| - 1]];
    }
  }

  /** Isolation, in every run: whatever a client's stream has taken or still holds was asked
      for. No event of one tenant ever gets into the queue of another tenant's client. */
  lemma OnlyWhatWasAskedFor(bufferSize: nat, capacity: nat, attached: bool, top: nat, steps: seq<Step>, c: ClientId,
                            e: Event)
    requires var s := Run(Started(bufferSize, capacity, attached, top), steps);
      c in s.clients && c in s.m.queues && Send(e) in s.clients[c].taken + s.m.queues[c]
    ensures var s := Run(Started(bufferSize, capacity, attached, top), steps);
      e.eventType == "__heartbeat__" || Takes(s.clients[c].filter, e)
  {
    ClientInvRun(bufferSize, capacity, attached, top, steps, c);
    var s := Run(Started(bufferSize, capacity, attached, top), steps);
    var k := s.clients[c];
    ItemsOfClient(s, c);
    EventsInHolds(k.taken + s.m.queues[c], e);
    if e in k.replayed {
      ReplayedTake(LastOf(s.published[..k.joined], s.m.bufferSize), k.filter, k.last.value, s.m.capacity, 0, e);
    } else {
      EnqueuedWereOffered(k.offers, e);
      MatchingMembers(k.filter, s.published[k.joined..End(s.published, k)], e);
    }
  }

  /** With tenants on both sides: they are the same. */
  lemma TenantsAreIsolated(bufferSize: nat, capacity: nat, attached: bool, top: nat, steps: seq<Step>, c: ClientId,
                           e: Event, own: string, other: string)
    requires own != "" && other != "" && own != other && e.eventType != "__heartbeat__" && e.company == Some(other)
    requires var s := Run(Started(bufferSize, capacity, attached, top), steps);
      c in s.clients && c in s.m.queues && s.clients[c].filter.company == Some(own)
    ensures var s := Run(Started(bufferSize, capacity, attached, top), steps);
      Send(e) !in s.clients[c].taken + s.m.queues[c]
  {
    var s := Run(Started(bufferSize, capacity, attached, top), steps);
    if Send(e) in s.clients[c].taken + s.m.queues[c] {
      OnlyWhatWasAskedFor(bufferSize, capacity, attached, top, steps, c, e);
    }
  }

  // -------------------------------------------------------------- the buffer

  /** In every run the ring holds the last published events, as many as fit. */
  lemma RingHoldsTheLatest(bufferSize: nat, capacity: nat, attached: bool, top: nat, steps: seq<Step>, i: nat)
    ensures var s := Run(Started(bufferSize, capacity, attached, top), steps);
      && |s.m.ring| == (if |s.published| < bufferSize then |s.published| else bufferSize)
      && (i < |s.m.ring| ==> s.m.ring[|s.m.ring| - 1 - i] == s.published[|s.published| - 1 - i])
  {
    CounterCoversAndRingIsTail(bufferSize, capacity, attached, top, steps);
  }

  // -------------------------------------------------------------- the zombies

  /** The full queues of a history at or after a time. */
  ghost function FullsSince(os: seq<Offering>, from: real): set<nat> {
    set j: nat | j < |os| && os[j].outcome != Enqueued && os[j].at >= from
  }

  lemma FullsSinceSnoc(os: seq<Offering>, o: Offering, from: real)
    ensures |FullsSince(os + [o], from)|
            == |FullsSince(os, from)| + if o.outcome != Enqueued && o.at >= from then 1 else 0
  {
    var all := os + [o];
    if o.outcome != Enqueued && o.at >= from {
      assert FullsSince(all, from) == FullsSince(os, from) + {|os|};
    } else {
      assert FullsSince(all, from) == FullsSince(os, from);
    }
  }

  lemma {:induction false} SinceCountsFulls(os: seq<Offering>, from: real)
    ensures |Since(FullTimes(os), from)| == |FullsSince(os, from)|
  {
    if os == [] {
      assert FullsSince(os, from) == {};
    } else {
      var n := |os| - 1;
      SinceCountsFulls(os[..n], from);
      assert os == os[..n] + [os[n]];
      FullsSinceSnoc(os[..n], os[n], from);
      if os[n].outcome != Enqueued {
        SinceAppend(FullTimes(os[..n]), [os[n].at], from);
        SinceSingle(os[n].at, from);
      } else {
        assert FullTimes(os) == FullTimes(os[..n]);
      }
    }
  }

  lemma SinceSingle(t: real, from: real)
    ensures Since([t], from) == if t >= from then [t] else []
  {
    assert [t][1..] == [];
  }

  /** Each full queue of the history evicted exactly if it was at least the third of the last
      sixty seconds, itself counted. */
  ghost predicate EvictedAtThree(os: seq<Offering>) {
    forall i: nat :: i < |os| && os[i].outcome != Enqueued ==>
      (os[i].outcome == Evicted <==> |FullsSince(os[..i + 1], os[i].at - 60.0)| >= 3)
  }

  lemma JudgedAtThree(os: seq<Offering>)
    requires forall i :: 0 <= i < |os| ==> Judged(os, i)
    ensures EvictedAtThree(os)
  {
    forall i: nat | i < |os| && os[i].outcome != Enqueued
      ensures os[i].outcome == Evicted <==> |FullsSince(os[..i + 1], os[i].at - 60.0)| >= 3
    {
      JudgedByCount(os, i);
    }
  }

  /** So it is for every client in every run. */
  lemma EvictedExactlyAtThree(bufferSize: nat, capacity: nat, attached: bool, top: nat, steps: seq<Step>, c: ClientId)
    requires c in Run(Started(bufferSize, capacity, attached, top), steps).clients
    ensures EvictedAtThree(Run(Started(bufferSize, capacity, attached, top), steps).clients[c].offers)
  {
    TrackerIsTheWindow(bufferSize, capacity, attached, top, steps, c);
    JudgedAtThree(Run(Started(bufferSize, capacity, attached, top), steps).clients[c].offers);
  }

  lemma JudgedByCount(os: seq<Offering>, i: nat)
    requires i < |os| && os[i].outcome != Enqueued && Judged(os, i)
    ensures os[i].outcome == Evicted <==> |FullsSince(os[..i + 1], os[i].at - 60.0)| >= 3
  {
    assert os[..i + 1][..i] == os[..i];
    assert FullTimes(os[..i + 1]) == FullTimes(os[..i]) + [os[i].at];
    SinceCountsFulls(os[..i + 1], os[i].at - 60.0);
  }
}
