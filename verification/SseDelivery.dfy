/**
 The delivery theorems of the SSE service, over every run.
 */
module SseDelivery {
  import opened Options
  import opened SseManager
  import opened SseRuns
  import opened SseOrder
  import opened SseClients

  // ------------------------------------------------------------ conservation

  /** How many event offers ended one way. */
  function Tally(os: seq<Offering>, o: Outcome): nat {
    if os == [] then 0
    else
      var n := |os| - 1;
      Tally(os[..n], o) + (if os[n].item.Send? && os[n].outcome == o then 1 else 0)
  }

  predicate Subsequence(a: seq<Event>, b: seq<Event>) {
    if a == [] then true
    else if b == [] then false
    else
      var i, j := |a| - 1, |b| - 1;
      (a[i] == b[j] && Subsequence(a[..i], b[..j])) || Subsequence(a, b[..j])
  }

  lemma {:induction false} OffersPartition(os: seq<Offering>)
    ensures |EventsIn(ItemsOffered(os))| == Tally(os, Enqueued) + Tally(os, Dropped) + Tally(os, Evicted)
    ensures |EventsIn(ItemsEnqueued(os))| == Tally(os, Enqueued)
    ensures Subsequence(EventsIn(ItemsEnqueued(os)), EventsIn(ItemsOffered(os)))
  {
    if os == [] {
      assert ItemsOffered(os) == [];
    } else {
      var n := |os| - 1;
      var rest, o := os[..n], os[n];
      OffersPartition(rest);
      assert os == rest + [o];
      OfferedAppend(rest, o);
      if o.outcome.Enqueued? { EventsInAppend(ItemsEnqueued(rest), [o.item]); EventsInOne(o.item); }
      else { assert ItemsEnqueued(rest) + [] == ItemsEnqueued(rest); }
      var a, b := EventsIn(ItemsEnqueued(rest)), EventsIn(ItemsOffered(rest));
      if o.item.Send? {
        var e := o.item.event;
        assert (b + [e])[..|b|] == b && (a + [e])[..|a|] == a;
      } else {
        assert b + [] == b && a + [] == a;
      }
    }
  }

  lemma EventsInOne(item: Item)
    ensures EventsIn([item]) == if item.Send? then [item.event] else []
  {
    assert [item][..0] == [];
  }

  lemma {:induction false} EventsInAppend(a: seq<Item>, b: seq<Item>)
    ensures EventsIn(a + b) == EventsIn(a) + EventsIn(b)
  {
    if b == [] {
      assert a + b == a;
    } else {
      var n := |b| - 1;
      EventsInAppend(a, b[..n]);
      assert (a + b)[..|a| + n] == a + b[..n];
    }
  }

  lemma {:induction false} EventsInSends(es: seq<Event>)
    ensures EventsIn(Sends(es)) == es
  {
    if es == [] {
      assert Sends(es) == [];
    } else {
      var n := |es| - 1;
      EventsInSends(es[..n]);
      assert Sends(es)[..n] == Sends(es[..n]);
    }
  }

  lemma {:induction false} AtMostOneEviction(os: seq<Offering>)
    requires forall i :: 0 <= i < |os| && os[i].outcome.Evicted? ==> i == |os| - 1
    ensures Tally(os, Evicted) <= 1
  {
    if os != [] {
      NoEvictionTally(os[..|os| - 1]);
    }
  }

  lemma {:induction false} NoEvictionTally(os: seq<Offering>)
    requires forall i :: 0 <= i < |os| ==> !os[i].outcome.Evicted?
    ensures Tally(os, Evicted) == 0
  {
    if os != [] { NoEvictionTally(os[..|os| - 1]); }
  }

  /** The matching publishes of a client's time in the registry. */
  function Due(s: System, k: Client): seq<Event> {
    if k.joined <= End(s.published, k) <= |s.published|
    then Matching(k.filter, s.published[k.joined..End(s.published, k)]) else []
  }

  lemma ItemsOfClient(s: System, c: ClientId)
    requires c in s.clients && ClientInv(s, c)
    ensures EventsIn(s.clients[c].taken + s.m.queues[c])
            == s.clients[c].replayed + EventsIn(ItemsEnqueued(s.clients[c].offers))
  {
    var k := s.clients[c];
    var head, last := Sends(k.replayed) + ItemsEnqueued(k.offers), if k.closed then [Close] else [];
    EventsInAppend(head, last);
    EventsInAppend(Sends(k.replayed), ItemsEnqueued(k.offers));
    EventsInSends(k.replayed);
    if k.closed { EventsInOne(Close); }
  }

  /** Conservation: while a client is registered every matching publish is offered to it
      once, in order, and is enqueued, dropped or the one that evicts; what its stream has
      taken and what still waits are the replayed events and the enqueued ones, a
      subsequence of the matching publishes. */
  lemma FanOutConserves(bufferSize: nat, capacity: nat, attached: bool, top: nat, steps: seq<Step>, c: ClientId)
    requires c in Run(Started(bufferSize, capacity, attached, top), steps).clients
    ensures var s := Run(Started(bufferSize, capacity, attached, top), steps);
      var k := s.clients[c];
      && EventsIn(ItemsOffered(k.offers)) == Due(s, k)
      && |Due(s, k)| == Tally(k.offers, Enqueued) + Tally(k.offers, Dropped) + Tally(k.offers, Evicted)
      && Tally(k.offers, Evicted) <= 1
      && c in s.m.queues
      && EventsIn(k.taken + s.m.queues[c]) == k.replayed + EventsIn(ItemsEnqueued(k.offers))
      && |EventsIn(ItemsEnqueued(k.offers))| == Tally(k.offers, Enqueued)
      && Subsequence(EventsIn(ItemsEnqueued(k.offers)), Due(s, k))
  {
    ClientInvRun(bufferSize, capacity, attached, top, steps, c);
    var s := Run(Started(bufferSize, capacity, attached, top), steps);
    OffersPartition(s.clients[c].offers);
    AtMostOneEviction(s.clients[c].offers);
    ItemsOfClient(s, c);
  }

  // ---------------------------------------------------------------- eviction

  /** Between steps every tracked client is registered, its tracker is the sixty-second
      window of all its full queues and holds fewer than three; each full queue in its
      history evicted exactly when it was the third within the window before it. */
  lemma TrackerIsTheWindow(bufferSize: nat, capacity: nat, attached: bool, top: nat, steps: seq<Step>, c: ClientId)
    requires c in Run(Started(bufferSize, capacity, attached, top), steps).clients
    ensures var s := Run(Started(bufferSize, capacity, attached, top), steps);
      var k := s.clients[c];
      && (c in s.m.fulls ==> c in s.m.connections)
      && (c in s.m.connections <==> k.left.None?)
      && (c in s.m.connections ==> Tracked(s.m, c) == Recent(FullTimes(k.offers)) && |Tracked(s.m, c)| < THRESHOLD)
      && (forall i :: 0 <= i < |k.offers| ==> Judged(k.offers, i))
      && (forall i :: 0 <= i < |k.offers| && k.offers[i].outcome.Evicted? ==> i == |k.offers| - 1 && k.left.Some?)
  {
    ClientInvRun(bufferSize, capacity, attached, top, steps, c);
  }

  /** An evicted client is never told: at its eviction the queue is full, so the close
      marker does not go in, and no later step adds it. */
  lemma EvictedStreamIsNotClosed(bufferSize: nat, capacity: nat, attached: bool, top: nat, steps: seq<Step>,
                                 c: ClientId)
    requires c in Run(Started(bufferSize, capacity, attached, top), steps).clients
    requires var k := Run(Started(bufferSize, capacity, attached, top), steps).clients[c];
      exists i :: 0 <= i < |k.offers| && k.offers[i].outcome.Evicted?
    ensures var s := Run(Started(bufferSize, capacity, attached, top), steps);
      c in s.m.queues && Close !in s.clients[c].taken + s.m.queues[c]
  {
    ClientInvRun(bufferSize, capacity, attached, top, steps, c);
    var s := Run(Started(bufferSize, capacity, attached, top), steps);
    var k := s.clients[c];
    assert !k.closed;
    NoCloseOffered(bufferSize, capacity, attached, top, steps, c);
    NoCloseEnqueued(k.offers);
  }

  lemma {:induction false} NoCloseEnqueued(os: seq<Offering>)
    requires forall i :: 0 <= i < |os| ==> os[i].item != Close
    ensures Close !in ItemsEnqueued(os)
  {
    if os != [] { NoCloseEnqueued(os[..|os| - 1]); }
  }

  lemma {:induction false} NoCloseOffered(bufferSize: nat, capacity: nat, attached: bool, top: nat, steps: seq<Step>,
                                          c: ClientId)
    requires c in Run(Started(bufferSize, capacity, attached, top), steps).clients
    ensures var k := Run(Started(bufferSize, capacity, attached, top), steps).clients[c];
      forall i :: 0 <= i < |k.offers| ==> k.offers[i].item != Close
  {
    var start := Started(bufferSize, capacity, attached, top);
    if steps != [] {
      var n := |steps| - 1;
      var s := Run(start, steps[..n]);
      if c in s.clients {
        NoCloseOffered(bufferSize, capacity, attached, top, steps[..n], c);
        ClientInvRun(bufferSize, capacity, attached, top, steps[..n], c);
        StepClientEffect(s, steps[n], c);
        OffersGrow(s, steps[n], Run(start, steps), c);
      } else {
        StepKeepsClients(s, steps[n]);
      }
    }
  }

  lemma OffersGrow(s: System, step: Step, t: System, c: ClientId)
    requires c in s.m.queues && c in s.clients && ClientEffect(s, step, t, c)
    ensures c in t.clients
    ensures t.clients[c].offers == s.clients[c].offers
            || exists o :: t.clients[c].offers == s.clients[c].offers + [o] && o.item != Close
  {
    if Reaches(s, step, c) {
      var o := Offering(ItemOf(s, step).value, TimeOf(s, step), OutcomeOf(s.m, c, TimeOf(s, step)));
      assert t.clients[c].offers == s.clients[c].offers + [o];
    }
  }

  /** With the shipped unbounded queue nothing is dropped and nobody is evicted. */
  lemma UnboundedQueuesLoseNothing(bufferSize: nat, attached: bool, top: nat, steps: seq<Step>, c: ClientId)
    requires c in Run(Started(bufferSize, 0, attached, top), steps).clients
    ensures var s := Run(Started(bufferSize, 0, attached, top), steps);
      EventsIn(ItemsEnqueued(s.clients[c].offers)) == Due(s, s.clients[c])
  {
    ClientInvRun(bufferSize, 0, attached, top, steps, c);
    var start := Started(bufferSize, 0, attached, top);
    ParametersStay(start, steps);
    AllEnqueued(Run(start, steps).clients[c].offers);
  }

  lemma {:induction false} AllEnqueued(os: seq<Offering>)
    requires forall i :: 0 <= i < |os| ==> os[i].outcome.Enqueued?
    ensures ItemsEnqueued(os) == ItemsOffered(os)
  {
    if os == [] {
      assert ItemsOffered(os) == [];
    } else {
      AllEnqueued(os[..|os| - 1]);
      assert ItemsOffered(os) == ItemsOffered(os[..|os| - 1]) + [os[|os| - 1].item];
    }
  }

  // --------------------------------------------------------------- reconnect

  lemma {:induction false} MatchingConcat(f: Filter, a: seq<Event>, b: seq<Event>)
    ensures Matching(f, a + b) == Matching(f, a) + Matching(f, b)
  {
    if b == [] {
      assert a + b == a;
    } else {
      var n := |b| - 1;
      MatchingConcat(f, a, b[..n]);
      assert (a + b)[..|a| + n] == a + b[..n];
    }
  }

  lemma {:induction false} NewerConcat(a: seq<Event>, b: seq<Event>, last: int)
    ensures Newer(a + b, last) == Newer(a, last) + Newer(b, last)
  {
    if b == [] {
      assert a + b == a;
    } else {
      var n := |b| - 1;
      NewerConcat(a, b[..n], last);
      assert (a + b)[..|a| + n] == a + b[..n];
    }
  }

  /** With room for everything a replay is the filtered newer part of the ring. */
  lemma {:induction false} ReplayIsFilter(ring: seq<Event>, f: Filter, last: int, held: nat)
    ensures ReplayItems(ring, f, last, 0, held) == Matching(f, Newer(ring, last))
  {
    if ring != [] {
      var e, rest := ring[0], ring[1..];
      var taken := e.id > last && ClientMatches(f, e);
      ReplayIsFilter(rest, f, last, if taken then held + 1 else held);
      assert ring == [e] + rest;
      NewerConcat([e], rest, last);
      assert [e][..0] == [];
      var tail := Newer(rest, last);
      assert [] + tail == tail && [] + Matching(f, tail) == Matching(f, tail);
      if e.id > last {
        assert Newer([e], last) == [e];
        assert Matching(f, [e]) == if ClientMatches(f, e) then [e] else [];
        MatchingConcat(f, [e], tail);
      }
    }
  }

  lemma {:induction false} MatchingMembers(f: Filter, es: seq<Event>, e: Event)
    ensures e in Matching(f, es) <==> e in es && ClientMatches(f, e)
  {
    if es != [] {
      MatchingMembers(f, es[..|es| - 1], e);
      assert es == es[..|es| - 1] + [es[|es| - 1]];
    }
  }

  lemma {:induction false} NewerMembers(es: seq<Event>, last: int, e: Event)
    ensures e in Newer(es, last) <==> e in es && e.id > last
  {
    if es != [] {
      NewerMembers(es[..|es| - 1], last, e);
      assert es == es[..|es| - 1] + [es[|es| - 1]];
    }
  }

  lemma {:induction false} MatchingAscends(f: Filter, es: seq<Event>)
    requires IdsAscend(es)
    ensures IdsAscend(Matching(f, es))
  {
    if es != [] {
      var n := |es| - 1;
      MatchingAscends(f, es[..n]);
      var m := Matching(f, es[..n]);
      forall i | 0 <= i < |m| ensures m[i].id < es[n].id { MatchingMembers(f, es[..n], m[i]); }
    }
  }

  lemma {:induction false} NewerAscends(es: seq<Event>, last: int)
    requires IdsAscend(es)
    ensures IdsAscend(Newer(es, last))
  {
    if es != [] {
      var n := |es| - 1;
      NewerAscends(es[..n], last);
      var m := Newer(es[..n], last);
      forall i | 0 <= i < |m| ensures m[i].id < es[n].id { NewerMembers(es[..n], last, m[i]); }
    }
  }

  /** What a connected client has got so far, taken or waiting. */
  function Got(s: System, c: ClientId): seq<Event>
    requires c in s.clients && c in s.m.queues
  {
    EventsIn(s.clients[c].taken + s.m.queues[c])
  }

  /** A reconnect with Last-Event-ID L on unbounded queues: the client gets the matching
      events newer than L that the ring held, then every matching event published since. */
  lemma ReconnectDelivers(bufferSize: nat, attached: bool, top: nat, steps: seq<Step>, c: ClientId)
    requires var s := Run(Started(bufferSize, 0, attached, top), steps);
      c in s.clients && s.clients[c].last.Some? && s.clients[c].left.None?
    ensures var s := Run(Started(bufferSize, 0, attached, top), steps);
      var k := s.clients[c];
      && c in s.m.queues && k.joined <= |s.published|
      && Got(s, c) == Matching(k.filter, Newer(LastOf(s.published[..k.joined], bufferSize), k.last.value))
                      + Matching(k.filter, s.published[k.joined..])
  {
    var start := Started(bufferSize, 0, attached, top);
    var s := Run(start, steps);
    ClientInvRun(bufferSize, 0, attached, top, steps, c);
    ParametersStay(start, steps);
    ItemsOfClient(s, c);
    UnboundedQueuesLoseNothing(bufferSize, attached, top, steps, c);
    var k := s.clients[c];
    ReplayIsFilter(LastOf(s.published[..k.joined], bufferSize), k.filter, k.last.value, 0);
    assert s.published[k.joined..|s.published|] == s.published[k.joined..];
  }

  /** Exactly once and in order, when ids ascend. */
  lemma ReconnectIsExactlyOnce(bufferSize: nat, attached: bool, top: nat, steps: seq<Step>, c: ClientId)
    requires var s := Run(Started(bufferSize, 0, attached, top), steps);
      c in s.clients && s.clients[c].last.Some? && s.clients[c].left.None? && IdsAscend(s.published)
    ensures var s := Run(Started(bufferSize, 0, attached, top), steps);
      var k := s.clients[c];
      && c in s.m.queues && k.joined <= |s.published|
      && IdsAscend(Got(s, c))
      && forall e :: e in Got(s, c) <==>
           ClientMatches(k.filter, e)
           && ((e in LastOf(s.published[..k.joined], bufferSize) && e.id > k.last.value)
               || e in s.published[k.joined..])
  {
    var s := Run(Started(bufferSize, 0, attached, top), steps);
    ReconnectDelivers(bufferSize, attached, top, steps, c);
    var k := s.clients[c];
    SplitDelivery(k.filter, k.last.value, s.published, k.joined, bufferSize);
  }

  /** The two parts of what a reconnect brings, as one ascending list. */
  lemma SplitDelivery(f: Filter, last: int, published: seq<Event>, joined: nat, bufferSize: nat)
    requires joined <= |published| && IdsAscend(published)
    ensures var ring, later := LastOf(published[..joined], bufferSize), published[joined..];
      var got := Matching(f, Newer(ring, last)) + Matching(f, later);
      && IdsAscend(got)
      && forall e :: e in got <==> ClientMatches(f, e) && ((e in ring && e.id > last) || e in later)
  {
    var ring, later := LastOf(published[..joined], bufferSize), published[joined..];
    var a, b := Matching(f, Newer(ring, last)), Matching(f, later);
    NewerAscends(ring, last);
    MatchingAscends(f, Newer(ring, last));
    MatchingAscends(f, later);
    forall e ensures e in a <==> ClientMatches(f, e) && e in ring && e.id > last {
      MatchingMembers(f, Newer(ring, last), e);
      NewerMembers(ring, last, e);
    }
    forall e ensures e in b <==> ClientMatches(f, e) && e in later {
      MatchingMembers(f, later, e);
    }
    JoinedAscend(a, b, ring, later, published, joined);
  }

  lemma JoinedAscend(a: seq<Event>, b: seq<Event>, early: seq<Event>, later: seq<Event>, all: seq<Event>, n: nat)
    requires n <= |all| && IdsAscend(all) && IdsAscend(a) && IdsAscend(b) && later == all[n..]
    requires forall e :: e in early ==> e in all[..n]
    requires forall e :: e in a ==> e in early
    requires forall e :: e in b ==> e in later
    ensures IdsAscend(a + b)
  {
    forall i, j | 0 <= i < |a| && 0 <= j < |b| ensures a[i].id < b[j].id {
      assert a[i] in a && b[j] in b;
      var x :| 0 <= x < n && all[x] == a[i];
      var y :| 0 <= y < |later| && later[y] == b[j];
      assert all[n + y] == b[j];
    }
  }

  /** No event the ring had lost by then matches and is newer. */
  ghost predicate NothingLost(published: seq<Event>, joined: nat, bufferSize: nat, f: Filter, last: int) {
    forall i :: 0 <= i < joined - bufferSize && i < |published| && ClientMatches(f, published[i]) ==>
        published[i].id <= last
  }

  /** No event published since then matches and is not newer. */
  ghost predicate NothingOld(published: seq<Event>, joined: nat, f: Filter, last: int) {
    forall i :: joined <= i < |published| && ClientMatches(f, published[i]) ==> published[i].id > last
  }

  lemma {:induction false} MatchingNewerOfOld(es: seq<Event>, f: Filter, last: int)
    requires forall i :: 0 <= i < |es| && ClientMatches(f, es[i]) ==> es[i].id <= last
    ensures Matching(f, Newer(es, last)) == []
  {
    var got := Matching(f, Newer(es, last));
    if got != [] {
      MatchingMembers(f, Newer(es, last), got[0]);
      NewerMembers(es, last, got[0]);
    }
  }

  lemma {:induction false} MatchingNewerOfNew(es: seq<Event>, f: Filter, last: int)
    requires forall i :: 0 <= i < |es| && ClientMatches(f, es[i]) ==> es[i].id > last
    ensures Matching(f, Newer(es, last)) == Matching(f, es)
  {
    if es != [] {
      var n := |es| - 1;
      assert es == es[..n] + [es[n]];
      MatchingNewerOfNew(es[..n], f, last);
      NewerConcat(es[..n], [es[n]], last);
      MatchingConcat(f, Newer(es[..n], last), Newer([es[n]], last));
      MatchingConcat(f, es[..n], [es[n]]);
      OneEvent(es[n], f, last);
    }
  }

  lemma OneEvent(e: Event, f: Filter, last: int)
    requires ClientMatches(f, e) ==> e.id > last
    ensures Matching(f, Newer([e], last)) == Matching(f, [e])
  {
    assert [e][..0] == [] && [e][1..] == [];
    assert Newer([e], last) == if e.id > last then [e] else [];
  }

  lemma RingHoldsTheRest(published: seq<Event>, joined: nat, bufferSize: nat, f: Filter, last: int)
    requires joined <= |published| && NothingLost(published, joined, bufferSize, f, last)
    requires NothingOld(published, joined, f, last)
    ensures Matching(f, Newer(LastOf(published[..joined], bufferSize), last)) + Matching(f, published[joined..])
            == Matching(f, Newer(published, last))
  {
    var before, later := published[..joined], published[joined..];
    var ring := LastOf(before, bufferSize);
    var lost := before[..|before| - |ring|];
    assert before == lost + ring && published == before + later;
    MatchingNewerOfOld(lost, f, last);
    MatchingNewerOfNew(later, f, last);
    NewerConcat(lost, ring, last);
    NewerConcat(before, later, last);
    MatchingConcat(f, Newer(lost, last), Newer(ring, last));
    MatchingConcat(f, Newer(before, last), Newer(later, last));
    assert [] + Matching(f, Newer(ring, last)) == Matching(f, Newer(ring, last));
  }

  /** An event missing from the ring, or one delivered although not newer, shows. */
  lemma EachFailureShows(published: seq<Event>, joined: nat, bufferSize: nat, f: Filter, last: int)
    requires joined <= |published| && IdsAscend(published)
    requires Matching(f, Newer(LastOf(published[..joined], bufferSize), last)) + Matching(f, published[joined..])
             == Matching(f, Newer(published, last))
    ensures NothingLost(published, joined, bufferSize, f, last) && NothingOld(published, joined, f, last)
  {
    var ring, later := LastOf(published[..joined], bufferSize), published[joined..];
    var a, b := Matching(f, Newer(ring, last)), Matching(f, later);
    forall i | joined <= i < |published| && ClientMatches(f, published[i]) ensures published[i].id > last {
      assert later[i - joined] == published[i];
      MatchingMembers(f, later, published[i]);
      assert published[i] in a + b;
      MatchingMembers(f, Newer(published, last), published[i]);
      NewerMembers(published, last, published[i]);
    }
    forall i | 0 <= i < joined - bufferSize && i < |published| && ClientMatches(f, published[i])
        && published[i].id > last
      ensures false
    {
      MatchingMembers(f, Newer(published, last), published[i]);
      NewerMembers(published, last, published[i]);
      LostIsNowhere(published, joined, bufferSize, i);
      MatchingMembers(f, Newer(ring, last), published[i]);
      NewerMembers(ring, last, published[i]);
      MatchingMembers(f, later, published[i]);
    }
  }

  lemma LostIsNowhere(published: seq<Event>, joined: nat, bufferSize: nat, i: nat)
    requires joined <= |published| && IdsAscend(published) && i < joined - bufferSize
    ensures published[i] !in LastOf(published[..joined], bufferSize) && published[i] !in published[joined..]
  {
    var ring, later := LastOf(published[..joined], bufferSize), published[joined..];
    assert forall k :: 0 <= k < |ring| ==> ring[k] == published[joined - |ring| + k];
    assert forall k :: 0 <= k < |later| ==> later[k] == published[joined + k];
  }

  /** In runs with ascending ids and unbounded queues a reconnect with L amounts to the filter
      of the whole history after L, exactly if the ring had lost no matching event above L and
      no matching event published since has an id up to L. */
  lemma ReconnectMissesNothingExactly(bufferSize: nat, attached: bool, top: nat, steps: seq<Step>, c: ClientId)
    requires var s := Run(Started(bufferSize, 0, attached, top), steps);
      c in s.clients && s.clients[c].last.Some? && s.clients[c].left.None? && IdsAscend(s.published)
    ensures var s := Run(Started(bufferSize, 0, attached, top), steps);
      var k := s.clients[c];
      && c in s.m.queues
      && (Got(s, c) == Matching(k.filter, Newer(s.published, k.last.value))
          <==> NothingLost(s.published, k.joined, bufferSize, k.filter, k.last.value)
               && NothingOld(s.published, k.joined, k.filter, k.last.value))
  {
    var s := Run(Started(bufferSize, 0, attached, top), steps);
    ReconnectDelivers(bufferSize, attached, top, steps, c);
    var k := s.clients[c];
    var p, n, f, last := s.published, k.joined, k.filter, k.last.value;
    if NothingLost(p, n, bufferSize, f, last) && NothingOld(p, n, f, last) {
      RingHoldsTheRest(p, n, bufferSize, f, last);
    }
    if Got(s, c) == Matching(f, Newer(p, last)) { EachFailureShows(p, n, bufferSize, f, last); }
  }

  /** So it does if the ring has only lost events up to L, and L is no larger than the counter
      was at the reconnect. */
  lemma ReconnectMissesNothing(bufferSize: nat, attached: bool, top: nat, steps: seq<Step>, c: ClientId)
    requires var s := Run(Started(bufferSize, 0, attached, top), steps);
      c in s.clients && s.clients[c].last.Some? && s.clients[c].left.None? && IdsAscend(s.published)
    requires var s := Run(Started(bufferSize, 0, attached, top), steps);
      var k := s.clients[c];
      && k.last.value <= k.counter
      && forall i :: 0 <= i < k.joined - bufferSize && i < |s.published| ==> s.published[i].id <= k.last.value
    ensures var s := Run(Started(bufferSize, 0, attached, top), steps);
      && c in s.m.queues
      && Got(s, c) == Matching(s.clients[c].filter, Newer(s.published, s.clients[c].last.value))
  {
    ClientInvRun(bufferSize, 0, attached, top, steps, c);
    ReconnectMissesNothingExactly(bufferSize, attached, top, steps, c);
  }

  // ------------------------------------------------------- what "3x" means

  function OneClient(queue: seq<Item>, fulls: map<ClientId, seq<real>>): Manager {
    Manager(0, [], 10, 1, map["c" := Filter(None, None, None)], map["c" := queue], fulls)
  }

  lemma BeatsAndTakes()
    ensures Beat(OneClient([], map[]), 0.0) == OneClient([Heartbeat], map[])
    ensures Beat(OneClient([Heartbeat], map[]), 1.0) == OneClient([Heartbeat], map["c" := [1.0]])
    ensures Take(OneClient([Heartbeat], map["c" := [1.0]]), "c") == OneClient([], map["c" := [1.0]])
    ensures Beat(OneClient([], map["c" := [1.0]]), 2.0) == OneClient([Heartbeat], map["c" := [1.0]])
    ensures Beat(OneClient([Heartbeat], map["c" := [1.0]]), 3.0) == OneClient([Heartbeat], map["c" := [1.0, 3.0]])
    ensures Take(OneClient([Heartbeat], map["c" := [1.0, 3.0]]), "c") == OneClient([], map["c" := [1.0, 3.0]])
    ensures Beat(OneClient([], map["c" := [1.0, 3.0]]), 4.0) == OneClient([Heartbeat], map["c" := [1.0, 3.0]])
    ensures Beat(OneClient([Heartbeat], map["c" := [1.0, 3.0]]), 5.0).connections == map[]
  {
    BeatFits(map[], 0.0);
    BeatIsFull(map[], 1.0);
    SinceOne(1.0, 1.0 - WINDOW);
    assert Take(OneClient([Heartbeat], map["c" := [1.0]]), "c") == OneClient([], map["c" := [1.0]]);
    BeatFits(map["c" := [1.0]], 2.0);
    SinceTwo(1.0, 3.0, 3.0 - WINDOW);
    BeatIsFull(map["c" := [1.0]], 3.0);
    assert Take(OneClient([Heartbeat], map["c" := [1.0, 3.0]]), "c") == OneClient([], map["c" := [1.0, 3.0]]);
    BeatFits(map["c" := [1.0, 3.0]], 4.0);
    SinceThree(1.0, 3.0, 5.0, 5.0 - WINDOW);
    var m := OneClient([Heartbeat], map["c" := [1.0, 3.0]]);
    assert Retracked(m, "c", 5.0) == [1.0, 3.0, 5.0];
    assert OutcomeOf(m, "c", 5.0).Evicted?;
    assert Beat(m, 5.0).connections == map[];
  }

  function Alone(): System {
    Run(Started(10, 1, false, 0), [Connect("c", Filter(None, None, None), None)])
  }

  lemma AloneIs()
    ensures Alone().m == OneClient([], map[]) && Alone().clock == 0.0
  {
    var start, connect := Started(10, 1, false, 0), Connect("c", Filter(None, None, None), None);
    RunOneMore(start, [], connect);
    assert [] + [connect] == [connect] && Run(start, []) == start;
    StepsAreTheOperations(start, connect);
    assert Subscribe(start.m, "c", Filter(None, None, None)) == OneClient([], map[]);
  }

  lemma Ticked(steps: seq<Step>, now: real)
    requires now >= Run(Alone(), steps).clock
    ensures var s, t := Run(Alone(), steps), Run(Alone(), steps + [Tick(now)]); t.m == Beat(s.m, now) && t.clock == now
  {
    RunOneMore(Alone(), steps, Tick(now));
    StepsAreTheOperations(Run(Alone(), steps), Tick(now));
  }

  lemma Consumed(steps: seq<Step>, c: ClientId)
    requires var m := Run(Alone(), steps).m; c in m.queues && m.queues[c] != []
    ensures var s, t := Run(Alone(), steps), Run(Alone(), steps + [Consume(c)]);
      t.m == Take(s.m, c) && t.clock == s.clock
  {
    RunOneMore(Alone(), steps, Consume(c));
    StepsAreTheOperations(Run(Alone(), steps), Consume(c));
  }

  /** Twice a heartbeat fits and the next does not, and then the client takes an item. */
  function FullTwice(): seq<Step> {
    [Tick(0.0)] + [Tick(1.0)] + [Consume("c")] + [Tick(2.0)] + [Tick(3.0)] + [Consume("c")]
  }

  lemma TakenTwice()
    ensures Run(Alone(), FullTwice()).m == OneClient([], map["c" := [1.0, 3.0]])
    ensures Run(Alone(), FullTwice()).clock == 3.0
  {
    AloneIs();
    BeatsAndTakes();
    var a := [Tick(0.0)];
    var b := a + [Tick(1.0)];
    var c := b + [Consume("c")];
    var d := c + [Tick(2.0)];
    var e := d + [Tick(3.0)];
    assert [] + a == a && Run(Alone(), []) == Alone();
    Ticked([], 0.0);
    Ticked(a, 1.0);
    Consumed(b, "c");
    Ticked(c, 2.0);
    Ticked(d, 3.0);
    Consumed(e, "c");
  }

  /** Three full queues evict a client that connected and took an item after each of the
      first two: they need not be consecutive. */
  lemma ThreeFullsNeedNotBeConsecutive()
    ensures Run(Alone(), FullTwice()).m == OneClient([], map["c" := [1.0, 3.0]])
    ensures Run(Alone(), FullTwice() + [Tick(4.0)]).m == OneClient([Heartbeat], map["c" := [1.0, 3.0]])
    ensures Run(Alone(), FullTwice() + [Tick(4.0)] + [Tick(5.0)]).m.connections == map[]
  {
    TakenTwice();
    BeatsAndTakes();
    Ticked(FullTwice(), 4.0);
    Ticked(FullTwice() + [Tick(4.0)], 5.0);
  }

  lemma BeatFits(fulls: map<ClientId, seq<real>>, now: real)
    requires fulls.Keys <= {"c"}
    ensures Beat(OneClient([], fulls), now) == OneClient([Heartbeat], fulls)
  {
    var m := OneClient([], fulls);
    assert OutcomeOf(m, "c", now).Enqueued?;
    assert [] + [Heartbeat] == [Heartbeat];
    assert Beat(m, now).connections == m.connections;
    assert Beat(m, now).queues == map["c" := [Heartbeat]];
    assert Beat(m, now).fulls == fulls;
  }

  lemma BeatIsFull(fulls: map<ClientId, seq<real>>, now: real)
    requires fulls.Keys <= {"c"}
    requires |Retracked(OneClient([Heartbeat], fulls), "c", now)| < THRESHOLD
    ensures Beat(OneClient([Heartbeat], fulls), now)
            == OneClient([Heartbeat], map["c" := Retracked(OneClient([Heartbeat], fulls), "c", now)])
  {
    var m := OneClient([Heartbeat], fulls);
    assert OutcomeOf(m, "c", now).Dropped?;
    assert Beat(m, now).connections == m.connections;
    assert Beat(m, now).queues == m.queues;
    assert Beat(m, now).fulls == map["c" := Retracked(m, "c", now)];
  }

  lemma SinceOne(a: real, cutoff: real)
    requires a >= cutoff
    ensures Since([a], cutoff) == [a]
  {
    assert [a][1..] == [];
  }

  lemma SinceTwo(a: real, b: real, cutoff: real)
    requires a >= cutoff && b >= cutoff
    ensures Since([a] + [b], cutoff) == [a, b]
  {
    SinceAppend([a], [b], cutoff);
    SinceOne(a, cutoff);
    SinceOne(b, cutoff);
  }

  lemma SinceThree(a: real, b: real, c: real, cutoff: real)
    requires a >= cutoff && b >= cutoff && c >= cutoff
    ensures Since([a, b] + [c], cutoff) == [a, b, c]
  {
    SinceAppend([a, b], [c], cutoff);
    assert [a, b] == [a] + [b];
    SinceTwo(a, b, cutoff);
    SinceOne(c, cutoff);
  }
}
