/**
 The SSE connection manager: counter, ring buffer, client queues and the tracker of
 full queues. Each method is proved against a function on the manager's value.
 */
module SseManager {
  import opened Options
  import opened EventFilter

  type ClientId = string

  /** An event as its publisher hands it over, and as it is once numbered. */
  datatype Draft = Draft(eventType: string, data: string, dataUuid: Option<string>, company: Option<string>)

  datatype Event = Event(eventType: string, data: string, dataUuid: Option<string>,
                         company: Option<string>, id: nat)

  function Numbered(d: Draft, id: nat): Event {
    Event(d.eventType, d.data, d.dataUuid, d.company, id)
  }

  datatype Filter = Filter(company: Option<string>, dataUuid: Option<string>, pattern: Option<string>)

  /** A queue entry; Close is the `None` sentinel. */
  datatype Item = Send(event: Event) | Heartbeat | Close

  const HEARTBEAT: string := "__heartbeat__"

  /** Python truth of an optional text. */
  predicate Present(o: Option<string>) {
    o.Some? && o.value != ""
  }

  predicate ClientMatches(f: Filter, e: Event) {
    || e.eventType == HEARTBEAT
    || (&& (Present(f.company) && Present(e.company) ==> f.company == e.company)
        && (f.dataUuid.Some? ==> e.dataUuid == f.dataUuid)
        && LiveAccepts(f.pattern, e.eventType))
  }

  // ------------------------------------------------------ the manager's value

  /** `capacity` 0 is an unbounded queue. `queues` outlive the registry entry: the client's
      stream keeps reading its queue after it is removed. */
  datatype Manager = Manager(sequence: nat, ring: seq<Event>, bufferSize: nat, capacity: nat,
                             connections: map<ClientId, Filter>, queues: map<ClientId, seq<Item>>,
                             fulls: map<ClientId, seq<real>>)

  ghost predicate Consistent(m: Manager) {
    m.fulls.Keys <= m.connections.Keys <= m.queues.Keys
  }

  predicate Room(capacity: nat, queue: seq<Item>) {
    capacity == 0 || |queue| < capacity
  }

  /** Append to a deque with a maximum length. */
  function PushRing(ring: seq<Event>, e: Event, size: nat): seq<Event> {
    var r := ring + [e];
    if |r| > size then r[|r| - size..] else r
  }

  const THRESHOLD: nat := 3
  const WINDOW: real := 60.0

  function Since(times: seq<real>, cutoff: real): (r: seq<real>)
    ensures |r| <= |times|
  {
    if times == [] then []
    else (if times[0] >= cutoff then [times[0]] else []) + Since(times[1..], cutoff)
  }

  function Tracked(m: Manager, c: ClientId): seq<real> {
    if c in m.fulls then m.fulls[c] else []
  }

  /** The tracker entry after one more full queue. */
  function Retracked(m: Manager, c: ClientId, now: real): seq<real> {
    Since(Tracked(m, c) + [now], now - WINDOW)
  }

  /** What happens to one item offered to one client. */
  datatype Outcome = Enqueued | Dropped | Evicted

  function OutcomeOf(m: Manager, c: ClientId, now: real): Outcome
    requires c in m.queues
  {
    if Room(m.capacity, m.queues[c]) then Enqueued
    else if |Retracked(m, c, now)| >= THRESHOLD then Evicted
    else Dropped
  }

  /** Offer an item to a set of connected clients and evict those that failed too often. */
  function Offer(m: Manager, targets: set<ClientId>, item: Item, now: real): Manager
    requires Consistent(m) && targets <= m.connections.Keys
  {
    m.(connections := map c | c in m.connections && !(c in targets && OutcomeOf(m, c, now).Evicted?)
                        :: m.connections[c],
       queues := map c | c in m.queues
                   :: if c in targets && OutcomeOf(m, c, now).Enqueued? then m.queues[c] + [item] else m.queues[c],
       fulls := map c | c in m.connections && (if c in targets then OutcomeOf(m, c, now).Dropped?
                                                || (OutcomeOf(m, c, now).Enqueued? && c in m.fulls)
                                               else c in m.fulls)
                  :: if c in targets && OutcomeOf(m, c, now).Dropped? then Retracked(m, c, now) else m.fulls[c])
  }

  function Audience(m: Manager, e: Event): set<ClientId> {
    set c | c in m.connections && ClientMatches(m.connections[c], e)
  }

  /** The part of publish after the event has its number. */
  function Deliver(m: Manager, e: Event, now: real): Manager
    requires Consistent(m)
  {
    Offer(m.(ring := PushRing(m.ring, e, m.bufferSize)), Audience(m, e), Send(e), now)
  }

  /** The in-memory branch: the next counter value is the number. */
  function PublishCounted(m: Manager, d: Draft, now: real): Manager
    requires Consistent(m)
  {
    Deliver(m.(sequence := m.sequence + 1), Numbered(d, m.sequence + 1), now)
  }

  /** The ledger branch once the write has returned a sequence. */
  function PublishLedgered(m: Manager, d: Draft, ledgerSequence: nat, now: real): Manager
    requires Consistent(m)
  {
    Deliver(m.(sequence := if ledgerSequence > m.sequence then ledgerSequence else m.sequence),
            Numbered(d, ledgerSequence), now)
  }

  function Beat(m: Manager, now: real): Manager
    requires Consistent(m)
  {
    Offer(m, m.connections.Keys, Heartbeat, now)
  }

  function Subscribe(m: Manager, c: ClientId, f: Filter): Manager {
    m.(connections := m.connections[c := f], queues := m.queues[c := []])
  }

  function Unsubscribe(m: Manager, c: ClientId): Manager {
    if c in m.connections then m.(connections := m.connections - {c}, fulls := m.fulls - {c}) else m
  }

  /** What a replay adds to a queue that holds `held` items: the newer matching events of
      the ring, oldest first, until the queue is full. */
  function ReplayItems(ring: seq<Event>, f: Filter, last: int, capacity: nat, held: nat): seq<Event> {
    if ring == [] then []
    else if ring[0].id > last && ClientMatches(f, ring[0]) then
      if capacity == 0 || held < capacity then
        [ring[0]] + ReplayItems(ring[1..], f, last, capacity, held + 1)
      else []
    else ReplayItems(ring[1..], f, last, capacity, held)
  }

  function Sends(es: seq<Event>): seq<Item> {
    seq(|es|, i requires 0 <= i < |es| => Send(es[i]))
  }

  function Replay(m: Manager, c: ClientId, last: int): Manager
    requires Consistent(m)
  {
    if c !in m.connections then m
    else
      var more := ReplayItems(m.ring, m.connections[c], last, m.capacity, |m.queues[c]|);
      m.(queues := m.queues[c := m.queues[c] + Sends(more)])
  }

  function Drain(m: Manager): Manager
    requires Consistent(m)
  {
    m.(connections := map[], fulls := map[],
       queues := map c | c in m.queues
                   :: if c in m.connections && Room(m.capacity, m.queues[c])
                      then m.queues[c] + [Close] else m.queues[c])
  }

  /** The client's stream takes the head of its queue. */
  function Take(m: Manager, c: ClientId): Manager {
    if c in m.queues && m.queues[c] != [] then m.(queues := m.queues[c := m.queues[c][1..]]) else m
  }

  // ------------------------------------------------------ the fan-out halfway

  ghost predicate QueuesOffered(m: Manager, done: set<ClientId>, item: Item, now: real,
                                queues: map<ClientId, seq<Item>>)
  {
    && queues.Keys == m.queues.Keys
    && forall c :: c in m.queues ==>
         queues[c] == if c in done && OutcomeOf(m, c, now).Enqueued? then m.queues[c] + [item] else m.queues[c]
  }

  /** A client's tracker before and after its offer. */
  ghost predicate TrackerOffered(m: Manager, offered: bool, now: real, fulls: map<ClientId, seq<real>>, c: ClientId)
    requires c in m.queues
  {
    if offered && !OutcomeOf(m, c, now).Enqueued? then c in fulls && fulls[c] == Retracked(m, c, now)
    else (c in fulls <==> c in m.fulls) && (c in fulls ==> fulls[c] == m.fulls[c])
  }

  ghost predicate TrackersOffered(m: Manager, done: set<ClientId>, now: real, fulls: map<ClientId, seq<real>>)
    requires Consistent(m)
  {
    fulls.Keys <= m.connections.Keys && forall c :: c in m.connections ==> TrackerOffered(m, c in done, now, fulls, c)
  }

  ghost predicate Evicting(m: Manager, done: set<ClientId>, now: real, toEvict: set<ClientId>)
    requires done <= m.queues.Keys
  {
    forall c :: c in toEvict <==> c in done && OutcomeOf(m, c, now).Evicted?
  }

  /** The queues, trackers and eviction list once `done` have been offered the item. */
  ghost predicate OfferedTo(m: Manager, done: set<ClientId>, item: Item, now: real,
                            queues: map<ClientId, seq<Item>>, fulls: map<ClientId, seq<real>>,
                            toEvict: set<ClientId>)
    requires Consistent(m) && done <= m.connections.Keys
  {
    QueuesOffered(m, done, item, now, queues) && TrackersOffered(m, done, now, fulls) && Evicting(m, done, now, toEvict)
  }

  lemma RoomMakesEnqueued(m: Manager, done: set<ClientId>, c: ClientId, item: Item, now: real,
                          queues: map<ClientId, seq<Item>>, fulls: map<ClientId, seq<real>>, toEvict: set<ClientId>)
    requires Consistent(m) && done <= m.connections.Keys && c in m.connections && c !in done
    requires OfferedTo(m, done, item, now, queues, fulls, toEvict) && Room(m.capacity, queues[c])
    ensures OfferedTo(m, done + {c}, item, now, queues[c := queues[c] + [item]], fulls, toEvict)
  {
  }

  lemma NoRoomMakesTracked(m: Manager, done: set<ClientId>, c: ClientId, item: Item, now: real,
                           queues: map<ClientId, seq<Item>>, fulls: map<ClientId, seq<real>>, toEvict: set<ClientId>)
    requires Consistent(m) && done <= m.connections.Keys && c in m.connections && c !in done
    requires OfferedTo(m, done, item, now, queues, fulls, toEvict) && !Room(m.capacity, queues[c])
    ensures var tracked := Since((if c in fulls then fulls[c] else []) + [now], now - WINDOW);
      OfferedTo(m, done + {c}, item, now, queues, fulls[c := tracked],
                if |tracked| >= THRESHOLD then toEvict + {c} else toEvict)
  {
    var tracked := Since((if c in fulls then fulls[c] else []) + [now], now - WINDOW);
    assert TrackerOffered(m, false, now, fulls, c);
    assert tracked == Retracked(m, c, now);
  }

  lemma OfferedOneMore(m: Manager, done: set<ClientId>, c: ClientId, item: Item, now: real,
                       queues: map<ClientId, seq<Item>>, fulls: map<ClientId, seq<real>>, toEvict: set<ClientId>,
                       queues': map<ClientId, seq<Item>>, fulls': map<ClientId, seq<real>>, toEvict': set<ClientId>)
    requires Consistent(m) && done <= m.connections.Keys && c in m.connections && c !in done
    requires OfferedTo(m, done, item, now, queues, fulls, toEvict)
    requires if Room(m.capacity, queues[c])
             then queues' == queues[c := queues[c] + [item]] && fulls' == fulls && toEvict' == toEvict
             else && queues' == queues
                  && fulls' == fulls[c := Since((if c in fulls then fulls[c] else []) + [now], now - WINDOW)]
                  && toEvict' == if |fulls'[c]| >= THRESHOLD then toEvict + {c} else toEvict
    ensures OfferedTo(m, done + {c}, item, now, queues', fulls', toEvict')
  {
    if Room(m.capacity, queues[c]) {
      RoomMakesEnqueued(m, done, c, item, now, queues, fulls, toEvict);
    } else {
      NoRoomMakesTracked(m, done, c, item, now, queues, fulls, toEvict);
    }
  }

  lemma OfferedConnections(m: Manager, targets: set<ClientId>, item: Item, now: real,
                           queues: map<ClientId, seq<Item>>, fulls: map<ClientId, seq<real>>, toEvict: set<ClientId>)
    requires Consistent(m) && targets <= m.connections.Keys
    requires OfferedTo(m, targets, item, now, queues, fulls, toEvict)
    ensures toEvict <= m.connections.Keys
    ensures Offer(m, targets, item, now).connections == m.connections - toEvict
    ensures forall c :: c in toEvict ==> !Room(m.capacity, queues[c])
  {
  }

  lemma OfferedQueues(m: Manager, targets: set<ClientId>, item: Item, now: real,
                      queues: map<ClientId, seq<Item>>, fulls: map<ClientId, seq<real>>, toEvict: set<ClientId>)
    requires Consistent(m) && targets <= m.connections.Keys
    requires OfferedTo(m, targets, item, now, queues, fulls, toEvict)
    ensures Offer(m, targets, item, now).queues == queues
  {
  }

  lemma OfferedTracker(m: Manager, targets: set<ClientId>, item: Item, now: real,
                       queues: map<ClientId, seq<Item>>, fulls: map<ClientId, seq<real>>, toEvict: set<ClientId>,
                       c: ClientId)
    requires Consistent(m) && targets <= m.connections.Keys
    requires OfferedTo(m, targets, item, now, queues, fulls, toEvict) && c in m.connections
    ensures var goal := Offer(m, targets, item, now).fulls;
      (c in goal <==> c in fulls && c !in toEvict) && (c in goal ==> goal[c] == fulls[c])
  {
  }

  lemma OfferedFulls(m: Manager, targets: set<ClientId>, item: Item, now: real,
                     queues: map<ClientId, seq<Item>>, fulls: map<ClientId, seq<real>>, toEvict: set<ClientId>)
    requires Consistent(m) && targets <= m.connections.Keys
    requires OfferedTo(m, targets, item, now, queues, fulls, toEvict)
    ensures Offer(m, targets, item, now).fulls == fulls - toEvict
  {
    var goal := Offer(m, targets, item, now).fulls;
    forall c | c in m.connections
      ensures (c in goal <==> c in fulls && c !in toEvict) && (c in goal ==> goal[c] == fulls[c])
    {
      OfferedTracker(m, targets, item, now, queues, fulls, toEvict, c);
    }
  }

  lemma OfferedIsOffer(m: Manager, targets: set<ClientId>, item: Item, now: real,
                       queues: map<ClientId, seq<Item>>, fulls: map<ClientId, seq<real>>, toEvict: set<ClientId>)
    requires Consistent(m) && targets <= m.connections.Keys
    requires OfferedTo(m, targets, item, now, queues, fulls, toEvict)
    ensures toEvict <= m.connections.Keys
    ensures forall c :: c in toEvict ==> !Room(m.capacity, queues[c])
    ensures Offer(m, targets, item, now)
            == m.(connections := m.connections - toEvict, queues := queues, fulls := fulls - toEvict)
  {
    OfferedConnections(m, targets, item, now, queues, fulls, toEvict);
    OfferedQueues(m, targets, item, now, queues, fulls, toEvict);
    OfferedFulls(m, targets, item, now, queues, fulls, toEvict);
  }

  /** Everyone but those left to do has the close marker if there was room. */
  ghost predicate Drained(m: Manager, todo: set<ClientId>, queues: map<ClientId, seq<Item>>) {
    && queues.Keys == m.queues.Keys
    && forall c :: c in m.queues ==>
         queues[c] == if c in m.connections && c !in todo && Room(m.capacity, m.queues[c])
                      then m.queues[c] + [Close] else m.queues[c]
  }

  /** The queue after a replay of this rest of the ring. */
  function Replayed(rest: seq<Event>, f: Filter, last: int, capacity: nat, queue: seq<Item>): seq<Item> {
    queue + Sends(ReplayItems(rest, f, last, capacity, |queue|))
  }

  lemma ReplayedOne(rest: seq<Event>, f: Filter, last: int, capacity: nat, queue: seq<Item>)
    requires rest != []
    ensures Replayed(rest, f, last, capacity, queue) ==
            if rest[0].id > last && ClientMatches(f, rest[0]) then
              if Room(capacity, queue) then Replayed(rest[1..], f, last, capacity, queue + [Send(rest[0])]) else queue
            else Replayed(rest[1..], f, last, capacity, queue)
  {
    var e := rest[0];
    if e.id > last && ClientMatches(f, e) {
      if Room(capacity, queue) {
        var more := ReplayItems(rest[1..], f, last, capacity, |queue| + 1);
        assert ReplayItems(rest, f, last, capacity, |queue|) == [e] + more;
        assert Sends([e] + more) == [Send(e)] + Sends(more);
        assert queue + ([Send(e)] + Sends(more)) == (queue + [Send(e)]) + Sends(more);
      } else {
        assert ReplayItems(rest, f, last, capacity, |queue|) == [];
      }
    }
  }

  lemma DrainOneMore(m: Manager, todo: set<ClientId>, c: ClientId, queues: map<ClientId, seq<Item>>)
    requires Consistent(m) && c in m.connections && c !in todo && Drained(m, todo + {c}, queues)
    ensures Drained(m, todo, if Room(m.capacity, queues[c]) then queues[c := queues[c] + [Close]] else queues)
  {
  }

  // -------------------------------------------------------------- the object

  class ConnectionManager {
    var sequence: nat
    var ring: seq<Event>
    const bufferSize: nat
    const capacity: nat
    var connections: map<ClientId, Filter>
    var queues: map<ClientId, seq<Item>>
    var fulls: map<ClientId, seq<real>>

    ghost function Value(): Manager
      reads this
    {
      Manager(sequence, ring, bufferSize, capacity, connections, queues, fulls)
    }

    ghost predicate Valid()
      reads this
    {
      Consistent(Value())
    }

    constructor (bufferSize: nat, capacity: nat)
      ensures Valid()
      ensures Value() == Manager(0, [], bufferSize, capacity, map[], map[], map[])
    {
      this.bufferSize, this.capacity := bufferSize, capacity;
      sequence, ring, connections, queues, fulls := 0, [], map[], map[], map[];
    }

    /** At startup: never number below what the ledger already holds. */
    method SyncSequence(maxSequence: nat)
      requires Valid()
      modifies this`sequence
      ensures Valid()
      ensures sequence == if maxSequence > old(sequence) then maxSequence else old(sequence)
    {
      if maxSequence > sequence {
        sequence := maxSequence;
      }
    }

    method SubscribeClient(c: ClientId, f: Filter)
      requires Valid() && c !in queues
      modifies this`connections, this`queues
      ensures Valid() && Value() == Subscribe(old(Value()), c, f)
    {
      connections := connections[c := f];
      queues := queues[c := []];
    }

    method UnsubscribeClient(c: ClientId)
      requires Valid()
      modifies this`connections, this`fulls
      ensures Valid() && Value() == Unsubscribe(old(Value()), c)
    {
      if c in connections {
        connections := connections - {c};
        fulls := fulls - {c};
      }
    }

    /** The times from a cutoff on. */
    static method Within(times: seq<real>, cutoff: real) returns (kept: seq<real>)
      ensures kept == Since(times, cutoff)
    {
      kept := [];
      for i := 0 to |times|
        invariant kept + Since(times[i..], cutoff) == Since(times, cutoff)
      {
        assert times[i..][1..] == times[i + 1..];
        if times[i] >= cutoff {
          kept := kept + [times[i]];
        }
      }
      assert times[|times|..] == [];
    }

    /** One more full queue; the result says whether the client must go. */
    method TrackQueueFull(c: ClientId, now: real) returns (evict: bool)
      requires Valid() && c in connections
      modifies this`fulls
      ensures Valid()
      ensures fulls == old(fulls)[c := Retracked(old(Value()), c, now)]
      ensures evict <==> |Retracked(old(Value()), c, now)| >= THRESHOLD
    {
      var times := if c in fulls then fulls[c] else [];
      var kept := Within(times + [now], now - WINDOW);
      fulls := fulls[c := kept];
      evict := |kept| >= THRESHOLD;
    }

    /** The close marker goes in if there is room; the client is removed either way. */
    method EvictZombie(c: ClientId)
      requires Valid()
      modifies this`connections, this`queues, this`fulls
      ensures Valid()
      ensures c !in old(connections) ==> Value() == old(Value())
      ensures c in old(connections) ==>
                Value() == Unsubscribe(old(Value()), c).(queues := if Room(capacity, old(queues)[c])
                             then old(queues)[c := old(queues)[c] + [Close]] else old(queues))
    {
      if c in connections {
        if Room(capacity, queues[c]) {
          queues := queues[c := queues[c] + [Close]];
        }
        UnsubscribeClient(c);
      }
    }

    /** The fan-out loop: everyone with room gets the item, the others are tracked. */
    method OfferToEach(targets: set<ClientId>, item: Item, now: real) returns (toEvict: set<ClientId>)
      requires Valid() && targets <= connections.Keys
      modifies this`queues, this`fulls
      ensures Valid()
      ensures OfferedTo(old(Value()), targets, item, now, queues, fulls, toEvict)
    {
      ghost var m := Value();
      toEvict := {};
      var todo := targets;
      while todo != {}
        invariant todo <= targets && Valid()
        invariant OfferedTo(m, targets - todo, item, now, queues, fulls, toEvict)
        decreases todo
      {
        var c :| c in todo;
        ghost var done := targets - todo;
        ghost var queues0, fulls0, toEvict0 := queues, fulls, toEvict;
        if Room(capacity, queues[c]) {
          queues := queues[c := queues[c] + [item]];
        } else {
          var evict := TrackQueueFull(c, now);
          if evict {
            toEvict := toEvict + {c};
          }
        }
        OfferedOneMore(m, done, c, item, now, queues0, fulls0, toEvict0, queues, fulls, toEvict);
        todo := todo - {c};
        assert targets - todo == done + {c};
      }
      assert targets - todo == targets;
    }

    method EvictAll(evicted: set<ClientId>)
      requires Valid() && evicted <= connections.Keys
      requires forall c :: c in evicted ==> !Room(capacity, queues[c])
      modifies this`connections, this`queues, this`fulls
      ensures Valid()
      ensures queues == old(queues)
      ensures connections == old(connections) - evicted && fulls == old(fulls) - evicted
    {
      var left := evicted;
      while left != {}
        invariant left <= evicted && Valid()
        invariant queues == old(queues)
        invariant connections == old(connections) - (evicted - left)
        invariant fulls == old(fulls) - (evicted - left)
        decreases left
      {
        var c :| c in left;
        EvictZombie(c);
        left := left - {c};
        assert evicted - left == (evicted - left - {c}) + {c};
      }
      assert evicted - left == evicted;
    }

    /** Fan-out, then the evictions. */
    method OfferItem(targets: set<ClientId>, item: Item, now: real)
      requires Valid() && targets <= connections.Keys
      modifies this`connections, this`queues, this`fulls
      ensures Valid() && Value() == Offer(old(Value()), targets, item, now)
    {
      ghost var m := Value();
      var toEvict := OfferToEach(targets, item, now);
      OfferedIsOffer(m, targets, item, now, queues, fulls, toEvict);
      EvictAll(toEvict);
    }

    method DeliverEvent(e: Event, now: real)
      requires Valid()
      modifies this`ring, this`connections, this`queues, this`fulls
      ensures Valid() && Value() == Deliver(old(Value()), e, now)
    {
      ring := PushRing(ring, e, bufferSize);
      var targets := set c | c in connections && ClientMatches(connections[c], e);
      assert targets == Audience(old(Value()), e);
      OfferItem(targets, Send(e), now);
    }

    /** No ledger, no tenant, or a failed ledger write. */
    method PublishFromCounter(d: Draft, now: real)
      requires Valid()
      modifies this
      ensures Valid() && Value() == PublishCounted(old(Value()), d, now)
    {
      sequence := sequence + 1;
      DeliverEvent(Numbered(d, sequence), now);
    }

    method PublishFromLedger(d: Draft, ledgerSequence: nat, now: real)
      requires Valid()
      modifies this
      ensures Valid() && Value() == PublishLedgered(old(Value()), d, ledgerSequence, now)
    {
      if ledgerSequence > sequence {
        sequence := ledgerSequence;
      }
      DeliverEvent(Numbered(d, ledgerSequence), now);
    }

    method SendHeartbeat(now: real)
      requires Valid()
      modifies this`connections, this`queues, this`fulls
      ensures Valid() && Value() == Beat(old(Value()), now)
    {
      OfferItem(connections.Keys, Heartbeat, now);
    }

    /** The loop over the ring: newer matching events, until the queue is full. */
    method Refill(f: Filter, held: seq<Item>, last: int) returns (queue: seq<Item>)
      ensures queue == Replayed(ring, f, last, capacity, held)
    {
      queue := held;
      var i := 0;
      assert ring[0..] == ring;
      while i < |ring|
        invariant 0 <= i <= |ring|
        invariant Replayed(ring[i..], f, last, capacity, queue) == Replayed(ring, f, last, capacity, held)
      {
        var e := ring[i];
        ReplayedOne(ring[i..], f, last, capacity, queue);
        assert ring[i..][1..] == ring[i + 1..];
        if e.id > last && ClientMatches(f, e) {
          if !Room(capacity, queue) {
            return;
          }
          queue := queue + [Send(e)];
        }
        i := i + 1;
      }
    }

    method ReplayTo(c: ClientId, last: int)
      requires Valid()
      modifies this`queues
      ensures Valid() && Value() == Replay(old(Value()), c, last)
    {
      if c !in connections {
        return;
      }
      var queue := Refill(connections[c], queues[c], last);
      queues := queues[c := queue];
    }

    method DrainAll()
      requires Valid()
      modifies this`connections, this`queues, this`fulls
      ensures Valid() && Value() == Drain(old(Value()))
    {
      ghost var m := Value();
      var todo := connections.Keys;
      while todo != {}
        invariant todo <= m.connections.Keys && Valid()
        invariant connections == m.connections && fulls == m.fulls && Drained(m, todo, queues)
        decreases todo
      {
        var c :| c in todo;
        ghost var left := todo - {c};
        assert left + {c} == todo;
        DrainOneMore(m, left, c, queues);
        todo := todo - {c};
        if Room(capacity, queues[c]) {
          queues := queues[c := queues[c] + [Close]];
        }
      }
      connections, fulls := map[], map[];
      assert queues == Drain(m).queues;
    }

    method TakeItem(c: ClientId) returns (item: Option<Item>)
      requires Valid()
      modifies this`queues
      ensures Valid() && Value() == Take(old(Value()), c)
      ensures item == if c in old(queues) && old(queues)[c] != [] then Some(old(queues)[c][0]) else None
    {
      item := None;
      if c in queues && queues[c] != [] {
        item := Some(queues[c][0]);
        queues := queues[c := queues[c][1..]];
      }
    }
  }
}
