/**
 Runs of the SSE service: publishes that suspend at the ledger write, connects with
 replay, heartbeats, consumers and disconnects, in any order. History variables record
 what was published and what was offered to each client.
 */
module SseRuns {
  import opened Options
  import opened SseManager

  /** One item offered to a client during fan-out, and what became of it. */
  datatype Offering = Offering(item: Item, at: real, outcome: Outcome)

  /** A client's history: `joined` and `left` are lengths of the published log, `counter`
      is the manager's counter at the connect. */
  datatype Client = Client(filter: Filter, last: Option<int>, joined: nat, counter: nat, left: Option<nat>,
                           replayed: seq<Event>, offers: seq<Offering>, closed: bool, taken: seq<Item>)

  /** `pending` holds the publishes suspended at the ledger; a failed write has no sequence.
      `floor` is the counter after the startup sync. */
  datatype System = System(m: Manager, attached: bool, floor: nat, nextSequence: nat,
                           pending: map<nat, (Draft, Option<nat>)>, clock: real,
                           published: seq<Event>, clients: map<ClientId, Client>)

  datatype Step = Begin(publish: nat, draft: Draft, skipped: nat, written: bool)
                | Finish(publish: nat, now: real)
                | Counted(draft: Draft, now: real)
                | Connect(client: ClientId, filter: Filter, last: Option<int>)
                | Disconnect(client: ClientId)
                | Tick(now: real)
                | Shutdown
                | Consume(client: ClientId)

  /** After startup: the counter stands at the ledger's maximum, later sequences are larger. */
  function Started(bufferSize: nat, capacity: nat, attached: bool, maxSequence: nat): System {
    System(Manager(maxSequence, [], bufferSize, capacity, map[], map[], map[]), attached, maxSequence,
           maxSequence + 1, map[], 0.0, [], map[])
  }

  predicate UsesLedger(s: System, d: Draft) {
    s.attached && Present(d.company)
  }

  /** Which steps can happen: clocks do not run backwards, client ids are fresh, a publish
      goes to the ledger exactly when one is attached and the event has a tenant. */
  predicate Enabled(s: System, step: Step) {
    match step
    case Begin(p, d, _, _) => p !in s.pending && UsesLedger(s, d)
    case Finish(p, now) => p in s.pending && now >= s.clock
    case Counted(d, now) => !UsesLedger(s, d) && now >= s.clock
    case Connect(c, _, _) => c !in s.clients && c !in s.m.queues
    case Disconnect(c) => c in s.m.connections
    case Tick(now) => now >= s.clock
    case Shutdown => true
    case Consume(c) => c in s.m.queues && s.m.queues[c] != []
  }

  function Offered(k: Client, item: Item, now: real, outcome: Outcome, published: nat): Client {
    k.(offers := k.offers + [Offering(item, now, outcome)],
       left := if outcome.Evicted? then Some(published) else k.left)
  }

  /** An item goes round; `m` is the manager just before the fan-out. */
  function FanOut(s: System, m: Manager, published: seq<Event>, targets: set<ClientId>, item: Item, now: real): System
    requires Consistent(m) && targets <= m.connections.Keys
  {
    s.(m := Offer(m, targets, item, now), clock := now, published := published,
       clients := map c | c in s.clients ::
                    if c in targets then Offered(s.clients[c], item, now, OutcomeOf(m, c, now), |published|)
                    else s.clients[c])
  }

  /** A numbered event is appended to the ring and goes to its audience. */
  function Deliveries(s: System, sequence: nat, e: Event, now: real): System
    requires Consistent(s.m)
  {
    var m := s.m.(sequence := sequence, ring := PushRing(s.m.ring, e, s.m.bufferSize));
    FanOut(s, m, s.published + [e], Audience(m, e), Send(e), now)
  }

  function Max(a: nat, b: nat): nat { if a > b then a else b }

  function Next(s: System, step: Step): System
    requires Consistent(s.m)
  {
    if !Enabled(s, step) then s else
    match step
    case Begin(p, d, skipped, written) =>
      var q := s.nextSequence + skipped;
      s.(nextSequence := q + 1, pending := s.pending[p := (d, if written then Some(q) else None)])
    case Finish(p, now) =>
      var (d, q) := s.pending[p];
      var id := if q.Some? then q.value else s.m.sequence + 1;
      Deliveries(s.(pending := s.pending - {p}), Max(id, s.m.sequence), Numbered(d, id), now)
    case Counted(d, now) => Deliveries(s, s.m.sequence + 1, Numbered(d, s.m.sequence + 1), now)
    case Connect(c, f, last) =>
      var m := Subscribe(s.m, c, f);
      var replayed := if last.Some? then ReplayItems(m.ring, f, last.value, m.capacity, 0) else [];
      s.(m := if last.Some? then Replay(m, c, last.value) else m,
         clients := s.clients[c := Client(f, last, |s.published|, s.m.sequence, None, replayed, [], false, [])])
    case Disconnect(c) =>
      s.(m := Unsubscribe(s.m, c),
         clients := map k | k in s.clients ::
                      if k == c then s.clients[k].(left := Some(|s.published|)) else s.clients[k])
    case Tick(now) => FanOut(s, s.m, s.published, s.m.connections.Keys, Heartbeat, now)
    case Shutdown =>
      s.(m := Drain(s.m),
         clients := map k | k in s.clients ::
                      if k in s.m.connections
                      then s.clients[k].(left := Some(|s.published|),
                                         closed := k in s.m.queues && Room(s.m.capacity, s.m.queues[k]))
                      else s.clients[k])
    case Consume(c) =>
      s.(m := Take(s.m, c),
         clients := map k | k in s.clients ::
                      if k == c then s.clients[k].(taken := s.clients[k].taken + [s.m.queues[c][0]])
                      else s.clients[k])
  }

  /** The steps are the manager's own operations. */
  lemma StepsAreTheOperations(s: System, step: Step)
    requires Consistent(s.m) && Enabled(s, step)
    ensures Next(s, step).m ==
      match step
      case Begin(_, _, _, _) => s.m
      case Finish(p, now) =>
        var (d, q) := s.pending[p];
        if q.Some? then PublishLedgered(s.m, d, q.value, now) else PublishCounted(s.m, d, now)
      case Counted(d, now) => PublishCounted(s.m, d, now)
      case Connect(c, f, last) =>
        if last.Some? then Replay(Subscribe(s.m, c, f), c, last.value) else Subscribe(s.m, c, f)
      case Disconnect(c) => Unsubscribe(s.m, c)
      case Tick(now) => Beat(s.m, now)
      case Shutdown => Drain(s.m)
      case Consume(c) => Take(s.m, c)
  {
    if step.Finish? || step.Counted? {
      var d := if step.Counted? then step.draft else s.pending[step.publish].0;
      var id := if step.Finish? && s.pending[step.publish].1.Some? then s.pending[step.publish].1.value
                else s.m.sequence + 1;
      var e, m1, m2 := Numbered(d, id), s.m.(sequence := Max(id, s.m.sequence)),
        s.m.(sequence := Max(id, s.m.sequence), ring := PushRing(s.m.ring, Numbered(d, id), s.m.bufferSize));
      assert Audience(m1, e) == Audience(m2, e);
    }
  }

  lemma StaysConsistent(s: System, step: Step)
    requires Consistent(s.m)
    ensures Consistent(Next(s, step).m)
  {
    if Enabled(s, step) && (step.Finish? || step.Counted? || step.Tick?) {
      var t := Next(s, step);
      assert t.m.fulls.Keys <= t.m.connections.Keys;
    }
  }

  function Run(start: System, steps: seq<Step>): (s: System)
    requires Consistent(start.m)
    ensures Consistent(s.m)
  {
    if steps == [] then start
    else
      var before := Run(start, steps[..|steps| - 1]);
      StaysConsistent(before, steps[|steps| - 1]);
      Next(before, steps[|steps| - 1])
  }

  lemma RunOneMore(start: System, steps: seq<Step>, step: Step)
    requires Consistent(start.m)
    ensures Run(start, steps + [step]) == Next(Run(start, steps), step)
  {
    assert (steps + [step])[..|steps|] == steps;
  }
}
