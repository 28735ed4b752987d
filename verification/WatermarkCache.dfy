/**
 The watermark cache under interleaving. A write takes its sequence, commits, and only then
 invalidates; a watermark request suspends between its miss and its read, and again between
 the read and filling the cache; a prune commits batch by batch. Each part is a step of its
 own here.
 */
module WatermarkCache {
  import opened Options
  import opened Ledger

  /** What a request read, and where it stood when it read. `seen` and `prunes` are history. */
  datatype Reading = Reading(company: string, at: real, response: Watermark,
                             base: seq<Row>, seen: nat, prunes: nat)

  /** How far a write is: its row has a sequence, or is visible and the cache not yet told. */
  datatype Phase = Flying(row: Row) | Landed(company: string)

  /** `log` is every row in the order of the commits, `prunes` counts prunes, `fills` remembers
      for each cached tenant the reading behind the entry and how long the log was at the fill. */
  datatype State = State(rows: seq<Row>, next: nat, cache: map<string, Cached>,
                         readings: map<nat, Reading>, writing: map<nat, Phase>,
                         log: seq<Row>, prunes: nat, fills: map<string, (Reading, nat)>)

  const START := State([], 1, map[], map[], map[], [], 0, map[])

  datatype Step = Insert(writer: nat, company: string, eventType: string, timestamp: int)
                | Commit(writer: nat)
                | Abort(writer: nat)
                | Invalidate(writer: nat)
                | Read(reader: nat, company: string, now: real, counts: Counts)
                | Fill(reader: nat)
                | Prune(gone: set<nat>)

  /** A step of an actor that is not at that point leaves everything as it is. A read can come
      although the cache has an entry by then: its request missed earlier. */
  function Next(s: State, step: Step): State {
    match step
    case Insert(w, company, e, t) =>
      if w in s.writing then s
      else s.(next := s.next + 1, writing := s.writing[w := Flying(Row(s.next, e, "", t, None, company))])
    case Commit(w) =>
      if w in s.writing && s.writing[w].Flying? then
        var r := s.writing[w].row;
        s.(rows := Place(s.rows, r), writing := s.writing[w := Landed(r.company)], log := s.log + [r])
      else s
    case Abort(w) => if w in s.writing && s.writing[w].Flying? then s.(writing := s.writing - {w}) else s
    case Invalidate(w) =>
      if w in s.writing && s.writing[w].Landed?
      then s.(writing := s.writing - {w}, cache := s.cache - {s.writing[w].company}) else s
    case Read(d, company, now, counts) =>
      if d in s.readings then s
      else
        var reading := Reading(company, now, FreshWatermark(s.rows, company, counts), s.rows, |s.log|, s.prunes);
        s.(readings := s.readings[d := reading])
    case Fill(d) =>
      if d !in s.readings then s
      else
        var reading := s.readings[d];
        s.(readings := s.readings - {d},
           cache := s.cache[reading.company := Cached(reading.at, reading.response)],
           fills := s.fills[reading.company := (reading, |s.log|)])
    case Prune(gone) => s.(rows := Delete(s.rows, gone), prunes := s.prunes + 1)
  }

  function Run(steps: seq<Step>): State {
    if steps == [] then START else Next(Run(steps[..|steps| - 1]), steps[|steps| - 1])
  }

  // -------------------------------------------------------------- invariant

  predicate InFlight(s: State, w: nat) {
    w in s.writing && s.writing[w].Flying?
  }

  ghost predicate Numbered(rows: seq<Row>, next: nat) {
    Ascending(rows) && forall i :: 0 <= i < |rows| ==> 1 <= rows[i].sequence < next
  }

  ghost predicate FlightsOk(s: State) {
    && (forall w :: InFlight(s, w) ==>
          1 <= s.writing[w].row.sequence < s.next && !Assigned(s.rows, s.writing[w].row.sequence))
    && (forall w, v :: InFlight(s, w) && InFlight(s, v) && w != v ==>
          s.writing[w].row.sequence != s.writing[v].row.sequence)
  }

  /** The table is the base with more rows committed to it. */
  ghost predicate Grown(base: seq<Row>, more: seq<Row>, rows: seq<Row>) {
    && (forall x :: x in rows <==> x in base || x in more)
    && (forall x :: x in more ==> !Assigned(base, x.sequence))
  }

  ghost predicate ReadingOk(s: State, r: Reading) {
    && r.seen <= |s.log| && r.prunes <= s.prunes && Numbered(r.base, s.next)
    && r.response.latest == Latest(r.base, r.company)
    && r.response.oldest == Oldest(r.base, r.company)
    && (r.prunes == s.prunes ==> Grown(r.base, s.log[r.seen..], s.rows))
  }

  /** A committed write of the tenant has still to invalidate. */
  ghost predicate Outstanding(s: State, company: string) {
    exists w :: w in s.writing && s.writing[w] == Landed(company)
  }

  ghost predicate EntryOk(s: State, company: string) {
    && company in s.fills
    && var (r, filled) := s.fills[company];
       && company in s.cache && r.company == company && s.cache[company] == Cached(r.at, r.response)
       && r.seen <= filled <= |s.log| && ReadingOk(s, r)
       && (HasTenant(s.log[filled..], company) ==> Outstanding(s, company))
  }

  ghost predicate Inv(s: State) {
    && Numbered(s.rows, s.next) && s.next >= 1 && FlightsOk(s)
    && (forall d :: d in s.readings ==> ReadingOk(s, s.readings[d]))
    && (forall c :: c in s.cache ==> EntryOk(s, c))
  }

  lemma GrownByOne(base: seq<Row>, more: seq<Row>, rows: seq<Row>, r: Row)
    requires Grown(base, more, rows) && !Assigned(rows, r.sequence)
    ensures Grown(base, more + [r], Place(rows, r))
  {
  }

  lemma ReadingSurvives(s: State, step: Step, r: Reading)
    requires Inv(s) && ReadingOk(s, r)
    ensures ReadingOk(Next(s, step), r)
  {
    var t := Next(s, step);
    if step.Commit? && InFlight(s, step.writer) {
      var row := s.writing[step.writer].row;
      assert t.log[r.seen..] == s.log[r.seen..] + [row];
      if r.prunes == s.prunes { GrownByOne(r.base, s.log[r.seen..], s.rows, row); }
    }
  }

  lemma EntrySurvives(s: State, step: Step, c: string)
    requires Inv(s) && c in s.cache && c in Next(s, step).cache
    requires step.Fill? && step.reader in s.readings ==> s.readings[step.reader].company != c
    ensures EntryOk(Next(s, step), c)
  {
    var t := Next(s, step);
    var (r, filled) := s.fills[c];
    ReadingSurvives(s, step, r);
    if Outstanding(s, c) {
      var w :| w in s.writing && s.writing[w] == Landed(c);
      assert w in t.writing && t.writing[w] == Landed(c);
    } else if step.Commit? && InFlight(s, step.writer) {
      var row := s.writing[step.writer].row;
      assert t.log[filled..] == s.log[filled..] + [row];
      HasTenantAppend(s.log[filled..], row, c);
      assert t.writing[step.writer] == Landed(row.company);
    }
  }

  lemma HasTenantAppend(rows: seq<Row>, r: Row, c: string)
    ensures HasTenant(rows + [r], c) <==> HasTenant(rows, c) || r.company == c
  {
    if HasTenant(rows, c) {
      var i :| 0 <= i < |rows| && rows[i].company == c;
      assert (rows + [r])[i].company == c;
    }
    if r.company == c { assert (rows + [r])[|rows|].company == c; }
  }

  lemma PlaceKeepsNumbers(rows: seq<Row>, next: nat, r: Row)
    requires Numbered(rows, next) && 1 <= r.sequence < next && !Assigned(rows, r.sequence)
    ensures Numbered(Place(rows, r), next)
    ensures forall q :: Assigned(Place(rows, r), q) ==> Assigned(rows, q) || q == r.sequence
  {
    PlaceKeepsOrder(rows, r);
    var out := Place(rows, r);
    forall i | 0 <= i < |out| ensures out[i] == r || (out[i] in rows && Assigned(rows, out[i].sequence)) {
      assert out[i] in out;
      if out[i] != r { var j :| 0 <= j < |rows| && rows[j] == out[i]; }
    }
  }

  lemma DeleteKeepsNumbers(rows: seq<Row>, next: nat, gone: set<nat>)
    requires Numbered(rows, next)
    ensures Numbered(Delete(rows, gone), next)
    ensures forall q :: Assigned(Delete(rows, gone), q) ==> Assigned(rows, q)
  {
    var out := Delete(rows, gone);
    forall i | 0 <= i < |out| ensures out[i] in rows && Assigned(rows, out[i].sequence) {
      assert out[i] in out;
      var j :| 0 <= j < |rows| && rows[j] == out[i];
    }
  }

  lemma CommitStays(s: State, w: nat)
    requires Inv(s) && InFlight(s, w)
    ensures var t := Next(s, Commit(w)); Numbered(t.rows, t.next) && FlightsOk(t)
  {
    PlaceKeepsNumbers(s.rows, s.next, s.writing[w].row);
  }

  lemma TableStays(s: State, step: Step)
    requires Inv(s)
    ensures var t := Next(s, step); Numbered(t.rows, t.next) && t.next >= 1 && FlightsOk(t)
  {
    if step.Prune? { DeleteKeepsNumbers(s.rows, s.next, step.gone); }
    if step.Commit? && InFlight(s, step.writer) { CommitStays(s, step.writer); }
  }

  lemma InvStep(s: State, step: Step)
    requires Inv(s)
    ensures Inv(Next(s, step))
  {
    var t := Next(s, step);
    TableStays(s, step);
    forall d | d in t.readings ensures ReadingOk(t, t.readings[d]) {
      if d in s.readings { ReadingSurvives(s, step, s.readings[d]); }
    }
    forall c | c in t.cache ensures EntryOk(t, c) {
      if step.Fill? && step.reader in s.readings && s.readings[step.reader].company == c {
        ReadingSurvives(s, step, s.readings[step.reader]);
        assert t.log[|s.log|..] == [];
      } else {
        EntrySurvives(s, step, c);
      }
    }
  }

  lemma {:induction false} InvRun(steps: seq<Step>)
    ensures Inv(Run(steps))
  {
    if steps != [] {
      InvRun(steps[..|steps| - 1]);
      InvStep(Run(steps[..|steps| - 1]), steps[|steps| - 1]);
    }
  }

  // -------------------------------------------------------------- coherence

  /** The entry says of the ledger what a fresh query would say. */
  predicate Coherent(s: State, c: string)
    requires c in s.cache
  {
    && s.cache[c].response.latest == Latest(s.rows, c)
    && s.cache[c].response.oldest == Oldest(s.rows, c)
  }

  lemma Extremes(rows: seq<Row>, c: string) returns (low: Row, high: Row)
    requires Ascending(rows) && HasTenant(rows, c)
    ensures low in rows && low.company == c && low.sequence == Oldest(rows, c)
    ensures high in rows && high.company == c && high.sequence == Latest(rows, c)
    ensures forall x :: x in rows && x.company == c ==> low.sequence <= x.sequence <= high.sequence
  {
    OldestIsMinimum(rows, c);
    LatestIsMaximum(rows, c);
    var i :| 0 <= i < |rows| && rows[i].company == c && rows[i].sequence == Oldest(rows, c);
    var j :| 0 <= j < |rows| && rows[j].company == c && rows[j].sequence == Latest(rows, c);
    low, high := rows[i], rows[j];
  }

  /** Every row of the tenant among these lies strictly between the bounds. */
  ghost predicate StrictlyWithin(more: seq<Row>, c: string, oldest: nat, latest: nat) {
    forall x :: x in more && x.company == c ==> oldest < x.sequence < latest
  }

  lemma WithinKeepsBounds(base: seq<Row>, more: seq<Row>, rows: seq<Row>, c: string, next: nat)
    requires Numbered(base, next) && Numbered(rows, next) && Grown(base, more, rows)
    requires StrictlyWithin(more, c, Oldest(base, c), Latest(base, c))
    ensures Oldest(rows, c) == Oldest(base, c) && Latest(rows, c) == Latest(base, c)
  {
    if HasTenant(base, c) {
      var low, high := Extremes(base, c);
      InTable(rows, low, c);
      var low', high' := Extremes(rows, c);
    } else {
      NoTenantNoBounds(base, c);
      if i :| 0 <= i < |rows| && rows[i].company == c {
        assert rows[i] in rows;
        if rows[i] in base { InTable(base, rows[i], c); }
      }
      NoTenantNoBounds(rows, c);
    }
  }

  lemma InTable(rows: seq<Row>, r: Row, c: string)
    requires r in rows && r.company == c
    ensures HasTenant(rows, c) && Assigned(rows, r.sequence)
  {
    var i :| 0 <= i < |rows| && rows[i] == r;
  }

  lemma BoundsKeptMeansWithin(base: seq<Row>, more: seq<Row>, rows: seq<Row>, c: string, next: nat)
    requires Numbered(base, next) && Numbered(rows, next) && Grown(base, more, rows)
    requires Oldest(rows, c) == Oldest(base, c) && Latest(rows, c) == Latest(base, c)
    ensures StrictlyWithin(more, c, Oldest(base, c), Latest(base, c))
  {
    forall x | x in more && x.company == c ensures Oldest(base, c) < x.sequence < Latest(base, c) {
      assert x in rows;
      InTable(rows, x, c);
      var low, high := Extremes(rows, c);
      if HasTenant(base, c) {
        var low', high' := Extremes(base, c);
        InTable(base, low', c);
        InTable(base, high', c);
      } else {
        NoTenantNoBounds(base, c);
      }
    }
  }

  /** With no prune since its read, an entry is coherent exactly when every row of its tenant
      committed since then lies strictly between the bounds it reports: nothing new at either
      end, late commits in the middle do not show. Other tenants never matter. */
  lemma EntryCoherentExactly(steps: seq<Step>, c: string)
    requires c in Run(steps).cache
    ensures var s := Run(steps);
      && c in s.fills
      && s.fills[c].0.seen <= |s.log|
      && (s.fills[c].0.prunes == s.prunes ==>
            (Coherent(s, c) <==> StrictlyWithin(s.log[s.fills[c].0.seen..], c, s.cache[c].response.oldest,
                                                s.cache[c].response.latest)))
  {
    InvRun(steps);
    var s := Run(steps);
    assert EntryOk(s, c);
    var (r, filled) := s.fills[c];
    if r.prunes == s.prunes {
      var more := s.log[r.seen..];
      if StrictlyWithin(more, c, Oldest(r.base, c), Latest(r.base, c)) {
        WithinKeepsBounds(r.base, more, s.rows, c, s.next);
      }
      if Coherent(s, c) { BoundsKeptMeansWithin(r.base, more, s.rows, c, s.next); }
    }
  }

  lemma TenantSomewhere(log: seq<Row>, from: nat, mid: nat, c: string)
    requires from <= mid <= |log| && HasTenant(log[from..], c)
    ensures HasTenant(log[from..mid], c) || HasTenant(log[mid..], c)
  {
    var i :| 0 <= i < |log[from..]| && log[from..][i].company == c;
    if from + i < mid {
      assert log[from..mid][i].company == c;
    } else {
      assert log[mid..][from + i - mid].company == c;
    }
  }

  /** A write that fails is gone, and table and cache are as they were; only its number is used. */
  lemma AbortedWritesLeaveNothing(s: State, w: nat)
    requires InFlight(s, w)
    ensures var t := Next(s, Abort(w));
      w !in t.writing && t.rows == s.rows && t.cache == s.cache && t.log == s.log && t.next == s.next
  {
  }

  /** So an entry can only be stale through a prune, through a row of its own tenant committed
      between its read and its fill, or while such a write still has to invalidate. */
  lemma StalenessHasACause(steps: seq<Step>, c: string)
    requires c in Run(steps).cache && !Coherent(Run(steps), c)
    ensures var s := Run(steps);
      && c in s.fills
      && s.fills[c].0.seen <= s.fills[c].1 <= |s.log|
      && (s.fills[c].0.prunes < s.prunes || Outstanding(s, c)
          || HasTenant(s.log[s.fills[c].0.seen..s.fills[c].1], c))
  {
    InvRun(steps);
    EntryCoherentExactly(steps, c);
    var s := Run(steps);
    assert EntryOk(s, c);
    var (r, filled) := s.fills[c];
    if r.prunes == s.prunes {
      var x :| x in s.log[r.seen..] && x.company == c;
      InTable(s.log[r.seen..], x, c);
      TenantSomewhere(s.log, r.seen, filled, c);
    }
  }

  lemma RunAppend(steps: seq<Step>, step: Step)
    ensures Run(steps + [step]) == Next(Run(steps), step)
  {
    assert (steps + [step])[..|steps|] == steps;
  }

  function RunFrom(s: State, steps: seq<Step>): State
    decreases |steps|
  {
    if steps == [] then s else RunFrom(Next(s, steps[0]), steps[1..])
  }

  lemma {:induction false} RunConcat(before: seq<Step>, steps: seq<Step>)
    ensures Run(before + steps) == RunFrom(Run(before), steps)
    decreases |steps|
  {
    if steps == [] {
      assert before + steps == before;
    } else {
      RunAppend(before, steps[0]);
      RunConcat(before + [steps[0]], steps[1..]);
      assert RunFrom(Run(before), steps) == RunFrom(Next(Run(before), steps[0]), steps[1..]);
      assert before + steps == before + [steps[0]] + steps[1..];
    }
  }

  lemma TwoSteps(s: State, a: Step, b: Step)
    ensures RunFrom(s, [a, b]) == Next(Next(s, a), b)
  {
    assert [a, b][1..] == [b] && [b][1..] == [];
    assert RunFrom(Next(s, a), [b]) == Next(Next(s, a), b);
  }

  lemma FiveSteps(s: State, a: Step, b: Step, c: Step, d: Step, e: Step)
    ensures RunFrom(s, [a, b, c, d, e]) == Next(Next(Next(Next(Next(s, a), b), c), d), e)
  {
    var s1, s2, s3 := Next(s, a), Next(Next(s, a), b), Next(Next(Next(s, a), b), c);
    TwoSteps(s3, d, e);
    assert [c, d, e][1..] == [d, e] && RunFrom(s2, [c, d, e]) == RunFrom(s3, [d, e]);
    assert [b, c, d, e][1..] == [c, d, e] && RunFrom(s1, [b, c, d, e]) == RunFrom(s2, [c, d, e]);
    assert [a, b, c, d, e][1..] == [b, c, d, e] && RunFrom(s, [a, b, c, d, e]) == RunFrom(s1, [b, c, d, e]);
  }

  /** The cause in the middle is real: a commit between read and fill leaves a stale entry
      that no later invalidation removes. */
  lemma RacedFillIsStale(counts: Counts)
    ensures var s := Run([Read(0, "t", 0.0, counts), Insert(0, "t", "a", 0), Commit(0), Invalidate(0), Fill(0)]);
      && Hit(s.cache, "t", 1.0) && s.prunes == 0 && s.writing == map[] && !Coherent(s, "t")
  {
    var steps := [Read(0, "t", 0.0, counts), Insert(0, "t", "a", 0), Commit(0), Invalidate(0), Fill(0)];
    RunConcat([], steps);
    assert [] + steps == steps;
    FiveSteps(START, steps[0], steps[1], steps[2], steps[3], steps[4]);
    var s3 := Next(Next(Next(START, steps[0]), steps[1]), steps[2]);
    assert s3.rows == [Row(1, "a", "", 0, None, "t")] && s3.writing == map[0 := Landed("t")];
    var s := Next(Next(s3, steps[3]), steps[4]);
    assert s.rows == s3.rows && s.cache["t"].response.latest == 0;
  }

  // ----------------------------------------------------- runs of whole calls

  /** Calls that are not interleaved: all parts directly after each other. */
  datatype Call = WriteCall(company: string, eventType: string, timestamp: int)
                | WatermarkCall(company: string, now: real, counts: Counts)
                | PruneCall(gone: set<nat>)

  /** What a call does in this state; a hit does nothing. */
  function Steps(s: State, call: Call): seq<Step> {
    match call
    case WriteCall(c, e, t) => [Insert(0, c, e, t), Commit(0), Invalidate(0)]
    case WatermarkCall(c, now, counts) => if Hit(s.cache, c, now) then [] else [Read(0, c, now, counts), Fill(0)]
    case PruneCall(gone) => [Prune(gone)]
  }

  function Flatten(calls: seq<Call>): seq<Step> {
    if calls == [] then []
    else
      var before := Flatten(calls[..|calls| - 1]);
      before + Steps(Run(before), calls[|calls| - 1])
  }

  /** Nothing suspended, and every fill directly behind its read. */
  predicate Settled(s: State) {
    && s.writing == map[] && s.readings == map[]
    && forall c :: c in s.fills ==> s.fills[c].0.seen == s.fills[c].1
  }

  lemma WholeWriteSettles(s: State, c: string, e: string, t: int)
    requires Settled(s)
    ensures Settled(RunFrom(s, [Insert(0, c, e, t), Commit(0), Invalidate(0)]))
  {
    var steps := [Insert(0, c, e, t), Commit(0), Invalidate(0)];
    assert steps[1..] == [Commit(0), Invalidate(0)];
    TwoSteps(Next(s, steps[0]), steps[1], steps[2]);
    var u := Next(Next(Next(s, steps[0]), steps[1]), steps[2]);
    assert RunFrom(s, steps) == u;
    assert u.writing == map[] && u.readings == map[];
  }

  lemma WholeReadSettles(s: State, c: string, now: real, counts: Counts)
    requires Settled(s)
    ensures Settled(RunFrom(s, [Read(0, c, now, counts), Fill(0)]))
  {
    var steps := [Read(0, c, now, counts), Fill(0)];
    TwoSteps(s, steps[0], steps[1]);
    var u := Next(Next(s, steps[0]), steps[1]);
    assert RunFrom(s, steps) == u;
    assert u.writing == map[] && u.readings == map[];
  }

  lemma WholePruneSettles(s: State, gone: set<nat>)
    requires Settled(s)
    ensures Settled(RunFrom(s, [Prune(gone)]))
  {
    assert [Prune(gone)][1..] == [];
  }

  lemma {:induction false} CallsLeaveNothingHalfDone(calls: seq<Call>)
    ensures Settled(Run(Flatten(calls)))
  {
    if calls != [] {
      var n := |calls| - 1;
      CallsLeaveNothingHalfDone(calls[..n]);
      var before := Flatten(calls[..n]);
      RunConcat(before, Steps(Run(before), calls[n]));
      match calls[n]
      case WriteCall(c, e, t) => WholeWriteSettles(Run(before), c, e, t);
      case WatermarkCall(c, now, counts) =>
        if !Hit(Run(before).cache, c, now) { WholeReadSettles(Run(before), c, now, counts); }
      case PruneCall(gone) => WholePruneSettles(Run(before), gone);
    }
  }

  /** An entry is served for thirty seconds from the request that filled it, and no longer. */
  lemma HitsForThirtySeconds(s: State, c: string, now: real)
    ensures Hit(s.cache, c, now) <==> c in s.cache && now < s.cache[c].at + 30.0
  {
  }

  /** In a run of whole calls a hit reports the same latest sequence and the same oldest
      row as a fresh query, whatever other tenants wrote, unless a prune came after the fill. */
  lemma CacheHitIsFresh(calls: seq<Call>, c: string, now: real)
    requires Hit(Run(Flatten(calls)).cache, c, now)
    ensures var s := Run(Flatten(calls));
      && c in s.fills && c in s.cache && now - s.cache[c].at < 30.0
      && (s.fills[c].0.prunes == s.prunes ==> Coherent(s, c))
  {
    CallsLeaveNothingHalfDone(calls);
    var s := Run(Flatten(calls));
    EntryCoherentExactly(Flatten(calls), c);
    if !Coherent(s, c) {
      StalenessHasACause(Flatten(calls), c);
      assert s.log[s.fills[c].0.seen..s.fills[c].1] == [];
    }
  }
}
