/**
 The durable event ledger: one table ordered by its database-assigned sequence, the
 paged catch-up query, the batched prune and the per-tenant watermark cache.
 */
module Ledger {
  import opened Options
  import opened EventFilter

  /** A ledger row. Timestamps are fixed-width ISO texts in the table; they are only ever
      compared, so an integer stands for them. */
  datatype Row = Row(sequence: nat, eventType: string, data: string, timestamp: int,
                     dataUuid: Option<string>, company: string)

  predicate Ascending(rows: seq<Row>) {
    forall i, j :: 0 <= i < j < |rows| ==> rows[i].sequence < rows[j].sequence
  }

  predicate Below(rows: seq<Row>, next: nat) {
    forall i :: 0 <= i < |rows| ==> rows[i].sequence < next
  }

  // ----------------------------------------------------------------- bounds

  /** COALESCE(MIN(sequence), 0) over the tenant's rows of an ascending table. */
  function Oldest(rows: seq<Row>, company: string): nat {
    if rows == [] then 0
    else if rows[0].company == company then rows[0].sequence
    else Oldest(rows[1..], company)
  }

  /** COALESCE(MAX(sequence), 0) over the tenant's rows of an ascending table. */
  function Latest(rows: seq<Row>, company: string): nat {
    if rows == [] then 0
    else if rows[|rows| - 1].company == company then rows[|rows| - 1].sequence
    else Latest(rows[..|rows| - 1], company)
  }

  predicate HasTenant(rows: seq<Row>, company: string) {
    exists i :: 0 <= i < |rows| && rows[i].company == company
  }

  lemma {:induction false} OldestIsMinimum(rows: seq<Row>, company: string)
    requires Ascending(rows) && HasTenant(rows, company)
    ensures exists i :: 0 <= i < |rows| && rows[i].company == company && rows[i].sequence == Oldest(rows, company)
    ensures forall i :: 0 <= i < |rows| && rows[i].company == company ==> Oldest(rows, company) <= rows[i].sequence
  {
    if rows[0].company != company {
      var i :| 0 <= i < |rows| && rows[i].company == company;
      assert rows[1..][i - 1].company == company;
      OldestIsMinimum(rows[1..], company);
      var j :| 0 <= j < |rows[1..]| && rows[1..][j].company == company
               && rows[1..][j].sequence == Oldest(rows[1..], company);
      assert rows[j + 1].company == company && rows[j + 1].sequence == Oldest(rows, company);
      forall i | 0 <= i < |rows| && rows[i].company == company
        ensures Oldest(rows, company) <= rows[i].sequence
      {
        assert rows[1..][i - 1] == rows[i];
      }
    }
  }

  lemma {:induction false} LatestIsAttained(rows: seq<Row>, company: string) returns (i: nat)
    requires HasTenant(rows, company)
    ensures i < |rows| && rows[i].company == company && rows[i].sequence == Latest(rows, company)
    ensures forall k :: i < k < |rows| ==> rows[k].company != company
  {
    var n := |rows| - 1;
    if rows[n].company == company {
      i := n;
    } else {
      var k :| 0 <= k < |rows| && rows[k].company == company;
      assert rows[..n][k].company == company;
      i := LatestIsAttained(rows[..n], company);
      assert forall k :: 0 <= k < n ==> rows[..n][k] == rows[k];
    }
  }

  lemma LatestIsMaximum(rows: seq<Row>, company: string)
    requires Ascending(rows) && HasTenant(rows, company)
    ensures exists i :: 0 <= i < |rows| && rows[i].company == company && rows[i].sequence == Latest(rows, company)
    ensures forall i :: 0 <= i < |rows| && rows[i].company == company ==> rows[i].sequence <= Latest(rows, company)
  {
    var i := LatestIsAttained(rows, company);
  }

  lemma {:induction false} NoTenantNoBounds(rows: seq<Row>, company: string)
    requires !HasTenant(rows, company)
    ensures Oldest(rows, company) == 0 == Latest(rows, company)
    decreases |rows|
  {
    if rows != [] {
      var n := |rows| - 1;
      assert forall i :: 0 <= i < n ==> rows[1..][i] == rows[i + 1] && rows[..n][i] == rows[i];
      NoTenantNoBounds(rows[1..], company);
      NoTenantNoBounds(rows[..n], company);
    }
  }

  /** Since the database numbers from 1, a bound of 0 says that the tenant has no row. */
  lemma ZeroMeansNoTenant(rows: seq<Row>, company: string)
    requires Ascending(rows) && forall i :: 0 <= i < |rows| ==> rows[i].sequence >= 1
    ensures Oldest(rows, company) == 0 <==> !HasTenant(rows, company)
    ensures Latest(rows, company) == 0 <==> !HasTenant(rows, company)
  {
    if HasTenant(rows, company) {
      OldestIsMinimum(rows, company);
      var i := LatestIsAttained(rows, company);
    } else {
      NoTenantNoBounds(rows, company);
    }
  }

  // ----------------------------------------------------------------- commits

  /** A row becomes visible at its sequence, below rows that overtook it. */
  function Place(rows: seq<Row>, r: Row): (out: seq<Row>)
    ensures |out| == |rows| + 1
    ensures forall x :: x in out <==> x in rows || x == r
  {
    if rows == [] || rows[|rows| - 1].sequence < r.sequence then rows + [r]
    else
      assert rows == rows[..|rows| - 1] + [rows[|rows| - 1]];
      Place(rows[..|rows| - 1], r) + [rows[|rows| - 1]]
  }

  predicate Assigned(rows: seq<Row>, sequence: nat) {
    exists i :: 0 <= i < |rows| && rows[i].sequence == sequence
  }

  lemma {:induction false} PlaceKeepsOrder(rows: seq<Row>, r: Row)
    requires Ascending(rows) && !Assigned(rows, r.sequence)
    ensures Ascending(Place(rows, r))
  {
    if rows != [] && rows[|rows| - 1].sequence >= r.sequence {
      var n := |rows| - 1;
      assert rows[n].sequence > r.sequence;
      assert forall i :: 0 <= i < n ==> rows[..n][i] == rows[i];
      PlaceKeepsOrder(rows[..n], r);
      var out := Place(rows[..n], r);
      forall i | 0 <= i < |out| ensures out[i].sequence < rows[n].sequence { assert out[i] in out; }
    }
  }

  /** Without a larger row a commit is an append. */
  lemma PlaceOnTop(rows: seq<Row>, r: Row)
    requires Below(rows, r.sequence)
    ensures Place(rows, r) == rows + [r]
  {
  }

  // ------------------------------------------------------------------ query

  datatype Query = Query(company: string, dataUuid: Option<string>, pattern: Option<string>)

  /** The WHERE clause without its cursor. Empty filters add no condition. */
  predicate Wanted(q: Query, r: Row) {
    && r.company == q.company
    && (q.dataUuid.Some? && q.dataUuid.value != "" ==> r.dataUuid == q.dataUuid)
    && CatchupAccepts(q.pattern, r.eventType)
  }

  /** The rows the query selects after a cursor, ascending. */
  function Select(rows: seq<Row>, q: Query, after: int): (r: seq<Row>)
    ensures forall x :: x in r <==> x in rows && Wanted(q, x) && x.sequence > after
    ensures Ascending(rows) ==> Ascending(r)
  {
    if rows == [] then []
    else
      var rest := Select(rows[1..], q, after);
      assert rows == [rows[0]] + rows[1..];
      if Wanted(q, rows[0]) && rows[0].sequence > after then [rows[0]] + rest else rest
  }

  datatype Page = Page(events: seq<Row>, hasMore: bool)

  const PAGE_CAP: nat := 1000

  function Min(a: nat, b: nat): nat { if a <= b then a else b }

  /** A page: one row past the limit is fetched to learn whether there is more. */
  function PageOf(rows: seq<Row>, q: Query, after: int, limit: nat): Page {
    var found := Select(rows, q, after);
    var n := Min(limit, PAGE_CAP);
    Page(found[..Min(n, |found|)], |found| > n)
  }

  /** A page is the first rows that match, never more than the limit or a thousand, and it says
      that there is more exactly if there is. */
  lemma PageExactly(rows: seq<Row>, q: Query, after: int, limit: nat)
    ensures var page, found := PageOf(rows, q, after, limit), Select(rows, q, after);
      && page.events <= found && |page.events| <= limit && |page.events| <= 1000
      && (page.hasMore <==> |page.events| < |found|)
      && (page.hasMore ==> |page.events| == limit || |page.events| == 1000)
  {
  }

  /** The rows a query selects: the tenant's, after the cursor, of the data_uuid and the event
      type asked for. */
  lemma SelectedExactly(rows: seq<Row>, q: Query, after: int, r: Row)
    ensures r in Select(rows, q, after)
            <==> && r in rows && r.company == q.company && r.sequence > after
                 && (q.dataUuid == None || q.dataUuid == Some("") || r.dataUuid == q.dataUuid)
                 && CatchupAccepts(q.pattern, r.eventType)
  {
  }

  /** The cursor for the next request. */
  function NextSequence(events: seq<Row>, after: int): int {
    if events == [] then after else events[|events| - 1].sequence
  }

  // ------------------------------------------------------------------ prune

  /** The rows that survive a cutoff. */
  function Keep(rows: seq<Row>, cutoff: int): (r: seq<Row>)
    ensures forall x :: x in r <==> x in rows && x.timestamp >= cutoff
    ensures Ascending(rows) ==> Ascending(r)
  {
    if rows == [] then []
    else
      assert rows == [rows[0]] + rows[1..];
      if rows[0].timestamp >= cutoff then [rows[0]] + Keep(rows[1..], cutoff) else Keep(rows[1..], cutoff)
  }

  function Delete(rows: seq<Row>, gone: set<nat>): (r: seq<Row>)
    ensures forall x :: x in r <==> x in rows && x.sequence !in gone
    ensures Ascending(rows) ==> Ascending(r)
  {
    if rows == [] then []
    else
      assert rows == [rows[0]] + rows[1..];
      if rows[0].sequence !in gone then [rows[0]] + Delete(rows[1..], gone) else Delete(rows[1..], gone)
  }

  function Sequences(rows: seq<Row>): set<nat> {
    set i | 0 <= i < |rows| :: rows[i].sequence
  }

  function Expired(rows: seq<Row>, cutoff: int): set<nat> {
    set i | 0 <= i < |rows| && rows[i].timestamp < cutoff :: rows[i].sequence
  }

  lemma {:induction false} DeleteCounts(rows: seq<Row>, gone: set<nat>)
    requires Ascending(rows) && gone <= Sequences(rows)
    ensures |Delete(rows, gone)| == |rows| - |gone|
  {
    if rows == [] {
      assert gone == {};
    } else {
      var s, rest := rows[0].sequence, rows[1..];
      assert Sequences(rows) == {s} + Sequences(rest);
      DeleteCounts(rest, gone - {s});
      DeleteIgnores(rest, gone, s);
      if s in gone { assert |gone - {s}| == |gone| - 1; } else { assert gone - {s} == gone; }
    }
  }

  lemma {:induction false} DeleteIgnores(rows: seq<Row>, gone: set<nat>, s: nat)
    requires s !in Sequences(rows)
    ensures Delete(rows, gone - {s}) == Delete(rows, gone)
  {
    if rows != [] {
      assert rows[0].sequence in Sequences(rows);
      assert Sequences(rows[1..]) <= Sequences(rows) by {
        assert forall i :: 0 <= i < |rows[1..]| ==> rows[1..][i] == rows[i + 1];
      }
      DeleteIgnores(rows[1..], gone, s);
    }
  }

  lemma HeadIsMember(rows: seq<Row>)
    requires rows != []
    ensures rows[0] in rows
  {
  }

  lemma HeadExpires(rows: seq<Row>, cutoff: int)
    requires rows != [] && rows[0].timestamp < cutoff
    ensures rows[0].sequence in Expired(rows, cutoff)
  {
  }

  lemma ExpiredRow(rows: seq<Row>, cutoff: int, s: nat) returns (y: Row)
    requires s in Expired(rows, cutoff)
    ensures y in rows && y.sequence == s && y.timestamp < cutoff
  {
    var i :| 0 <= i < |rows| && rows[i].timestamp < cutoff && rows[i].sequence == s;
    y := rows[i];
  }

  lemma SequenceIdentifies(rows: seq<Row>, x: Row, y: Row)
    requires Ascending(rows) && x in rows && y in rows && x.sequence == y.sequence
    ensures x == y
  {
    var i :| 0 <= i < |rows| && rows[i] == x;
    var j :| 0 <= j < |rows| && rows[j] == y;
    assert i == j;
  }

  /** An ascending table is determined by the rows in it. */
  lemma {:induction false} SameRowsSameTable(a: seq<Row>, b: seq<Row>)
    requires Ascending(a) && Ascending(b)
    requires forall x :: x in a <==> x in b
    ensures a == b
  {
    if a == [] {
      if b != [] { HeadIsMember(b); }
    } else {
      assert a[0] in b;
      assert b[0] in a;
      assert a[0] == b[0];
      forall x ensures x in a[1..] <==> x in b[1..] {
        if x in a[1..] { assert x in a && x != a[0]; assert x in b; }
        if x in b[1..] { assert x in b && x != b[0]; assert x in a; }
      }
      SameRowsSameTable(a[1..], b[1..]);
    }
  }

  lemma KeepAfterDelete(rows: seq<Row>, gone: set<nat>, cutoff: int)
    requires Ascending(rows) && gone <= Expired(rows, cutoff)
    ensures Keep(Delete(rows, gone), cutoff) == Keep(rows, cutoff)
  {
    forall x | x in rows && x.timestamp >= cutoff ensures x.sequence !in gone {
      if x.sequence in gone {
        var y := ExpiredRow(rows, cutoff, x.sequence);
        SequenceIdentifies(rows, x, y);
      }
    }
    SameRowsSameTable(Keep(Delete(rows, gone), cutoff), Keep(rows, cutoff));
  }

  lemma {:induction false} KeepsAll(rows: seq<Row>, cutoff: int)
    requires Expired(rows, cutoff) == {}
    ensures Keep(rows, cutoff) == rows
  {
    if rows != [] {
      if rows[0].timestamp < cutoff { HeadExpires(rows, cutoff); }
      assert forall i :: 0 <= i < |rows[1..]| ==> rows[1..][i] == rows[i + 1];
      assert Expired(rows[1..], cutoff) <= Expired(rows, cutoff);
      KeepsAll(rows[1..], cutoff);
    }
  }

  // -------------------------------------------------------------- watermark

  datatype Counts = Counts(invoices: nat, customers: nat, products: nat)

  datatype Watermark = Watermark(latest: nat, counts: Counts, oldest: nat)

  datatype Cached = Cached(at: real, response: Watermark)

  const WATERMARK_TTL: real := 30.0

  predicate Hit(cache: map<string, Cached>, company: string, now: real) {
    company in cache && now - cache[company].at < WATERMARK_TTL
  }

  function FreshWatermark(rows: seq<Row>, company: string, counts: Counts): Watermark {
    Watermark(Latest(rows, company), counts, Oldest(rows, company))
  }

  // ------------------------------------------------------------- the object

  const PRUNE_BATCH: nat := 10000

  ghost predicate TableOk(rows: seq<Row>, next: nat, flying: map<nat, Row>) {
    && Ascending(rows) && Below(rows, next)
    && forall q :: q in flying ==> flying[q].sequence == q && q < next && !Assigned(rows, q)
  }

  lemma FewerRowsAreOk(rows: seq<Row>, left: seq<Row>, next: nat, flying: map<nat, Row>)
    requires TableOk(rows, next, flying) && Ascending(left) && forall x :: x in left ==> x in rows
    ensures TableOk(left, next, flying)
  {
    forall i | 0 <= i < |left| ensures left[i] in rows { assert left[i] in left; }
  }

  lemma CommitIsOk(rows: seq<Row>, next: nat, flying: map<nat, Row>, sequence: nat)
    requires TableOk(rows, next, flying) && sequence in flying
    ensures TableOk(Place(rows, flying[sequence]), next, flying - {sequence})
  {
    var r := flying[sequence];
    PlaceKeepsOrder(rows, r);
    var out := Place(rows, r);
    forall i | 0 <= i < |out| ensures out[i] == r || out[i] in rows { assert out[i] in out; }
  }

  /** The event ledger together with the table its statements act on. `flying` holds the rows
      whose insert has its sequence but is not committed. */
  class EventLedger {
    var rows: seq<Row>
    var next: nat
    var flying: map<nat, Row>
    var cache: map<string, Cached>

    ghost predicate Valid()
      reads this
    {
      TableOk(rows, next, flying)
    }

    constructor ()
      ensures Valid() && rows == [] && next == 1 && flying == map[] && cache == map[]
    {
      rows, next, flying, cache := [], 1, map[], map[];
    }

    /** INSERT ... RETURNING sequence: the number is taken at once and for good. */
    method Insert(eventType: string, data: string, timestamp: int, company: string, dataUuid: Option<string>)
      returns (sequence: nat)
      requires Valid()
      modifies this
      ensures Valid()
      ensures sequence == old(next) && next == old(next) + 1 && rows == old(rows) && cache == old(cache)
      ensures flying == old(flying)[sequence := Row(sequence, eventType, data, timestamp, dataUuid, company)]
    {
      sequence := next;
      flying := flying[sequence := Row(sequence, eventType, data, timestamp, dataUuid, company)];
      next := next + 1;
    }

    /** COMMIT: the row is visible, wherever its sequence puts it. */
    method Commit(sequence: nat)
      requires Valid() && sequence in flying
      modifies this
      ensures Valid() && next == old(next) && cache == old(cache)
      ensures flying == old(flying) - {sequence} && rows == Place(old(rows), old(flying)[sequence])
    {
      CommitIsOk(rows, next, flying, sequence);
      rows := Place(rows, flying[sequence]);
      flying := flying - {sequence};
    }

    /** A write that fails leaves a gap in the numbering. */
    method Rollback(sequence: nat)
      requires Valid()
      modifies this
      ensures Valid() && next == old(next) && cache == old(cache) && rows == old(rows)
      ensures flying == old(flying) - {sequence}
    {
      flying := flying - {sequence};
    }

    method Invalidate(company: string)
      requires Valid()
      modifies this`cache
      ensures Valid() && cache == old(cache) - {company}
    {
      cache := cache - {company};
    }

    /** A whole write that nobody disturbs. */
    method Write(eventType: string, data: string, timestamp: int, company: string,
                 dataUuid: Option<string>)
      returns (sequence: nat)
      requires Valid()
      modifies this
      ensures Valid()
      ensures sequence == old(next) && next == old(next) + 1 && flying == old(flying)
      ensures rows == old(rows) + [Row(sequence, eventType, data, timestamp, dataUuid, company)]
      ensures cache == old(cache) - {company}
    {
      sequence := Insert(eventType, data, timestamp, company, dataUuid);
      PlaceOnTop(rows, flying[sequence]);
      Commit(sequence);
      Invalidate(company);
    }

    /** The first statement of a catch-up request. */
    method QueryOldest(company: string) returns (oldest: nat)
      requires Valid()
      ensures oldest == Oldest(rows, company)
    {
      oldest := Oldest(rows, company);
    }

    /** The second statement: one page. */
    method QueryPage(q: Query, after: int, limit: nat) returns (page: Page)
      requires Valid()
      ensures page == PageOf(rows, q, after, limit)
    {
      var cap := Min(limit, PAGE_CAP);
      var found := Select(rows, q, after);
      found := found[..Min(cap + 1, |found|)];
      var hasMore := |found| > cap;
      found := found[..Min(cap, |found|)];
      var events: seq<Row> := [];
      for i := 0 to |found|
        invariant events == found[..i]
      {
        events := events + [found[i]];
      }
      page := Page(events, hasMore);
    }

    /** Whichever rows a LIMIT picks: any subset of the right size. */
    static method PickBatch(expired: set<nat>, size: nat) returns (batch: set<nat>)
      ensures batch <= expired && |batch| == Min(size, |expired|)
    {
      batch := {};
      var left := expired;
      while |batch| < size && left != {}
        invariant batch !! left && batch + left == expired
        invariant |batch| + |left| == |expired| && |batch| <= size
        decreases left
      {
        var s :| s in left;
        batch, left := batch + {s}, left - {s};
      }
    }

    /** Delete in batches until a batch comes back short. */
    method Prune(cutoff: int) returns (deleted: nat)
      requires Valid()
      modifies this
      ensures Valid() && next == old(next) && cache == old(cache) && flying == old(flying)
      ensures rows == Keep(old(rows), cutoff)
      ensures deleted == |old(rows)| - |rows|
    {
      deleted := 0;
      while true
        invariant Valid() && next == old(next) && cache == old(cache) && flying == old(flying)
        invariant Keep(rows, cutoff) == Keep(old(rows), cutoff)
        invariant deleted == |old(rows)| - |rows|
        decreases |rows|
      {
        var batch := PickBatch(Expired(rows, cutoff), PRUNE_BATCH);
        DeleteCounts(rows, batch);
        KeepAfterDelete(rows, batch, cutoff);
        ghost var before := rows;
        rows := Delete(rows, batch);
        FewerRowsAreOk(before, rows, next, flying);
        deleted := deleted + |batch|;
        if |batch| < PRUNE_BATCH {
          AllExpiredGone(before, batch, cutoff);
          KeepsAll(rows, cutoff);
          break;
        }
      }
    }

    /** The reconciliation snapshot, cached per tenant for thirty seconds. */
    method GetWatermark(company: string, now: real, counts: Counts)
      returns (response: Watermark, cached: bool)
      requires Valid()
      modifies this`cache
      ensures cached <==> Hit(old(cache), company, now)
      ensures cached ==> response == old(cache)[company].response && cache == old(cache)
      ensures !cached ==> response == FreshWatermark(rows, company, counts)
                          && cache == old(cache)[company := Cached(now, response)]
    {
      if company in cache {
        var entry := cache[company];
        if now - entry.at < WATERMARK_TTL {
          return entry.response, true;
        }
      }
      response := Watermark(Latest(rows, company), counts, Oldest(rows, company));
      cached := false;
      cache := cache[company := Cached(now, response)];
    }
  }

  lemma AllExpiredGone(rows: seq<Row>, gone: set<nat>, cutoff: int)
    requires Ascending(rows) && gone <= Expired(rows, cutoff) && |gone| == |Expired(rows, cutoff)|
    ensures Expired(Delete(rows, gone), cutoff) == {}
  {
    SubsetOfSameSize(gone, Expired(rows, cutoff));
    var left := Delete(rows, gone);
    forall i | 0 <= i < |left| ensures left[i].timestamp >= cutoff {
      assert left[i] in left;
      assert left[i] in rows && left[i].sequence !in gone;
    }
  }

  lemma SubsetOfSameSize(a: set<nat>, b: set<nat>)
    requires a <= b && |a| == |b|
    ensures a == b
  {
    if x :| x in b && x !in a {
      assert a <= b - {x};
      SubsetSize(a, b - {x});
    }
  }

  lemma {:induction false} SubsetSize(a: set<nat>, b: set<nat>)
    requires a <= b
    ensures |a| <= |b|
  {
    if x :| x in a {
      SubsetSize(a - {x}, b - {x});
    }
  }
}
