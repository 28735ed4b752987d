/**
 Catch-up as a client runs it: pages follow each other while rows are inserted, committed
 and pruned in between.
 */
module CatchUp {
  import opened Options
  import opened Ledger
  import Gaps = GapDetection

  // ----------------------------------------------- paging a changing ledger

  /** The visible rows, the next sequence, and the rows whose insert has its sequence but is
      not committed yet. */
  datatype Table = Table(rows: seq<Row>, next: nat, flying: set<Row>)

  ghost predicate Sound(t: Table) {
    && Ascending(t.rows) && Below(t.rows, t.next)
    && forall r :: r in t.flying ==> r.sequence < t.next && !Assigned(t.rows, r.sequence)
  }

  /** What may happen between two pages: inserts take fresh sequences, commits make rows in
      flight visible in any order, rollbacks and prunes only remove. */
  ghost predicate Evolves(a: Table, b: Table) {
    && a.next <= b.next
    && (forall r :: r in b.rows ==> r in a.rows || r in a.flying || r.sequence >= a.next)
    && (forall r :: r in b.flying ==> r in a.flying || r.sequence >= a.next)
  }

  ghost predicate Chain(ts: seq<Table>) {
    && (forall i :: 0 <= i < |ts| ==> Sound(ts[i]))
    && (forall i :: 0 < i < |ts| ==> Evolves(ts[i - 1], ts[i]))
  }

  /** Page i is served from ts[i]; the client stops when has_more is false. */
  function Collect(ts: seq<Table>, q: Query, after: int, limit: nat): seq<Row>
    requires ts != []
  {
    var page := PageOf(ts[0].rows, q, after, limit);
    if !page.hasMore || |ts| == 1 then page.events
    else page.events + Collect(ts[1..], q, NextSequence(page.events, after), limit)
  }

  /** Every page but the last reports more, the last does not. */
  predicate Ends(ts: seq<Table>, q: Query, after: int, limit: nat)
    requires ts != []
  {
    var page := PageOf(ts[0].rows, q, after, limit);
    if |ts| == 1 then !page.hasMore
    else page.hasMore && Ends(ts[1..], q, NextSequence(page.events, after), limit)
  }

  /** Every page reports more. */
  predicate GoesOn(ts: seq<Table>, q: Query, after: int, limit: nat)
    requires ts != []
  {
    var page := PageOf(ts[0].rows, q, after, limit);
    page.hasMore && (|ts| > 1 ==> GoesOn(ts[1..], q, NextSequence(page.events, after), limit))
  }

  /** A row with a sequence taken by then was visible or in flight. */
  lemma {:induction false} OldRowsWereThere(ts: seq<Table>, i: nat, r: Row)
    requires Chain(ts) && i < |ts| && (r in ts[i].rows || r in ts[i].flying) && r.sequence < ts[0].next
    ensures r in ts[0].rows || r in ts[0].flying
  {
    if i > 0 {
      NextGrows(ts, i - 1);
      assert Evolves(ts[i - 1], ts[i]);
      OldRowsWereThere(ts, i - 1, r);
    }
  }

  lemma {:induction false} NextGrows(ts: seq<Table>, i: nat)
    requires Chain(ts) && i < |ts|
    ensures ts[0].next <= ts[i].next
  {
    if i > 0 {
      NextGrows(ts, i - 1);
      assert Evolves(ts[i - 1], ts[i]);
    }
  }

  lemma TailChain(ts: seq<Table>)
    requires Chain(ts) && |ts| > 1
    ensures Chain(ts[1..])
  {
    forall i | 0 < i < |ts[1..]| ensures Evolves(ts[1..][i - 1], ts[1..][i]) {
      assert Evolves(ts[i], ts[i + 1]);
    }
  }

  /** A page and what it leaves: its rows are exactly the wanted ones up to the next cursor. */
  lemma FullPage(t: Table, q: Query, after: int, limit: nat) returns (cursor: nat)
    requires Sound(t) && limit >= 1 && PageOf(t.rows, q, after, limit).hasMore
    ensures var page := PageOf(t.rows, q, after, limit);
      && cursor as int == NextSequence(page.events, after)
      && |page.events| == Min(limit, PAGE_CAP)
      && Ascending(page.events)
      && after < cursor < t.next
      && (forall r :: r in page.events ==> r in t.rows && Wanted(q, r) && after < r.sequence <= cursor)
      && (forall r :: r in t.rows && Wanted(q, r) && after < r.sequence <= cursor ==> r in page.events)
  {
    var page, found := PageOf(t.rows, q, after, limit), Select(t.rows, q, after);
    var n := Min(limit, PAGE_CAP);
    assert page.events == found[..n];
    cursor := found[n - 1].sequence;
    assert found[n - 1] in found;
    forall r | r in page.events ensures r in t.rows && Wanted(q, r) && after < r.sequence <= cursor {
      var i :| 0 <= i < n && found[i] == r;
      assert r in found;
    }
    forall r | r in t.rows && Wanted(q, r) && after < r.sequence <= cursor ensures r in page.events {
      assert r in found;
      var i :| 0 <= i < |found| && found[i] == r;
      assert i < n;
      assert page.events[i] == r;
    }
  }

  lemma AscendingAcross(a: seq<Row>, b: seq<Row>, cursor: int)
    requires Ascending(a) && Ascending(b)
    requires forall r :: r in a ==> r.sequence <= cursor
    requires forall r :: r in b ==> cursor < r.sequence
    ensures Ascending(a + b)
  {
    forall i, j | 0 <= i < j < |a + b| ensures (a + b)[i].sequence < (a + b)[j].sequence {
      if i < |a| <= j { assert a[i] in a && b[j - |a|] in b; }
    }
  }

  lemma {:induction false} CollectedRows(ts: seq<Table>, q: Query, after: int, limit: nat)
    requires ts != [] && Chain(ts) && limit >= 1
    ensures Ascending(Collect(ts, q, after, limit))
    ensures forall r :: r in Collect(ts, q, after, limit) ==>
              Wanted(q, r) && after < r.sequence < ts[|ts| - 1].next && exists i :: 0 <= i < |ts| && r in ts[i].rows
  {
    var page := PageOf(ts[0].rows, q, after, limit);
    NextGrows(ts, |ts| - 1);
    if page.hasMore && |ts| > 1 {
      var cursor := FullPage(ts[0], q, after, limit);
      TailChain(ts);
      CollectedRows(ts[1..], q, cursor, limit);
      var rest := Collect(ts[1..], q, cursor, limit);
      assert Collect(ts, q, after, limit) == page.events + rest;
      AscendingAcross(page.events, rest, cursor);
      forall r | r in rest ensures exists i :: 0 <= i < |ts| && r in ts[i].rows {
        var i :| 0 <= i < |ts[1..]| && r in ts[1..][i].rows;
        assert r in ts[i + 1].rows;
      }
    } else {
      forall r | r in page.events ensures r in Select(ts[0].rows, q, after) { }
      assert forall r :: r in page.events ==> r in ts[0].rows;
    }
  }

  /** Some page that reported more moved the cursor past the row while it was in flight. */
  predicate PassedInFlight(ts: seq<Table>, q: Query, after: int, limit: nat, r: Row)
    requires ts != []
  {
    var page := PageOf(ts[0].rows, q, after, limit);
    page.hasMore && |ts| > 1
    && var cursor := NextSequence(page.events, after);
       if r.sequence <= cursor then r in ts[0].flying else PassedInFlight(ts[1..], q, cursor, limit, r)
  }

  lemma NotOnLaterPages(ts: seq<Table>, q: Query, cursor: int, limit: nat, r: Row)
    requires ts != [] && Chain(ts) && limit >= 1 && r.sequence <= cursor
    ensures r !in Collect(ts, q, cursor, limit)
  {
    CollectedRows(ts, q, cursor, limit);
  }

  lemma FlyingIsNotThere(t: Table, r: Row)
    requires Sound(t) && r in t.flying
    ensures r !in t.rows
  {
    if i :| 0 <= i < |t.rows| && t.rows[i] == r { assert Assigned(t.rows, r.sequence); }
  }

  /** A row a client asked for and that the ledger holds at the end is missed exactly when
      the cursor passed it in flight. */
  lemma {:induction false} MissedExactlyInFlight(ts: seq<Table>, q: Query, after: int, limit: nat, r: Row)
    requires ts != [] && Chain(ts) && limit >= 1 && Ends(ts, q, after, limit)
    requires r in ts[|ts| - 1].rows && Wanted(q, r) && r.sequence > after
    ensures r in Collect(ts, q, after, limit) <==> !PassedInFlight(ts, q, after, limit, r)
  {
    var page := PageOf(ts[0].rows, q, after, limit);
    if |ts| == 1 {
      assert page.events == Select(ts[0].rows, q, after);
    } else {
      var cursor := FullPage(ts[0], q, after, limit);
      TailChain(ts);
      if r.sequence <= cursor {
        OldRowsWereThere(ts, |ts| - 1, r);
        NotOnLaterPages(ts[1..], q, cursor, limit, r);
        if r in ts[0].flying { FlyingIsNotThere(ts[0], r); }
      } else {
        MissedExactlyInFlight(ts[1..], q, cursor, limit, r);
      }
    }
  }

  /** Paging to the end: ascending without repetition, only wanted rows, and every wanted row
      the ledger holds at the last page, except exactly those the cursor passed in flight. */
  lemma CatchUpCompleteExactly(ts: seq<Table>, q: Query, after: int, limit: nat)
    requires ts != [] && Chain(ts) && limit >= 1 && Ends(ts, q, after, limit)
    ensures var c := Collect(ts, q, after, limit);
      && Ascending(c)
      && (forall r :: r in c ==> Wanted(q, r) && r.sequence > after && exists i :: 0 <= i < |ts| && r in ts[i].rows)
      && (forall r :: r in ts[|ts| - 1].rows && Wanted(q, r) && r.sequence > after ==>
            (r in c <==> !PassedInFlight(ts, q, after, limit, r)))
  {
    CollectedRows(ts, q, after, limit);
    forall r | r in ts[|ts| - 1].rows && Wanted(q, r) && r.sequence > after
      ensures r in Collect(ts, q, after, limit) <==> !PassedInFlight(ts, q, after, limit, r)
    {
      MissedExactlyInFlight(ts, q, after, limit, r);
    }
  }

  /** At every page that reports more, no wanted row in flight lies below the next cursor. */
  predicate NoneWantedBelow(ts: seq<Table>, q: Query, after: int, limit: nat)
    requires ts != []
  {
    var page := PageOf(ts[0].rows, q, after, limit);
    page.hasMore && |ts| > 1 ==>
      var cursor := NextSequence(page.events, after);
      && (forall r :: r in ts[0].flying && Wanted(q, r) && r.sequence > after ==> r.sequence > cursor)
      && NoneWantedBelow(ts[1..], q, cursor, limit)
  }

  lemma {:induction false} NonePassed(ts: seq<Table>, q: Query, after: int, limit: nat, r: Row)
    requires ts != [] && NoneWantedBelow(ts, q, after, limit) && Wanted(q, r) && r.sequence > after
    ensures !PassedInFlight(ts, q, after, limit, r)
  {
    var page := PageOf(ts[0].rows, q, after, limit);
    if page.hasMore && |ts| > 1 && r.sequence > NextSequence(page.events, after) {
      NonePassed(ts[1..], q, NextSequence(page.events, after), limit, r);
    }
  }

  /** With no wanted row in flight below a cursor catch-up is complete, whatever else was
      written, committed or pruned meanwhile. */
  lemma CatchUpComplete(ts: seq<Table>, q: Query, after: int, limit: nat)
    requires ts != [] && Chain(ts) && limit >= 1 && Ends(ts, q, after, limit)
    requires NoneWantedBelow(ts, q, after, limit)
    ensures forall r :: r in ts[|ts| - 1].rows && Wanted(q, r) && r.sequence > after ==>
            r in Collect(ts, q, after, limit)
  {
    forall r | r in ts[|ts| - 1].rows && Wanted(q, r) && r.sequence > after
      ensures r in Collect(ts, q, after, limit)
    {
      MissedExactlyInFlight(ts, q, after, limit, r);
      NonePassed(ts, q, after, limit, r);
    }
  }

  // ------------------------------------------------ the tables of a run

  /** The ledger as it stands in a history. */
  function TableOf(h: Gaps.History): Table {
    Table(h.rows, h.next, set q | q in h.flying :: h.flying[q])
  }

  lemma TableIsSound(h: Gaps.History)
    requires Gaps.Inv(h)
    ensures Sound(TableOf(h))
  {
  }

  lemma OneStepEvolves(h: Gaps.History, op: Gaps.Op)
    requires Gaps.Inv(h)
    ensures Evolves(TableOf(h), TableOf(Gaps.Apply(h, op)))
  {
    var a, b := TableOf(h), TableOf(Gaps.Apply(h, op));
    forall r | r in b.flying ensures r in a.flying || r.sequence >= a.next {
      var q :| q in Gaps.Apply(h, op).flying && Gaps.Apply(h, op).flying[q] == r;
    }
  }

  /** Whatever inserts, commits, rollbacks and batches of prunes run between two pages, the
      two tables are related as Evolves says. */
  lemma {:induction false} RunsEvolve(ops: seq<Gaps.Op>, more: seq<Gaps.Op>)
    ensures Sound(TableOf(Gaps.Run(ops))) && Evolves(TableOf(Gaps.Run(ops)), TableOf(Gaps.Run(ops + more)))
  {
    Gaps.InvRun(ops);
    TableIsSound(Gaps.Run(ops));
    if more == [] {
      assert ops + more == ops;
    } else {
      var n := |more| - 1;
      RunsEvolve(ops, more[..n]);
      Gaps.InvRun(ops + more[..n]);
      assert ops + more == (ops + more[..n]) + [more[n]];
      Gaps.RunSnoc(ops + more[..n], more[n]);
      OneStepEvolves(Gaps.Run(ops + more[..n]), more[n]);
    }
  }

  /** The condition is needed: 1 takes its sequence first and commits last; the first page
      ends at 2, and no later page returns 1, although it is in the table by then. */
  lemma LateCommitIsMissed(company: string)
    ensures var ts, q := LateCommit(company), Query(company, None, None);
      && Chain(ts) && Ends(ts, q, 0, 1) && Plain(1, company) in ts[1].rows && Wanted(q, Plain(1, company))
      && PassedInFlight(ts, q, 0, 1, Plain(1, company)) && Plain(1, company) !in Collect(ts, q, 0, 1)
  {
    var ts, q := LateCommit(company), Query(company, None, None);
    LateCommitIsAChain(company);
    SelectPair(Plain(2, company), Plain(3, company), q);
    SelectLast(Plain(1, company), Plain(2, company), Plain(3, company), q);
    assert ts[1..] == [ts[1]];
    assert PageOf(ts[0].rows, q, 0, 1).events == [Plain(2, company)];
    assert PageOf(ts[1].rows, q, 2, 1) == Page([Plain(3, company)], false);
    MissedExactlyInFlight(ts, q, 0, 1, Plain(1, company));
  }

  function Plain(sequence: nat, company: string): Row {
    Row(sequence, "a", "", 0, None, company)
  }

  /** Three inserts, of which the last two commit before the first page. */
  function BeforeTheCommit(company: string): seq<Gaps.Op> {
    var insert := Gaps.Begin("a", "", 0, None, company);
    [insert] + [insert] + [insert] + [Gaps.Commit(2)] + [Gaps.Commit(3)]
  }

  function LateCommit(company: string): seq<Table> {
    [TableOf(Gaps.Run(BeforeTheCommit(company))), TableOf(Gaps.Run(BeforeTheCommit(company) + [Gaps.Commit(1)]))]
  }

  lemma ThreeInserts(company: string)
    ensures var insert := Gaps.Begin("a", "", 0, None, company);
      var h := Gaps.Run([insert] + [insert] + [insert]);
      && h.rows == [] && h.next == 4
      && h.flying == map[1 := Plain(1, company), 2 := Plain(2, company), 3 := Plain(3, company)]
  {
    var insert := Gaps.Begin("a", "", 0, None, company);
    Gaps.RunSnoc([], insert);
    assert [] + [insert] == [insert];
    Gaps.RunSnoc([insert], insert);
    Gaps.RunSnoc([insert] + [insert], insert);
  }

  lemma TwoCommitted(company: string)
    ensures var h := Gaps.Run(BeforeTheCommit(company));
      h.rows == [Plain(2, company), Plain(3, company)] && h.next == 4 && h.flying == map[1 := Plain(1, company)]
  {
    var insert := Gaps.Begin("a", "", 0, None, company);
    var three := [insert] + [insert] + [insert];
    ThreeInserts(company);
    Gaps.RunSnoc(three, Gaps.Commit(2));
    Gaps.RunSnoc(three + [Gaps.Commit(2)], Gaps.Commit(3));
  }

  lemma LateCommitIsAChain(company: string)
    ensures Chain(LateCommit(company))
    ensures LateCommit(company)[0] == Table([Plain(2, company), Plain(3, company)], 4, {Plain(1, company)})
    ensures LateCommit(company)[1].rows == [Plain(1, company), Plain(2, company), Plain(3, company)]
  {
    var ops := BeforeTheCommit(company);
    TwoCommitted(company);
    Gaps.RunSnoc(ops, Gaps.Commit(1));
    RunsEvolve(ops, [Gaps.Commit(1)]);
    RunsEvolve(ops + [Gaps.Commit(1)], []);
    PlaceBelow(Plain(1, company), Plain(2, company), Plain(3, company));
  }

  lemma PlaceBelow(a: Row, b: Row, c: Row)
    requires a.sequence < b.sequence < c.sequence
    ensures Place([b, c], a) == [a, b, c]
  {
    assert [b, c][..1] == [b] && [b][..0] == [];
    assert Place([], a) == [a];
    assert Place([b], a) == [a] + [b];
  }

  lemma SelectPair(a: Row, b: Row, q: Query)
    requires Wanted(q, a) && Wanted(q, b) && 0 < a.sequence < b.sequence
    ensures Select([a, b], q, 0) == [a, b]
  {
    assert [a, b][1..] == [b] && [b][1..] == [];
    assert Select([b], q, 0) == [b];
  }

  lemma SelectLast(a: Row, b: Row, c: Row, q: Query)
    requires Wanted(q, c) && a.sequence < b.sequence < c.sequence
    ensures Select([a, b, c], q, b.sequence) == [c]
  {
    assert [a, b, c][1..] == [b, c] && [b, c][1..] == [c] && [c][1..] == [];
    assert Select([c], q, b.sequence) == [c];
    assert Select([b, c], q, b.sequence) == [c];
  }

  lemma {:induction false} VisibleIsNotPassed(ts: seq<Table>, q: Query, after: int, limit: nat, r: Row)
    requires ts != [] && forall i :: 0 <= i < |ts| ==> Sound(ts[i]) && r in ts[i].rows
    ensures !PassedInFlight(ts, q, after, limit, r)
  {
    if r in ts[0].flying { FlyingIsNotThere(ts[0], r); }
    if |ts| > 1 {
      assert forall i :: 0 <= i < |ts[1..]| ==> ts[1..][i] == ts[i + 1];
      VisibleIsNotPassed(ts[1..], q, NextSequence(PageOf(ts[0].rows, q, after, limit).events, after), limit, r);
    }
  }

  /** Without interference the pages put together are the filtered suffix of the ledger. */
  lemma CatchUpOfStillLedger(t: Table, ts: seq<Table>, q: Query, after: int, limit: nat)
    requires Sound(t) && ts != [] && (forall i :: 0 <= i < |ts| ==> ts[i] == t)
    requires limit >= 1 && Ends(ts, q, after, limit)
    ensures Collect(ts, q, after, limit) == Select(t.rows, q, after)
  {
    CatchUpCompleteExactly(ts, q, after, limit);
    forall r | r in t.rows ensures !PassedInFlight(ts, q, after, limit, r) {
      VisibleIsNotPassed(ts, q, after, limit, r);
    }
    SameRowsSameTable(Collect(ts, q, after, limit), Select(t.rows, q, after));
  }

  lemma {:induction false} AscendingFits(rows: seq<Row>, i: nat)
    requires Ascending(rows) && i < |rows|
    ensures i <= rows[i].sequence
  {
    if i > 0 { AscendingFits(rows, i - 1); }
  }

  lemma OneMorePage(pages: nat, size: nat)
    ensures size + pages * size == (pages + 1) * size
  {
  }

  lemma FullPageFirst(ts: seq<Table>, q: Query, after: int, limit: nat) returns (cursor: int)
    requires |ts| > 1 && Chain(ts) && limit >= 1 && GoesOn(ts, q, after, limit)
    ensures Chain(ts[1..]) && GoesOn(ts[1..], q, cursor, limit)
    ensures |Collect(ts, q, after, limit)| == Min(limit, PAGE_CAP) + |Collect(ts[1..], q, cursor, limit)|
  {
    cursor := FullPage(ts[0], q, after, limit);
    TailChain(ts);
  }

  lemma {:induction false} FullPagesAddUp(ts: seq<Table>, q: Query, after: int, limit: nat)
    requires ts != [] && Chain(ts) && limit >= 1 && GoesOn(ts, q, after, limit)
    ensures |Collect(ts, q, after, limit)| == |ts| * Min(limit, PAGE_CAP)
  {
    if |ts| == 1 {
      var cursor := FullPage(ts[0], q, after, limit);
    } else {
      var cursor := FullPageFirst(ts, q, after, limit);
      FullPagesAddUp(ts[1..], q, cursor, limit);
      OneMorePage(|ts[1..]|, Min(limit, PAGE_CAP));
    }
  }

  /** Catch-up terminates: each full page uses up its own sequences, so a client that is
      still going after n pages needs n pages' worth of sequences to have been assigned. */
  lemma CatchUpTerminates(ts: seq<Table>, q: Query, after: int, limit: nat)
    requires ts != [] && Chain(ts) && limit >= 1 && GoesOn(ts, q, after, limit)
    ensures |ts| * Min(limit, PAGE_CAP) <= ts[|ts| - 1].next
  {
    FullPagesAddUp(ts, q, after, limit);
    CollectedRows(ts, q, after, limit);
    var c := Collect(ts, q, after, limit);
    var n := |c| - 1;
    if n >= 0 {
      AscendingFits(c, n);
      assert c[n] in c;
    }
  }
}
