/**
 What `oldest_available` tells a client about pruned events, over every run of inserts,
 commits, rollbacks and the committed batches of prunes.
 */
module GapDetection {
  import opened Options
  import opened Ledger

  datatype Op = Begin(eventType: string, data: string, timestamp: int, dataUuid: Option<string>, company: string)
              | Commit(sequence: nat)
              | Abort(sequence: nat)
              | Batch(cutoff: int, limit: nat, gone: set<nat>)

  /** The table, every write ever begun in the order of its sequence, every row ever committed,
      and the highest cutoff of a prune that has left expired rows behind, to go on or not. */
  datatype History = History(rows: seq<Row>, next: nat, flying: map<nat, Row>, begun: seq<Row>, ever: set<Row>,
                             halfway: Option<int>)

  const EMPTY := History([], 1, map[], [], {}, None)

  /** The batch is one that DELETE ... LIMIT can take: no order, only the size is given. */
  predicate Takes(h: History, op: Op)
    requires op.Batch?
  {
    op.gone <= Expired(h.rows, op.cutoff) && |op.gone| == Min(op.limit, |Expired(h.rows, op.cutoff)|)
  }

  predicate Beyond(halfway: Option<int>, cutoff: int) {
    halfway.Some? && halfway.value > cutoff
  }

  /** The batch leaves nothing expired, of this prune or of an earlier one left halfway. */
  predicate Finishes(h: History, op: Op)
    requires op.Batch?
  {
    Takes(h, op) && op.gone == Expired(h.rows, op.cutoff) && !Beyond(h.halfway, op.cutoff)
  }

  function Apply(h: History, op: Op): History {
    match op
    case Begin(e, d, t, u, c) =>
      var r := Row(h.next, e, d, t, u, c);
      h.(next := h.next + 1, flying := h.flying[h.next := r], begun := h.begun + [r])
    case Commit(q) =>
      if q !in h.flying then h
      else h.(rows := Place(h.rows, h.flying[q]), flying := h.flying - {q}, ever := h.ever + {h.flying[q]})
    case Abort(q) => h.(flying := h.flying - {q})
    case Batch(cutoff, _, gone) =>
      if !Takes(h, op) then h
      else
        h.(rows := Delete(h.rows, gone),
           halfway := if Beyond(h.halfway, cutoff) then h.halfway
                      else if Finishes(h, op) then None else Some(cutoff))
  }

  function Run(ops: seq<Op>): History {
    if ops == [] then EMPTY else Apply(Run(ops[..|ops| - 1]), ops[|ops| - 1])
  }

  /** Timestamps never decrease with the sequence. */
  ghost predicate ByTime(rows: seq<Row>) {
    forall i, j :: 0 <= i < j < |rows| ==> rows[i].timestamp <= rows[j].timestamp
  }

  /** A prune does not finish before a write in flight that is older than its cutoff. */
  ghost predicate Spares(h: History, op: Op) {
    op.Batch? && Finishes(h, op) ==> forall q :: q in h.flying ==> h.flying[q].timestamp >= op.cutoff
  }

  /** No prune of the run overtakes a write in flight. */
  ghost predicate SparesFlights(ops: seq<Op>) {
    ops == [] || (SparesFlights(ops[..|ops| - 1]) && Spares(Run(ops[..|ops| - 1]), ops[|ops| - 1]))
  }

  // -------------------------------------------------------------- invariants

  ghost predicate Inv(h: History) {
    && TableOk(h.rows, h.next, h.flying)
    && Ascending(h.begun) && Below(h.begun, h.next) && h.next >= 1
    && (forall i :: 0 <= i < |h.begun| ==> h.begun[i].sequence >= 1)
    && (forall q :: q in h.flying ==> h.flying[q] in h.begun)
    && (forall r :: r in h.ever ==> r in h.begun && r.sequence !in h.flying)
    && (forall r :: r in h.rows ==> r in h.ever)
  }

  lemma BeginStep(h: History, op: Op)
    requires Inv(h) && op.Begin?
    ensures Inv(Apply(h, op))
  {
    forall r | r in h.ever ensures r.sequence < h.next {
      var i :| 0 <= i < |h.begun| && h.begun[i] == r;
    }
  }

  lemma CommitStep(h: History, op: Op)
    requires Inv(h) && op.Commit?
    ensures Inv(Apply(h, op))
  {
    if op.sequence in h.flying {
      CommitIsOk(h.rows, h.next, h.flying, op.sequence);
    }
  }

  lemma InvStep(h: History, op: Op)
    requires Inv(h)
    ensures Inv(Apply(h, op))
  {
    match op
    case Begin(_, _, _, _, _) => BeginStep(h, op);
    case Commit(_) => CommitStep(h, op);
    case Abort(_) =>
    case Batch(_, _, gone) => FewerRowsAreOk(h.rows, Delete(h.rows, gone), h.next, h.flying);
  }

  lemma {:induction false} InvRun(ops: seq<Op>)
    ensures Inv(Run(ops))
  {
    if ops != [] {
      InvRun(ops[..|ops| - 1]);
      InvStep(Run(ops[..|ops| - 1]), ops[|ops| - 1]);
    }
  }

  // ------------------------------------------------ the table is a suffix

  /** The table holds what was ever committed from sequence k on, except what a prune that is
      halfway has taken so far, and nothing below is coming. */
  ghost predicate TornFrom(h: History, k: nat) {
    && k <= h.next
    && (forall r :: r in h.rows ==> r.sequence >= k)
    && (forall r :: r in h.ever && r.sequence >= k && r !in h.rows ==> Beyond(h.halfway, r.timestamp))
    && (forall q :: q in h.flying ==> q >= k)
  }

  /** The table holds exactly what was ever committed from sequence k on. */
  ghost predicate SuffixFrom(h: History, k: nat) {
    && k <= h.next
    && (forall r :: r in h.ever ==> (r in h.rows <==> r.sequence >= k))
    && (forall q :: q in h.flying ==> q >= k)
  }

  lemma OlderIsBelow(h: History, x: Row, y: Row)
    requires Inv(h) && ByTime(h.begun) && x in h.begun && y in h.begun && x.timestamp < y.timestamp
    ensures x.sequence < y.sequence
  {
    var i :| 0 <= i < |h.begun| && h.begun[i] == x;
    var j :| 0 <= j < |h.begun| && h.begun[j] == y;
    assert i < j;
  }

  /** The sequence after the last expired row. */
  function Cut(rows: seq<Row>, cutoff: int): nat {
    if rows == [] then 0
    else if rows[|rows| - 1].timestamp < cutoff then rows[|rows| - 1].sequence + 1
    else Cut(rows[..|rows| - 1], cutoff)
  }

  lemma {:induction false} CutIsAfterTheExpired(rows: seq<Row>, cutoff: int)
    requires Ascending(rows)
    ensures Cut(rows, cutoff) != 0 ==>
              exists i :: 0 <= i < |rows| && rows[i].timestamp < cutoff && rows[i].sequence + 1 == Cut(rows, cutoff)
    ensures forall i :: 0 <= i < |rows| && rows[i].timestamp < cutoff ==> rows[i].sequence < Cut(rows, cutoff)
  {
    if rows != [] && rows[|rows| - 1].timestamp >= cutoff {
      var n := |rows| - 1;
      assert forall i :: 0 <= i < n ==> rows[..n][i] == rows[i];
      CutIsAfterTheExpired(rows[..n], cutoff);
      if Cut(rows, cutoff) != 0 {
        var i :| 0 <= i < n && rows[..n][i].timestamp < cutoff && rows[..n][i].sequence + 1 == Cut(rows, cutoff);
        assert rows[i].sequence + 1 == Cut(rows, cutoff);
      }
    }
  }

  /** The cut through everything ever begun: with timestamps in order nothing unexpired is
      below it. */
  lemma SurvivorIsAboveTheCut(h: History, cutoff: int, y: Row)
    requires Inv(h) && ByTime(h.begun) && y in h.begun && y.timestamp >= cutoff
    ensures y.sequence >= Cut(h.begun, cutoff)
  {
    CutIsAfterTheExpired(h.begun, cutoff);
    if Cut(h.begun, cutoff) != 0 {
      var i :| 0 <= i < |h.begun| && h.begun[i].timestamp < cutoff && h.begun[i].sequence + 1 == Cut(h.begun, cutoff);
      assert h.begun[i] in h.begun;
      OlderIsBelow(h, h.begun[i], y);
    }
  }

  function Max(a: nat, b: nat): nat { if a >= b then a else b }

  lemma DeletedIsExpired(rows: seq<Row>, gone: set<nat>, cutoff: int, x: Row)
    requires Ascending(rows) && gone <= Expired(rows, cutoff) && x in rows && x.sequence in gone
    ensures x.timestamp < cutoff
  {
    var y := ExpiredRow(rows, cutoff, x.sequence);
    SequenceIdentifies(rows, x, y);
  }

  lemma BatchKeepsTorn(h: History, op: Op, k: nat)
    requires Inv(h) && TornFrom(h, k) && op.Batch? && Takes(h, op) && !Finishes(h, op)
    ensures TornFrom(Apply(h, op), k)
  {
    var t := Apply(h, op);
    forall r | r in t.ever && r.sequence >= k && r !in t.rows ensures Beyond(t.halfway, r.timestamp) {
      if r in h.rows { DeletedIsExpired(h.rows, op.gone, op.cutoff, r); }
    }
  }

  lemma FinishedKeepsASuffix(h: History, op: Op, k: nat)
    requires Inv(h) && ByTime(h.begun) && TornFrom(h, k) && op.Batch? && Finishes(h, op) && Spares(h, op)
    ensures TornFrom(Apply(h, op), Max(k, Cut(h.begun, op.cutoff)))
  {
    var t, cut := Apply(h, op), Cut(h.begun, op.cutoff);
    CutIsAfterTheExpired(h.begun, op.cutoff);
    forall r | r in t.rows ensures r.sequence >= cut {
      var i :| 0 <= i < |h.rows| && h.rows[i] == r;
      SurvivorIsAboveTheCut(h, op.cutoff, r);
    }
    forall r | r in t.ever && r.sequence >= Max(k, cut) ensures r in t.rows {
      var i :| 0 <= i < |h.begun| && h.begun[i] == r;
      if r in h.rows && r !in t.rows { DeletedIsExpired(h.rows, op.gone, op.cutoff, r); }
    }
    forall q | q in h.flying ensures q >= cut { SurvivorIsAboveTheCut(h, op.cutoff, h.flying[q]); }
  }

  lemma TornStep(h: History, op: Op, k: nat) returns (k': nat)
    requires Inv(h) && ByTime(h.begun) && TornFrom(h, k) && Spares(h, op)
    ensures TornFrom(Apply(h, op), k')
  {
    k' := k;
    if op.Batch? && Finishes(h, op) {
      FinishedKeepsASuffix(h, op, k);
      k' := Max(k, Cut(h.begun, op.cutoff));
    } else if op.Batch? && Takes(h, op) {
      BatchKeepsTorn(h, op, k);
    }
  }

  lemma EarlierByTime(h: History, op: Op)
    requires ByTime(Apply(h, op).begun)
    ensures ByTime(h.begun)
  {
    var all := Apply(h, op).begun;
    forall i, j | 0 <= i < j < |h.begun| ensures h.begun[i].timestamp <= h.begun[j].timestamp {
      assert all[i] == h.begun[i] && all[j] == h.begun[j];
    }
  }

  /** With timestamps in sequence order and no prune overtaking a write, only expired rows are
      ever missing above the oldest one, and only while a prune is halfway. */
  lemma {:induction false} OnlyExpiredRowsAreMissing(ops: seq<Op>) returns (k: nat)
    requires ByTime(Run(ops).begun) && SparesFlights(ops)
    ensures TornFrom(Run(ops), k)
  {
    if ops == [] {
      k := 0;
    } else {
      var h, op := Run(ops[..|ops| - 1]), ops[|ops| - 1];
      EarlierByTime(h, op);
      InvRun(ops[..|ops| - 1]);
      var j := OnlyExpiredRowsAreMissing(ops[..|ops| - 1]);
      k := TornStep(h, op, j);
    }
  }

  /** So whenever no prune is halfway the table is a suffix of everything ever committed. */
  lemma RowsAreASuffix(ops: seq<Op>) returns (k: nat)
    requires ByTime(Run(ops).begun) && SparesFlights(ops) && Run(ops).halfway.None?
    ensures SuffixFrom(Run(ops), k)
  {
    k := OnlyExpiredRowsAreMissing(ops);
  }

  /** The batch that comes back short, which ends the loop, finishes its prune and every
      earlier one that was left halfway. */
  lemma ShortBatchFinishes(ops: seq<Op>, op: Op)
    requires op.Batch? && Takes(Run(ops), op) && |op.gone| < op.limit && !Beyond(Run(ops).halfway, op.cutoff)
    ensures Run(ops + [op]).halfway.None?
  {
    SubsetOfSameSize(op.gone, Expired(Run(ops).rows, op.cutoff));
    RunSnoc(ops, op);
  }

  // --------------------------------------------------------- gap detection

  /** What a client may conclude from `oldest_available`. */
  predicate SaysComplete(oldest: nat, cursor: int) {
    cursor >= oldest - 1
  }

  /** A committed row of the tenant beyond the cursor is no longer in the table. */
  ghost predicate Misses(h: History, company: string, cursor: int) {
    exists r :: r in h.ever && r.company == company && r.sequence > cursor && r !in h.rows
  }

  /** No cursor that `oldest` calls complete misses anything. */
  ghost predicate NoneMissed(h: History, company: string, oldest: nat) {
    forall cursor :: SaysComplete(oldest, cursor) ==> !Misses(h, company, cursor)
  }

  lemma NoneMissedFrom(h: History, company: string, oldest: nat)
    ensures NoneMissed(h, company, oldest)
            <==> forall r :: r in h.ever && r.company == company && r.sequence >= oldest ==> r in h.rows
  {
    assert SaysComplete(oldest, oldest - 1);
    if r :| r in h.ever && r.company == company && r.sequence >= oldest && r !in h.rows {
      assert Misses(h, company, oldest - 1);
    }
  }

  ghost predicate EverHadTenant(h: History, company: string) {
    exists r :: r in h.ever && r.company == company
  }

  lemma OldestRow(rows: seq<Row>, company: string) returns (r: Row)
    requires Ascending(rows) && HasTenant(rows, company)
    ensures r in rows && r.company == company && r.sequence == Oldest(rows, company)
  {
    OldestIsMinimum(rows, company);
    var o :| 0 <= o < |rows| && rows[o].company == company && rows[o].sequence == Oldest(rows, company);
    r := rows[o];
  }

  /** The row with this sequence, if it is still there, is not among those that a prune left
      halfway has still to delete. */
  ghost predicate Settled(h: History, sequence: nat) {
    forall r :: r in h.rows && r.sequence == sequence ==> !Beyond(h.halfway, r.timestamp)
  }

  lemma TornHolds(h: History, k: nat, r: Row)
    requires Inv(h) && ByTime(h.begun) && TornFrom(h, k) && r in h.ever
    ensures r in h.rows <==> Assigned(h.rows, r.sequence)
    ensures r in h.rows && Settled(h, r.sequence) ==>
              forall x :: x in h.ever && x.sequence >= r.sequence ==> x in h.rows
  {
    if r in h.rows { var i :| 0 <= i < |h.rows| && h.rows[i] == r; }
    if i :| 0 <= i < |h.rows| && h.rows[i].sequence == r.sequence {
      assert h.rows[i] in h.rows;
      SequenceIdentifies(h.begun, h.rows[i], r);
    }
    if r in h.rows && Settled(h, r.sequence) {
      forall x | x in h.ever && x.sequence >= r.sequence ensures x in h.rows {
        if x !in h.rows { OlderIsBelow(h, x, r); }
      }
    }
  }

  /** When a catch-up answer is put together from two statements, its oldest_available finds
      every gap exactly when the row it was read from is still there for the page. */
  lemma TwoStatementsExactly(ops: seq<Op>, more: seq<Op>, company: string)
    requires ByTime(Run(ops + more).begun) && SparesFlights(ops + more) && HasTenant(Run(ops).rows, company)
    requires Settled(Run(ops + more), Oldest(Run(ops).rows, company))
    ensures var oldest := Oldest(Run(ops).rows, company);
      NoneMissed(Run(ops + more), company, oldest) <==> Assigned(Run(ops + more).rows, oldest)
  {
    var h, t := Run(ops), Run(ops + more);
    InvRun(ops);
    InvRun(ops + more);
    var r := OldestRow(h.rows, company);
    EverGrows(ops, more, r);
    var k := OnlyExpiredRowsAreMissing(ops + more);
    NoneMissedFrom(t, company, r.sequence);
    TornHolds(t, k, r);
  }

  lemma {:induction false} EverGrows(ops: seq<Op>, more: seq<Op>, r: Row)
    requires r in Run(ops).ever
    ensures r in Run(ops + more).ever
  {
    if more == [] {
      assert ops + more == ops;
    } else {
      EverGrows(ops, more[..|more| - 1], r);
      assert (ops + more)[..|ops + more| - 1] == ops + more[..|more| - 1];
    }
  }

  /** At any moment, between the batches of a prune too: with a row left, what gap detection
      can miss are the tenant's expired rows above its oldest one, and nothing else. */
  lemma MidPruneExactly(ops: seq<Op>, company: string)
    requires ByTime(Run(ops).begun) && SparesFlights(ops) && HasTenant(Run(ops).rows, company)
    ensures var h := Run(ops);
      var oldest := Oldest(h.rows, company);
      NoneMissed(h, company, oldest)
      <==> forall r :: r in h.ever && r.company == company && r.sequence > oldest && Beyond(h.halfway, r.timestamp) ==>
                         r in h.rows
  {
    var h := Run(ops);
    InvRun(ops);
    var o := OldestRow(h.rows, company);
    NoneMissedFrom(h, company, o.sequence);
    var k := OnlyExpiredRowsAreMissing(ops);
    forall r | r in h.ever && r.sequence == o.sequence ensures r == o { SequenceIdentifies(h.begun, r, o); }
  }

  /** Gap detection works exactly as long as the tenant has a row left, or never had one,
      unless the oldest row is one that a prune left halfway has still to delete. */
  lemma GapDetectionExactly(ops: seq<Op>, company: string)
    requires ByTime(Run(ops).begun) && SparesFlights(ops)
    requires Settled(Run(ops), Oldest(Run(ops).rows, company))
    ensures var h := Run(ops);
      NoneMissed(h, company, Oldest(h.rows, company)) <==> HasTenant(h.rows, company) || !EverHadTenant(h, company)
  {
    var h := Run(ops);
    InvRun(ops);
    NoneMissedFrom(h, company, Oldest(h.rows, company));
    if HasTenant(h.rows, company) {
      var r := OldestRow(h.rows, company);
      var k := OnlyExpiredRowsAreMissing(ops);
      TornHolds(h, k, r);
    } else {
      NoTenantNoBounds(h.rows, company);
      forall r | r in h.ever && r.company == company ensures r !in h.rows { NotAmongOthers(h.rows, r); }
    }
  }

  lemma NotAmongOthers(rows: seq<Row>, r: Row)
    requires !HasTenant(rows, r.company)
    ensures r !in rows
  {
  }

  /** With a row of the tenant left, a cursor at or past oldest_available - 1 has missed no
      event ever committed. */
  lemma NoGapBehindTheCursor(ops: seq<Op>, company: string, cursor: int, r: Row)
    requires ByTime(Run(ops).begun) && SparesFlights(ops) && HasTenant(Run(ops).rows, company)
    requires Settled(Run(ops), Oldest(Run(ops).rows, company)) && cursor >= Oldest(Run(ops).rows, company) - 1
    requires r in Run(ops).ever && r.company == company && r.sequence > cursor
    ensures r in Run(ops).rows
  {
    GapDetectionExactly(ops, company);
    assert SaysComplete(Oldest(Run(ops).rows, company), cursor);
    assert !Misses(Run(ops), company, cursor);
  }

  // -------------------------------------------------- the conditions are needed

  lemma RunSnoc(ops: seq<Op>, op: Op)
    ensures Run(ops + [op]) == Apply(Run(ops), op)
    ensures SparesFlights(ops + [op]) <==> SparesFlights(ops) && Spares(Run(ops), op)
  {
    assert (ops + [op])[..|ops|] == ops;
  }

  function At(sequence: nat, timestamp: int): Row {
    Row(sequence, "a", "", timestamp, None, "t")
  }

  function BeginAt(timestamp: int): Op {
    Begin("a", "", timestamp, None, "t")
  }

  lemma RunTwo(a: Op, b: Op)
    ensures Run([a, b]) == Apply(Apply(EMPTY, a), b)
    ensures SparesFlights([a, b]) <==> Spares(EMPTY, a) && Spares(Apply(EMPTY, a), b)
  {
    RunSnoc([], a);
    RunSnoc([a], b);
    assert [] + [a] == [a] && [a] + [b] == [a, b];
  }

  lemma RunThree(a: Op, b: Op, c: Op)
    ensures Run([a, b, c]) == Apply(Run([a, b]), c)
    ensures SparesFlights([a, b, c]) <==> SparesFlights([a, b]) && Spares(Run([a, b]), c)
  {
    RunSnoc([a, b], c);
    assert [a, b] + [c] == [a, b, c];
  }

  lemma RunFive(a: Op, b: Op, c: Op, d: Op, e: Op)
    ensures Run([a, b, c, d, e]) == Apply(Apply(Run([a, b, c]), d), e)
  {
    RunSnoc([a, b, c], d);
    RunSnoc([a, b, c, d], e);
    assert [a, b, c] + [d] == [a, b, c, d] && [a, b, c, d] + [e] == [a, b, c, d, e];
  }

  /** One prune, one batch, one row. */
  function Prune(cutoff: int, sequence: nat): Op {
    Batch(cutoff, PRUNE_BATCH, {sequence})
  }

  lemma PruneOfOne(h: History, cutoff: int, r: Row)
    requires Ascending(h.rows) && r in h.rows && h.halfway.None?
    requires forall x :: x in h.rows ==> (x.timestamp < cutoff <==> x == r)
    ensures Finishes(h, Prune(cutoff, r.sequence))
    ensures var t := Apply(h, Prune(cutoff, r.sequence));
      t == h.(rows := t.rows) && Ascending(t.rows) && forall x :: x in t.rows <==> x in h.rows && x != r
  {
    var i :| 0 <= i < |h.rows| && h.rows[i] == r;
    assert Expired(h.rows, cutoff) == {r.sequence} by {
      forall q | q in Expired(h.rows, cutoff) ensures q == r.sequence {
        var y := ExpiredRow(h.rows, cutoff, q);
      }
    }
    assert |{r.sequence}| == 1;
    forall x | x in h.rows && x.sequence == r.sequence ensures x == r { SequenceIdentifies(h.rows, x, r); }
  }

  lemma NoRowsLeft(rows: seq<Row>)
    requires forall x :: x !in rows
    ensures rows == []
  {
    if rows != [] { HeadIsMember(rows); }
  }

  /** Only row 1 is left and row 2 has been there. */
  lemma GapAboveTheFirst(h: History, first: int, second: int)
    requires h.rows == [At(1, first)] && At(2, second) in h.ever
    ensures HasTenant(h.rows, "t") && Oldest(h.rows, "t") == 1 && !NoneMissed(h, "t", 1)
  {
    assert h.rows[0].company == "t";
    assert At(2, second) !in h.rows;
    NoneMissedFrom(h, "t", 1);
  }

  /** A tenant whose rows are all pruned reads 0 and looks complete although it is not. */
  lemma EmptiedLedgerHidesTheGap()
    ensures var h := Run([BeginAt(0), Commit(1), Prune(1, 1)]);
      h.rows == [] && h.halfway.None? && Oldest(h.rows, "t") == 0 && At(1, 0) in h.ever && !NoneMissed(h, "t", 0)
  {
    RunTwo(BeginAt(0), Commit(1));
    RunThree(BeginAt(0), Commit(1), Prune(1, 1));
    assert Run([BeginAt(0), Commit(1)]).rows == [At(1, 0)];
    PruneOfOne(Run([BeginAt(0), Commit(1)]), 1, At(1, 0));
    var h := Run([BeginAt(0), Commit(1), Prune(1, 1)]);
    NoRowsLeft(h.rows);
    assert At(1, 0) in h.ever && At(1, 0) !in h.rows;
    NoneMissedFrom(h, "t", 0);
  }

  lemma OneFliesOneCommits()
    ensures Run([BeginAt(0), BeginAt(1), Commit(2)])
            == History([At(2, 1)], 3, map[1 := At(1, 0)], [At(1, 0), At(2, 1)], {At(2, 1)}, None)
  {
    RunTwo(BeginAt(0), BeginAt(1));
    RunThree(BeginAt(0), BeginAt(1), Commit(2));
    assert Run([BeginAt(0), BeginAt(1)])
        == History([], 3, map[1 := At(1, 0), 2 := At(2, 1)], [At(1, 0), At(2, 1)], {}, None);
  }

  lemma OvertakenRun()
    ensures Run([BeginAt(0), BeginAt(1), Commit(2), Prune(2, 2), Commit(1)])
            == History([At(1, 0)], 3, map[], [At(1, 0), At(2, 1)], {At(1, 0), At(2, 1)}, None)
  {
    OneFliesOneCommits();
    RunFive(BeginAt(0), BeginAt(1), Commit(2), Prune(2, 2), Commit(1));
    var before := Run([BeginAt(0), BeginAt(1), Commit(2)]);
    PruneOfOne(before, 2, At(2, 1));
    NoRowsLeft(Apply(before, Prune(2, 2)).rows);
    assert Apply(before, Prune(2, 2)) == before.(rows := []);
  }

  /** A write that a prune overtakes commits below the gap the prune made. */
  lemma OvertakenWriteHidesAGap()
    ensures var h := Run([BeginAt(0), BeginAt(1), Commit(2), Prune(2, 2), Commit(1)]);
      && ByTime(h.begun) && h.halfway.None? && HasTenant(h.rows, "t") && Oldest(h.rows, "t") == 1
      && !NoneMissed(h, "t", 1)
  {
    OvertakenRun();
    GapAboveTheFirst(History([At(1, 0)], 3, map[], [At(1, 0), At(2, 1)], {At(1, 0), At(2, 1)}, None), 0, 1);
  }

  lemma TwoOutOfOrder()
    ensures Run([BeginAt(5), Commit(1), BeginAt(0)])
            == History([At(1, 5)], 3, map[2 := At(2, 0)], [At(1, 5), At(2, 0)], {At(1, 5)}, None)
  {
    RunTwo(BeginAt(5), Commit(1));
    RunThree(BeginAt(5), Commit(1), BeginAt(0));
    assert Run([BeginAt(5), Commit(1)]) == History([At(1, 5)], 2, map[], [At(1, 5)], {At(1, 5)}, None);
  }

  /** Timestamps are taken before the write, so they can run against the sequence order;
      then pruning can open a gap above the oldest row. */
  lemma TimestampsOutOfOrderHideAGap()
    ensures var h := Run([BeginAt(5), Commit(1), BeginAt(0), Commit(2), Prune(1, 2)]);
      h.halfway.None? && HasTenant(h.rows, "t") && Oldest(h.rows, "t") == 1 && !NoneMissed(h, "t", 1)
  {
    TwoOutOfOrder();
    RunFive(BeginAt(5), Commit(1), BeginAt(0), Commit(2), Prune(1, 2));
    var four := Apply(Run([BeginAt(5), Commit(1), BeginAt(0)]), Commit(2));
    assert four.rows == [At(1, 5), At(2, 0)];
    PruneOfOne(four, 1, At(2, 0));
    var h := Run([BeginAt(5), Commit(1), BeginAt(0), Commit(2), Prune(1, 2)]);
    SameRowsSameTable(h.rows, [At(1, 5)]);
    GapAboveTheFirst(h, 5, 0);
  }

  /** A prune between the two statements of a request: the first reads 1, the second finds an
      empty page. */
  lemma PruneBetweenStatementsHidesTheGap()
    ensures Oldest(Run([BeginAt(0), Commit(1)]).rows, "t") == 1
    ensures !NoneMissed(Run([BeginAt(0), Commit(1)] + [Prune(1, 1)]), "t", 1)
  {
    EmptiedLedgerHidesTheGap();
    RunTwo(BeginAt(0), Commit(1));
    assert Run([BeginAt(0), Commit(1)]).rows == [At(1, 0)];
    assert [BeginAt(0), Commit(1)] + [Prune(1, 1)] == [BeginAt(0), Commit(1), Prune(1, 1)];
    NoneMissedFrom(Run([BeginAt(0), Commit(1), Prune(1, 1)]), "t", 1);
  }

  // ------------------------------------------- a prune that is halfway hides a gap

  function Filling(n: nat): seq<Op> {
    if n == 0 then [] else Filling(n - 1) + [BeginAt(0)] + [Commit(n)]
  }

  function Filled(n: nat): seq<Row> {
    seq(n, i requires i >= 0 => At(i + 1, 0))
  }

  /** Rows 1 to n are in the table and nothing else has happened. */
  ghost predicate IsFilled(h: History, n: nat) {
    && h.rows == Filled(n) && h.begun == Filled(n) && h.next == n + 1 && h.flying == map[] && h.halfway == None
    && forall r :: r in h.rows ==> r in h.ever
  }

  lemma OneMoreFilled(h: History, n: nat)
    requires IsFilled(h, n)
    ensures IsFilled(Apply(Apply(h, BeginAt(0)), Commit(n + 1)), n + 1)
  {
    var r := At(n + 1, 0);
    PlaceOnTop(Filled(n), r);
    assert Filled(n + 1) == Filled(n) + [r];
    var begun := Apply(h, BeginAt(0));
    assert begun.flying == map[n + 1 := r];
    assert Apply(begun, Commit(n + 1)).rows == Filled(n) + [r];
  }

  lemma {:induction false} FillingFills(n: nat)
    ensures IsFilled(Run(Filling(n)), n) && SparesFlights(Filling(n))
  {
    if n > 0 {
      FillingFills(n - 1);
      RunSnoc(Filling(n - 1), BeginAt(0));
      RunSnoc(Filling(n - 1) + [BeginAt(0)], Commit(n));
      OneMoreFilled(Run(Filling(n - 1)), n - 1);
    }
  }

  function Interval(a: nat, b: nat): (s: set<nat>)
    ensures forall q :: q in s <==> a <= q < b
  {
    if b <= a then {} else Interval(a, b - 1) + {b - 1}
  }

  lemma {:induction false} IntervalSize(a: nat, b: nat)
    requires a <= b
    ensures |Interval(a, b)| == b - a
  {
    if a < b { IntervalSize(a, b - 1); }
  }

  lemma AllExpire(n: nat)
    ensures Expired(Filled(n), 1) == Interval(1, n + 1)
  {
    forall q | q in Interval(1, n + 1) ensures q in Expired(Filled(n), 1) { assert Filled(n)[q - 1] == At(q, 0); }
  }

  lemma FilledHolds(n: nat, x: Row)
    ensures x in Filled(n) <==> 1 <= x.sequence <= n && x == At(x.sequence, 0)
  {
    if 1 <= x.sequence <= n { assert Filled(n)[x.sequence - 1] == At(x.sequence, 0); }
  }

  /** What is left when a batch has taken everything but the oldest row. */
  lemma OldestRowIsLeft(n: nat)
    requires n >= 1
    ensures Delete(Filled(n), Interval(2, n + 1)) == [At(1, 0)]
  {
    var left := Delete(Filled(n), Interval(2, n + 1));
    forall x ensures x in left <==> x in [At(1, 0)] { FilledHolds(n, x); }
    SameRowsSameTable(left, [At(1, 0)]);
  }

  function AllButTheOldest(limit: nat): Op {
    Batch(1, limit, Interval(2, limit + 2))
  }

  lemma TakesAllButTheOldest(h: History, limit: nat)
    requires IsFilled(h, limit + 1)
    ensures Takes(h, AllButTheOldest(limit)) && !Finishes(h, AllButTheOldest(limit))
  {
    AllExpire(limit + 1);
    IntervalSize(1, limit + 2);
    IntervalSize(2, limit + 2);
    assert 1 in Interval(1, limit + 2) && 1 !in Interval(2, limit + 2);
  }

  /** A gap above the oldest row, with timestamps in order and nothing in flight. */
  ghost predicate HidesAGap(ops: seq<Op>) {
    var h := Run(ops);
    && ByTime(h.begun) && SparesFlights(ops) && h.flying == map[] && h.halfway == Some(1)
    && HasTenant(h.rows, "t") && Oldest(h.rows, "t") == 1 && !NoneMissed(h, "t", 1)
  }

  lemma FilledIsByTime(n: nat)
    ensures ByTime(Filled(n))
  {
  }

  lemma TornByABatch(ops: seq<Op>, n: nat, op: Op)
    requires IsFilled(Run(ops), n) && n >= 2 && SparesFlights(ops)
    requires op.Batch? && op.cutoff == 1 && Takes(Run(ops), op) && !Finishes(Run(ops), op)
    requires Delete(Filled(n), op.gone) == [At(1, 0)]
    ensures HidesAGap(ops + [op])
  {
    RunSnoc(ops, op);
    FilledHolds(n, At(2, 0));
    FilledIsByTime(n);
    var h := Run(ops).(rows := [At(1, 0)], halfway := Some(1));
    assert Apply(Run(ops), op) == h;
    GapAboveTheFirst(h, 0, 0);
  }

  /** Whatever the size of a batch, a prune of one row more can leave the oldest row for its
      second batch. Until then that row hides the gap above it. */
  lemma HalfAPruneHidesAGap(limit: nat)
    requires limit >= 1
    ensures HidesAGap(Filling(limit + 1) + [AllButTheOldest(limit)])
  {
    FillingFills(limit + 1);
    TakesAllButTheOldest(Run(Filling(limit + 1)), limit);
    OldestRowIsLeft(limit + 1);
    TornByABatch(Filling(limit + 1), limit + 1, AllButTheOldest(limit));
  }
}
