/** Splitting resolved invoices into preview sheets, and putting them together again. */
module Preview {
  import opened Options
  import Filters

  datatype Sheet = Submission | Duplicate | Late | FreeOfCharge | Unusual | PossibleB2b | Failed

  /** The order in which sheets are listed. */
  const SHEETS: seq<Sheet> := [Submission, Duplicate, Late, FreeOfCharge, Unusual, PossibleB2b, Failed]

  datatype Flag = Flag(index: Option<int>, type_: string, severity: string, message: string)

  /** What classification reads of an invoice; `body` is the rest of it. Total is the amount
      read as a number, if it can be. */
  datatype Invoice = Invoice(body: string, transactionType: string, buyerTin: string, total: Option<real>,
                             issueDate: string, stream: string)

  datatype Row = Row(index: nat, invoice: Invoice, stream: Option<string>, error: Option<string>)

  /** Whether an issue date is more than 48 hours back depends on the clock. */
  type Lateness = string -> bool

  // -------------------------------------------------------------- classification

  predicate AnyOfType(flags: seq<Flag>, types: set<string>) {
    exists f :: f in flags && f.type_ in types
  }

  predicate HasError(flags: seq<Flag>) {
    exists f :: f in flags && f.severity == "error"
  }

  function JoinErrors(flags: seq<Flag>): string {
    if flags == [] then ""
    else if flags[|flags| - 1].severity != "error" then JoinErrors(flags[..|flags| - 1])
    else if HasError(flags[..|flags| - 1]) then JoinErrors(flags[..|flags| - 1]) + "; " + flags[|flags| - 1].message
    else flags[|flags| - 1].message
  }

  function Classify(inv: Invoice, flags: seq<Flag>, late: Lateness): Sheet {
    if HasError(flags) then Failed
    else if AnyOfType(flags, {"duplicate_irn", "duplicate_hash", "duplicate_suspected"}) then Duplicate
    else if inv.issueDate != "" && late(inv.issueDate) then Late
    else if inv.total.Some? && inv.total.value <= 0.01 then FreeOfCharge
    else if AnyOfType(flags, {"unusual_amount", "unusual_pattern"}) then Unusual
    else if inv.transactionType == "B2C" && inv.buyerTin != "" then PossibleB2b
    else Submission
  }

  /** How invoices are sorted into sheets. */
  type Classifier = (Invoice, seq<Flag>) -> Sheet

  function ByRules(late: Lateness): Classifier {
    (inv, flags) => Classify(inv, flags, late)
  }

  ghost predicate Raised(flags: seq<Flag>, type_: string) {
    exists k :: 0 <= k < |flags| && flags[k].type_ == type_
  }

  /** What each sheet is for, whatever else may be true of the invoice. */
  ghost predicate Qualifies(s: Sheet, inv: Invoice, flags: seq<Flag>, late: Lateness) {
    match s
    case Failed => exists k :: 0 <= k < |flags| && flags[k].severity == "error"
    case Duplicate =>
      Raised(flags, "duplicate_irn") || Raised(flags, "duplicate_hash") || Raised(flags, "duplicate_suspected")
    case Late => inv.issueDate != "" && late(inv.issueDate)
    case FreeOfCharge => inv.total.Some? && inv.total.value <= 0.01
    case Unusual => Raised(flags, "unusual_amount") || Raised(flags, "unusual_pattern")
    case PossibleB2b => inv.transactionType == "B2C" && inv.buyerTin != ""
    case Submission => true
  }

  /** The sheets by precedence. */
  const PRECEDENCE: seq<Sheet> := [Failed, Duplicate, Late, FreeOfCharge, Unusual, PossibleB2b, Submission]

  ghost predicate FirstToQualify(k: nat, inv: Invoice, flags: seq<Flag>, late: Lateness) {
    && k < |PRECEDENCE| && Qualifies(PRECEDENCE[k], inv, flags, late)
    && forall j :: 0 <= j < k ==> !Qualifies(PRECEDENCE[j], inv, flags, late)
  }

  lemma FlagsQualify(inv: Invoice, flags: seq<Flag>, late: Lateness)
    ensures HasError(flags) <==> Qualifies(Failed, inv, flags, late)
    ensures AnyOfType(flags, {"duplicate_irn", "duplicate_hash", "duplicate_suspected"})
            <==> Qualifies(Duplicate, inv, flags, late)
    ensures AnyOfType(flags, {"unusual_amount", "unusual_pattern"}) <==> Qualifies(Unusual, inv, flags, late)
  {
    forall k | 0 <= k < |flags| ensures flags[k] in flags { }
  }

  /** An invoice goes to the first sheet in the order of precedence that it qualifies for. */
  lemma ClassifiedByPrecedence(inv: Invoice, flags: seq<Flag>, late: Lateness)
    ensures exists k: nat :: FirstToQualify(k, inv, flags, late) && PRECEDENCE[k] == Classify(inv, flags, late)
  {
    FlagsQualify(inv, flags, late);
    var s := Classify(inv, flags, late);
    var k := match s
      case Failed => 0
      case Duplicate => 1
      case Late => 2
      case FreeOfCharge => 3
      case Unusual => 4
      case PossibleB2b => 5
      case Submission => 6;
    assert PRECEDENCE[k] == s;
    assert FirstToQualify(k, inv, flags, late);
  }

  function Rank(s: Sheet): nat {
    match s
    case Failed => 0
    case Duplicate => 1
    case Late => 2
    case FreeOfCharge => 3
    case Unusual => 4
    case PossibleB2b => 5
    case Submission => 6
  }

  lemma RankIsThePlace(s: Sheet)
    ensures Rank(s) < |PRECEDENCE| && PRECEDENCE[Rank(s)] == s
  {
  }

  lemma MoreFlagsQualifyMore(s: Sheet, inv: Invoice, a: seq<Flag>, b: seq<Flag>, late: Lateness)
    requires forall f :: f in a ==> f in b
    requires Qualifies(s, inv, a, late)
    ensures Qualifies(s, inv, b, late)
  {
    forall k | 0 <= k < |a| ensures exists j :: 0 <= j < |b| && b[j] == a[k] { assert a[k] in a; }
  }

  lemma BestQualified(s: Sheet, inv: Invoice, flags: seq<Flag>, late: Lateness)
    ensures Qualifies(Classify(inv, flags, late), inv, flags, late)
    ensures Qualifies(s, inv, flags, late) ==> Rank(Classify(inv, flags, late)) <= Rank(s)
  {
    FlagsQualify(inv, flags, late);
  }

  /** A further red flag never moves an invoice to a later sheet, and neither the order nor
      the number of equal flags matters. */
  lemma FlagsOnlyMoveForward(inv: Invoice, a: seq<Flag>, b: seq<Flag>, late: Lateness)
    requires forall f :: f in a ==> f in b
    ensures Rank(Classify(inv, b, late)) <= Rank(Classify(inv, a, late))
    ensures (forall f :: f in b ==> f in a) ==> Classify(inv, a, late) == Classify(inv, b, late)
  {
    BestQualified(Classify(inv, a, late), inv, b, late);
    BestQualified(Classify(inv, b, late), inv, a, late);
    MoreFlagsQualifyMore(Classify(inv, a, late), inv, a, b, late);
    BestQualified(Classify(inv, a, late), inv, a, late);
    BestQualified(Classify(inv, b, late), inv, b, late);
  }

  function RowOf(i: nat, inv: Invoice, flags: seq<Flag>): Row {
    if HasError(flags) then Row(i, inv, Some(if inv.stream == "" then "till" else inv.stream), Some(JoinErrors(flags)))
    else Row(i, inv, None, None)
  }

  /** The flags raised for one invoice. */
  function FlagsFor(flags: seq<Flag>, i: int): seq<Flag> {
    if flags == [] then []
    else
      FlagsFor(flags[..|flags| - 1], i)
      + if flags[|flags| - 1].index == Some(i) then [flags[|flags| - 1]] else []
  }

  /** The flags of an invoice are all that carry its index, in the order they were raised. */
  lemma {:induction false} FlagsForFilters(flags: seq<Flag>, i: int)
    ensures FlagsFor(flags, i) == Filters.Filtered(flags, (f: Flag) => f.index == Some(i))
  {
    if flags != [] { FlagsForFilters(flags[..|flags| - 1], i); }
  }

  /** Texts with a separator between each two. */
  function Joined(texts: seq<string>): string {
    if texts == [] then ""
    else if |texts| == 1 then texts[0]
    else Joined(texts[..|texts| - 1]) + "; " + texts[|texts| - 1]
  }

  function Messages(flags: seq<Flag>): seq<string> {
    seq(|flags|, i requires 0 <= i < |flags| => flags[i].message)
  }

  ghost function IsError(): Flag -> bool {
    (f: Flag) => f.severity == "error"
  }

  lemma JoinedSnoc(texts: seq<string>, t: string)
    ensures Joined(texts + [t]) == if texts == [] then t else Joined(texts) + "; " + t
  {
    assert (texts + [t])[..|texts|] == texts;
  }

  lemma {:induction false} ErrorsAreFound(flags: seq<Flag>)
    ensures HasError(flags) <==> Filters.Filtered(flags, IsError()) != []
  {
    if HasError(flags) {
      var f :| f in flags && f.severity == "error";
      Filters.FilteredMembers(flags, IsError(), f);
    }
    if Filters.Filtered(flags, IsError()) != [] {
      Filters.FilteredMembers(flags, IsError(), Filters.Filtered(flags, IsError())[0]);
    }
  }

  lemma MessagesSnoc(flags: seq<Flag>, f: Flag)
    ensures Messages(flags + [f]) == Messages(flags) + [f.message]
  {
  }

  /** The error of a failed row is the messages of all its error flags, in order. */
  lemma {:induction false} ErrorsAreJoined(flags: seq<Flag>)
    ensures JoinErrors(flags) == Joined(Messages(Filters.Filtered(flags, IsError())))
  {
    if flags != [] {
      var before, f := flags[..|flags| - 1], flags[|flags| - 1];
      var errors := Filters.Filtered(before, IsError());
      ErrorsAreJoined(before);
      ErrorsAreFound(before);
      MessagesSnoc(errors, f);
      JoinedSnoc(Messages(errors), f.message);
      assert Filters.Filtered(flags, IsError()) == if f.severity == "error" then errors + [f] else errors;
    }
  }

  /** A failed row keeps its invoice and says where it came from and what is wrong with it;
      any other row is the invoice alone. */
  lemma RowSays(i: nat, inv: Invoice, flags: seq<Flag>)
    ensures var row, errors := RowOf(i, inv, flags), Filters.Filtered(flags, IsError());
      && row.index == i && row.invoice == inv
      && row.error == (if errors == [] then None else Some(Joined(Messages(errors))))
      && row.stream == if errors == [] then None else if inv.stream == "" then Some("till") else Some(inv.stream)
  {
    ErrorsAreFound(flags);
    ErrorsAreJoined(flags);
  }

  // --------------------------------------------------------------------- branching

  type Categories = map<Sheet, seq<Row>>

  function SheetOf(invoices: seq<Invoice>, flags: seq<Flag>, cl: Classifier, i: nat): Sheet
    requires i < |invoices|
  {
    cl(invoices[i], FlagsFor(flags, i))
  }

  /** The rows of a sheet among the first n invoices. */
  function RowsIn(invoices: seq<Invoice>, flags: seq<Flag>, cl: Classifier, n: nat, s: Sheet): seq<Row>
    requires n <= |invoices|
  {
    if n == 0 then []
    else
      RowsIn(invoices, flags, cl, n - 1, s)
      + if SheetOf(invoices, flags, cl, n - 1) == s
        then [RowOf(n - 1, invoices[n - 1], FlagsFor(flags, n - 1))] else []
  }

  method IndexFlags(flags: seq<Flag>) returns (byIndex: map<int, seq<Flag>>)
    ensures forall i :: FlagsFor(flags, i) == if i in byIndex then byIndex[i] else []
  {
    byIndex := map[];
    var k := 0;
    assert flags[..0] == [];
    while k < |flags|
      invariant 0 <= k <= |flags|
      invariant forall i :: FlagsFor(flags[..k], i) == if i in byIndex then byIndex[i] else []
    {
      assert flags[..k + 1][..k] == flags[..k];
      if flags[k].index.Some? {
        var i := flags[k].index.value;
        byIndex := byIndex[i := (if i in byIndex then byIndex[i] else []) + [flags[k]]];
      }
      k := k + 1;
    }
    assert flags[..k] == flags;
  }

  lemma RowsInSnoc(invoices: seq<Invoice>, flags: seq<Flag>, cl: Classifier, i: nat, s: Sheet)
    requires i < |invoices|
    ensures RowsIn(invoices, flags, cl, i + 1, s)
            == if SheetOf(invoices, flags, cl, i) == s
               then RowsIn(invoices, flags, cl, i, s) + [RowOf(i, invoices[i], FlagsFor(flags, i))]
               else RowsIn(invoices, flags, cl, i, s)
  {
  }

  /** The sheets hold what the first n invoices put there. */
  ghost predicate BranchedUpTo(cats: Categories, invoices: seq<Invoice>, flags: seq<Flag>, cl: Classifier, n: nat)
    requires n <= |invoices|
  {
    forall s :: s in cats && cats[s] == RowsIn(invoices, flags, cl, n, s)
  }

  ghost predicate Branched(cats: Categories, invoices: seq<Invoice>, flags: seq<Flag>, cl: Classifier) {
    BranchedUpTo(cats, invoices, flags, cl, |invoices|)
  }

  lemma BranchOneMore(cats: Categories, invoices: seq<Invoice>, flags: seq<Flag>, cl: Classifier, i: nat)
    requires i < |invoices| && BranchedUpTo(cats, invoices, flags, cl, i)
    ensures var s := SheetOf(invoices, flags, cl, i);
      s in cats
      && BranchedUpTo(cats[s := cats[s] + [RowOf(i, invoices[i], FlagsFor(flags, i))]], invoices, flags, cl, i + 1)
  {
    var s := SheetOf(invoices, flags, cl, i);
    assert s in cats;
    var cats' := cats[s := cats[s] + [RowOf(i, invoices[i], FlagsFor(flags, i))]];
    forall t ensures t in cats' && cats'[t] == RowsIn(invoices, flags, cl, i + 1, t) {
      assert t in cats;
      RowsInSnoc(invoices, flags, cl, i, t);
    }
  }

  method BranchInvoices(invoices: seq<Invoice>, flags: seq<Flag>, cl: Classifier) returns (cats: Categories)
    ensures Branched(cats, invoices, flags, cl)
  {
    var byIndex := IndexFlags(flags);
    cats := map[Submission := [], Duplicate := [], Late := [], FreeOfCharge := [], Unusual := [], PossibleB2b := [],
                Failed := []];
    forall s: Sheet ensures s in cats && cats[s] == [] {
      match s
      case Submission =>
      case Duplicate =>
      case Late =>
      case FreeOfCharge =>
      case Unusual =>
      case PossibleB2b =>
      case Failed =>
    }
    var i := 0;
    while i < |invoices|
      invariant 0 <= i <= |invoices| && BranchedUpTo(cats, invoices, flags, cl, i)
    {
      var own := if i in byIndex then byIndex[i] else [];
      BranchOneMore(cats, invoices, flags, cl, i);
      var s := cl(invoices[i], own);
      cats := cats[s := cats[s] + [RowOf(i, invoices[i], own)]];
      i := i + 1;
    }
  }

  // ------------------------------------------------------------- putting together

  /** The first row with an index, as a merge by `_row_index` finds it. */
  function Find(rows: seq<Row>, i: nat): Option<Row> {
    if rows == [] then None
    else
      var before := Find(rows[..|rows| - 1], i);
      if before.Some? then before else if rows[|rows| - 1].index == i then Some(rows[|rows| - 1]) else None
  }

  /** All sheets one after the other. */
  function AllRows(cats: Categories): seq<Row>
    requires forall s :: s in cats
  {
    cats[Submission] + cats[Duplicate] + cats[Late] + cats[FreeOfCharge] + cats[Unusual] + cats[PossibleB2b]
    + cats[Failed]
  }

  /** The invoice list read back from the sheets. */
  function Merge(cats: Categories, n: nat): seq<Option<Invoice>>
    requires forall s :: s in cats
  {
    seq(n, i requires i >= 0 => match Find(AllRows(cats), i) case None => None case Some(row) => Some(row.invoice))
  }

  /** A sheet holds exactly its invoices. */
  lemma {:induction false} SheetHolds(invoices: seq<Invoice>, flags: seq<Flag>, cl: Classifier, n: nat, s: Sheet,
                                      i: nat)
    requires n <= |invoices|
    ensures Find(RowsIn(invoices, flags, cl, n, s), i)
            == if i < n && SheetOf(invoices, flags, cl, i) == s
               then Some(RowOf(i, invoices[i], FlagsFor(flags, i))) else None
  {
    if n > 0 {
      var rows, row := RowsIn(invoices, flags, cl, n - 1, s), RowOf(n - 1, invoices[n - 1], FlagsFor(flags, n - 1));
      SheetHolds(invoices, flags, cl, n - 1, s, i);
      FindSnoc(rows, row, i);
      var more := RowsIn(invoices, flags, cl, n, s);
      assert more == if SheetOf(invoices, flags, cl, n - 1) == s then rows + [row] else rows by {
        RowsInSnoc(invoices, flags, cl, n - 1, s);
      }
    }
  }

  predicate Ascending(rows: seq<Row>, below: nat) {
    && (forall k, l :: 0 <= k < l < |rows| ==> rows[k].index < rows[l].index)
    && (forall k :: 0 <= k < |rows| ==> rows[k].index < below)
  }

  lemma AscendingSnoc(rows: seq<Row>, row: Row, below: nat)
    requires Ascending(rows, below) && row.index == below
    ensures Ascending(rows + [row], below + 1) && Ascending(rows, below + 1)
  {
  }

  lemma {:induction false} SheetAscends(invoices: seq<Invoice>, flags: seq<Flag>, cl: Classifier, n: nat, s: Sheet)
    requires n <= |invoices|
    ensures Ascending(RowsIn(invoices, flags, cl, n, s), n)
  {
    if n > 0 {
      var rows, row := RowsIn(invoices, flags, cl, n - 1, s), RowOf(n - 1, invoices[n - 1], FlagsFor(flags, n - 1));
      SheetAscends(invoices, flags, cl, n - 1, s);
      AscendingSnoc(rows, row, n - 1);
      var more := RowsIn(invoices, flags, cl, n, s);
      assert more == if SheetOf(invoices, flags, cl, n - 1) == s then rows + [row] else rows by {
        RowsInSnoc(invoices, flags, cl, n - 1, s);
      }
    }
  }

  lemma FindSnoc(rows: seq<Row>, row: Row, i: nat)
    ensures Find(rows + [row], i)
            == if Find(rows, i).Some? then Find(rows, i) else if row.index == i then Some(row) else None
  {
    assert (rows + [row])[..|rows|] == rows;
  }

  lemma {:induction false} FindConcat(a: seq<Row>, b: seq<Row>, i: nat)
    ensures Find(a + b, i) == if Find(a, i).Some? then Find(a, i) else Find(b, i)
  {
    if b == [] {
      assert a + b == a;
    } else {
      FindConcat(a, b[..|b| - 1], i);
      assert (a + b)[..|a + b| - 1] == a + b[..|b| - 1];
    }
  }

  lemma FindInAll(cats: Categories, i: nat, s: Sheet)
    requires forall t :: t in cats
    requires forall t :: t != s ==> Find(cats[t], i).None?
    ensures Find(AllRows(cats), i) == Find(cats[s], i)
  {
    var a := cats[Submission] + cats[Duplicate];
    var b := a + cats[Late];
    var c := b + cats[FreeOfCharge];
    var d := c + cats[Unusual];
    var e := d + cats[PossibleB2b];
    FindConcat(cats[Submission], cats[Duplicate], i);
    FindConcat(a, cats[Late], i);
    FindConcat(b, cats[FreeOfCharge], i);
    FindConcat(c, cats[Unusual], i);
    FindConcat(d, cats[PossibleB2b], i);
    FindConcat(e, cats[Failed], i);
  }

  /** Each invoice is in exactly one sheet, once, and sheets keep the order of the list. */
  lemma EachInOneSheet(cats: Categories, invoices: seq<Invoice>, flags: seq<Flag>, cl: Classifier, i: nat, s: Sheet)
    requires Branched(cats, invoices, flags, cl) && i < |invoices|
    ensures Find(cats[s], i).Some? <==> s == SheetOf(invoices, flags, cl, i)
    ensures Find(cats[s], i).Some? ==> Find(cats[s], i).value.invoice == invoices[i]
    ensures forall k, l :: 0 <= k < l < |cats[s]| ==> cats[s][k].index < cats[s][l].index < |invoices|
  {
    SheetAscends(invoices, flags, cl, |invoices|, s);
    SheetHolds(invoices, flags, cl, |invoices|, s, i);
  }

  /** The rows annotated with a stream and their errors are those of the failed sheet. */
  lemma FailedRowsAreAnnotated(cats: Categories, invoices: seq<Invoice>, flags: seq<Flag>, late: Lateness, i: nat,
                               s: Sheet)
    requires Branched(cats, invoices, flags, ByRules(late)) && i < |invoices| && Find(cats[s], i).Some?
    ensures var row := Find(cats[s], i).value;
      (row.error.Some? <==> s == Failed) && (row.stream.Some? <==> s == Failed)
  {
    SheetHolds(invoices, flags, ByRules(late), |invoices|, s, i);
  }

  /** Merging the sheets by row index gives the invoice list back. */
  lemma MergeRestoresTheInvoices(cats: Categories, invoices: seq<Invoice>, flags: seq<Flag>, cl: Classifier)
    requires Branched(cats, invoices, flags, cl)
    ensures Merge(cats, |invoices|) == seq(|invoices|, i requires 0 <= i < |invoices| => Some(invoices[i]))
  {
    forall i: nat | i < |invoices| ensures Merge(cats, |invoices|)[i] == Some(invoices[i]) {
      var s := SheetOf(invoices, flags, cl, i);
      forall t: Sheet | t != s ensures Find(cats[t], i).None? {
        EachInOneSheet(cats, invoices, flags, cl, i, t);
      }
      EachInOneSheet(cats, invoices, flags, cl, i, s);
      FindInAll(cats, i, s);
    }
  }

  lemma {:induction false} SheetSizesAddUp(invoices: seq<Invoice>, flags: seq<Flag>, cl: Classifier, n: nat)
    requires n <= |invoices|
    ensures |RowsIn(invoices, flags, cl, n, Submission)| + |RowsIn(invoices, flags, cl, n, Duplicate)|
            + |RowsIn(invoices, flags, cl, n, Late)| + |RowsIn(invoices, flags, cl, n, FreeOfCharge)|
            + |RowsIn(invoices, flags, cl, n, Unusual)| + |RowsIn(invoices, flags, cl, n, PossibleB2b)|
            + |RowsIn(invoices, flags, cl, n, Failed)| == n
  {
    if n > 0 {
      SheetSizesAddUp(invoices, flags, cl, n - 1);
      var own := SheetOf(invoices, flags, cl, n - 1);
      forall s: Sheet
        ensures |RowsIn(invoices, flags, cl, n, s)|
                == |RowsIn(invoices, flags, cl, n - 1, s)| + if s == own then 1 else 0
      {
        RowsInSnoc(invoices, flags, cl, n - 1, s);
      }
    }
  }

  // --------------------------------------------------------------------- the manifest

  datatype Tab = OfInvoices(sheet: Sheet) | OfCustomers | OfInventory

  datatype SheetEntry = SheetEntry(tab: Tab, rowCount: nat, sortOrder: nat)

  datatype Manifest = Manifest(sheets: seq<SheetEntry>, total: nat, valid: nat, failed: nat)

  function RowTotal(entries: seq<SheetEntry>): nat {
    if entries == [] then 0 else RowTotal(entries[..|entries| - 1]) + entries[|entries| - 1].rowCount
  }

  ghost predicate Numbered(entries: seq<SheetEntry>) {
    forall k :: 0 <= k < |entries| ==> entries[k].sortOrder == k + 1
  }

  function SizesUpTo(cats: Categories, n: nat): nat
    requires n <= |SHEETS| && forall s :: s in cats
  {
    if n == 0 then 0 else SizesUpTo(cats, n - 1) + |cats[SHEETS[n - 1]]|
  }

  /** The listed sheets are the non-empty ones of the first n, in order. */
  function Listed(cats: Categories, n: nat): seq<SheetEntry>
    requires n <= |SHEETS| && forall s :: s in cats
  {
    if n == 0 then []
    else
      var before := Listed(cats, n - 1);
      var s := SHEETS[n - 1];
      if cats[s] == [] then before else before + [SheetEntry(OfInvoices(s), |cats[s]|, |before| + 1)]
  }

  lemma {:induction false} ListedIsNumbered(cats: Categories, n: nat)
    requires n <= |SHEETS| && forall s :: s in cats
    ensures Numbered(Listed(cats, n)) && RowTotal(Listed(cats, n)) == SizesUpTo(cats, n)
  {
    if n > 0 {
      ListedIsNumbered(cats, n - 1);
      var before, s := Listed(cats, n - 1), SHEETS[n - 1];
      assert (before + [SheetEntry(OfInvoices(s), |cats[s]|, |before| + 1)])[..|before|] == before;
    }
  }

  method ListSheets(cats: Categories) returns (entries: seq<SheetEntry>, sortOrder: nat)
    requires forall s :: s in cats
    ensures entries == Listed(cats, |SHEETS|) && sortOrder == |entries| + 1
  {
    entries, sortOrder := [], 1;
    var n := 0;
    while n < |SHEETS|
      invariant 0 <= n <= |SHEETS| && entries == Listed(cats, n) && sortOrder == |entries| + 1
    {
      var rows := cats[SHEETS[n]];
      if rows != [] {
        entries := entries + [SheetEntry(OfInvoices(SHEETS[n]), |rows|, sortOrder)];
        sortOrder := sortOrder + 1;
      }
      n := n + 1;
    }
  }

  lemma SizesAreAll(cats: Categories)
    requires forall s :: s in cats
    ensures SizesUpTo(cats, 7) == |AllRows(cats)|
  {
    assert SizesUpTo(cats, 1) == |cats[Submission]|;
    assert SizesUpTo(cats, 2) == SizesUpTo(cats, 1) + |cats[Duplicate]|;
    assert SizesUpTo(cats, 3) == SizesUpTo(cats, 2) + |cats[Late]|;
    assert SizesUpTo(cats, 4) == SizesUpTo(cats, 3) + |cats[FreeOfCharge]|;
    assert SizesUpTo(cats, 5) == SizesUpTo(cats, 4) + |cats[Unusual]|;
    assert SizesUpTo(cats, 6) == SizesUpTo(cats, 5) + |cats[PossibleB2b]|;
    assert SizesUpTo(cats, 7) == SizesUpTo(cats, 6) + |cats[Failed]|;
  }

  /** No invoice is lost or doubled on the way to the sheets. */
  lemma SheetsHoldAsManyRows(cats: Categories, invoices: seq<Invoice>, flags: seq<Flag>, cl: Classifier)
    requires Branched(cats, invoices, flags, cl)
    ensures |AllRows(cats)| == |invoices| && RowTotal(Listed(cats, |SHEETS|)) == |invoices|
  {
    ListedIsNumbered(cats, |SHEETS|);
    SizesAreAll(cats);
    SheetSizesAddUp(invoices, flags, cl, |invoices|);
  }

  lemma {:induction false} ListedHasRows(cats: Categories, n: nat)
    requires n <= |SHEETS| && forall s :: s in cats
    ensures forall e :: e in Listed(cats, n) ==> e.rowCount > 0
  {
    if n > 0 { ListedHasRows(cats, n - 1); }
  }

  ghost predicate WellListed(entries: seq<SheetEntry>, sortOrder: nat, rows: nat) {
    && Numbered(entries) && sortOrder == |entries| + 1 && RowTotal(entries) == rows
    && forall e :: e in entries ==> e.rowCount > 0
  }

  /** An entity sheet is listed if it has rows. */
  method AddEntitySheet(entries: seq<SheetEntry>, sortOrder: nat, tab: Tab, count: nat, ghost rows: nat)
    returns (entries': seq<SheetEntry>, sortOrder': nat)
    requires WellListed(entries, sortOrder, rows)
    ensures WellListed(entries', sortOrder', rows + count)
    ensures entries' == entries + if count > 0 then [SheetEntry(tab, count, sortOrder)] else []
  {
    entries', sortOrder' := entries, sortOrder;
    if count > 0 {
      entries' := entries + [SheetEntry(tab, count, sortOrder)];
      assert entries'[..|entries|] == entries;
      sortOrder' := sortOrder + 1;
    }
  }

  /** The tabs after the invoice sheets: customers, then inventory, each if it has rows. */
  function EntityTabs(customers: nat, products: nat, next: nat): seq<SheetEntry> {
    (if customers > 0 then [SheetEntry(OfCustomers, customers, next)] else [])
    + (if products > 0 then [SheetEntry(OfInventory, products, if customers > 0 then next + 1 else next)] else [])
  }

  method AddEntitySheets(entries: seq<SheetEntry>, sortOrder: nat, customers: nat, products: nat, ghost rows: nat)
    returns (entries': seq<SheetEntry>)
    requires WellListed(entries, sortOrder, rows)
    ensures WellListed(entries', |entries'| + 1, rows + customers + products)
    ensures entries' == entries + EntityTabs(customers, products, |entries| + 1)
  {
    var next := sortOrder;
    entries', next := AddEntitySheet(entries, sortOrder, OfCustomers, customers, rows);
    entries', next := AddEntitySheet(entries', next, OfInventory, products, rows + customers);
  }

  lemma ListedIsWell(cats: Categories, invoices: seq<Invoice>, flags: seq<Flag>, cl: Classifier)
    requires Branched(cats, invoices, flags, cl)
    ensures var own := Listed(cats, |SHEETS|); WellListed(own, |own| + 1, |invoices|)
  {
    ListedIsNumbered(cats, |SHEETS|);
    ListedHasRows(cats, |SHEETS|);
    SheetsHoldAsManyRows(cats, invoices, flags, cl);
  }

  /** Sheets are numbered from one without gaps, entity sheets last; the total is the number
      of invoices and the invoice sheets hold as many rows. */
  method Generate(invoices: seq<Invoice>, flags: seq<Flag>, cl: Classifier, customers: nat, products: nat)
    returns (m: Manifest, cats: Categories)
    ensures Branched(cats, invoices, flags, cl)
    ensures Numbered(m.sheets) && forall e :: e in m.sheets ==> e.rowCount > 0
    ensures m.total == |invoices| && RowTotal(m.sheets) == |invoices| + customers + products
    ensures m.valid == |cats[Submission]| && m.failed == |cats[Failed]|
    ensures var own := Listed(cats, |SHEETS|); m.sheets == own + EntityTabs(customers, products, |own| + 1)
  {
    cats := BranchInvoices(invoices, flags, cl);
    var entries, sortOrder := ListSheets(cats);
    ListedIsWell(cats, invoices, flags, cl);
    SheetsHoldAsManyRows(cats, invoices, flags, cl);
    entries := AddEntitySheets(entries, sortOrder, customers, products, |invoices|);
    m := Manifest(entries, |AllRows(cats)|, |cats[Submission]|, |cats[Failed]|);
  }
}
