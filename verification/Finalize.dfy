/**
 The finalize pipeline: gate the edits, stamp reference numbers and QR codes, commit all
 rows in one transaction or none.
 */
module Finalize {
  import opened Options
  import opened Provenance
  import opened EditValidator
  import opened EditTheorems
  import opened Tables
  import opened RecordCreator
  import opened CommitTheorems
  import opened Irn
  import opened PyText
  import EditRules
  import Filters

  /** The QR library: it makes an image, raises its own error, or something else raises. */
  datatype QrOutcome = QrMade(data: string) | QrRefused | QrRaised

  datatype Context = Context(
    service: string, iso: IsoReader, today: Date, isAlnum: char -> bool, qr: (nat, Fields) -> QrOutcome,
    parse: NumberReader, schema: Schema, upper: string -> string)

  function TheShop(ctx: Context): Shop {
    ShopOf(ctx.schema, ctx.upper)
  }

  // ------------------------------------------------------------ reference numbers

  function KeepAlnum(s: string, isAlnum: char -> bool): string {
    if s == "" then "" else (if isAlnum(s[0]) then [s[0]] else []) + KeepAlnum(s[1..], isAlnum)
  }

  datatype IrnOutcome = Stamped(irn: string) | Refused | Raised

  function Issued(v: Value): IssueDate {
    if v.Text? then Iso(v.s) else OtherType
  }

  /** One turn of `_generate_irns`: a number that is no text cannot be iterated, and that
      exception is none the pipeline catches. */
  function StampIrn(ctx: Context, row: Row): IrnOutcome {
    var number := GetOr(row.fields, "invoice_number", Text(""));
    if !number.Text? then Raised
    else
      var clean := KeepAlnum(number.s, ctx.isAlnum);
      if clean == "" then Refused
      else
        match GenerateIrn(clean, ctx.service, Issued(GetOr(row.fields, "issue_date", Text(""))), ctx.iso, ctx.today)
        case Made(irn) => Stamped(irn)
        case Failed(_) => Refused
  }

  /** The number filter keeps exactly the accepted characters. */
  lemma {:induction false} KeepAlnumFilters(s: string, isAlnum: char -> bool)
    ensures KeepAlnum(s, isAlnum) == Filters.Filtered(s, isAlnum)
  {
    if s != "" {
      KeepAlnumFilters(s[1..], isAlnum);
      Filters.FilteredHead(s, isAlnum);
    }
  }

  /** The two fields a stamp is made from; a missing one is the empty text. */
  ghost predicate Reads(row: Row, number: string, date: string) {
    && (if "invoice_number" in row.fields then row.fields["invoice_number"] == Text(number) else number == "")
    && (if "issue_date" in row.fields then row.fields["issue_date"] == Text(date) else date == "")
  }

  /** Python's `isalnum` holds of no white space. */
  ghost predicate AlnumIsNoSpace(isAlnum: char -> bool) {
    forall c :: isAlnum(c) ==> !IsSpace(c)
  }

  lemma FilteredHasNoSpace(s: string, isAlnum: char -> bool)
    requires AlnumIsNoSpace(isAlnum)
    ensures Strip(Filters.Filtered(s, isAlnum)) == Filters.Filtered(s, isAlnum)
  {
    var t := Filters.Filtered(s, isAlnum);
    forall i | 0 <= i < |t| ensures !IsSpace(t[i]) {
      assert t[i] in t;
      Filters.FilteredMembers(s, isAlnum, t[i]);
    }
    NothingToStrip(t);
  }

  /** A stamped number splits into the accepted characters of the row's invoice number, in
      order and each as often as it is there, the service, and the date. */
  lemma StampSplits(ctx: Context, row: Row) returns (number: string, date: string)
    requires AlnumIsNoSpace(ctx.isAlnum) && StampIrn(ctx, row).Stamped?
    ensures Reads(row, number, date) && ctx.iso(date).Some?
    ensures Split(StampIrn(ctx, row).irn)
            == [Filters.Filtered(number, ctx.isAlnum), Strip(ctx.service), Stamp(ctx.iso(date).value)]
  {
    number, date := GetOr(row.fields, "invoice_number", Text("")).s, GetOr(row.fields, "issue_date", Text("")).s;
    KeepAlnumFilters(number, ctx.isAlnum);
    FilteredHasNoSpace(number, ctx.isAlnum);
    GeneratedSplitsBack(KeepAlnum(number, ctx.isAlnum), ctx.service, Iso(date), ctx.iso, ctx.today);
  }

  /** A row is stamped exactly if both fields are texts, what is left of the number is a plain
      word, the service is one of eight characters, and the date is readable and not of the
      future; an invoice number that is no text raises. */
  lemma StampedExactly(ctx: Context, row: Row)
    requires AlnumIsNoSpace(ctx.isAlnum)
    ensures StampIrn(ctx, row).Raised? <==> "invoice_number" in row.fields && !row.fields["invoice_number"].Text?
    ensures StampIrn(ctx, row).Stamped?
            <==> exists number, date ::
                   && Reads(row, number, date) && PlainWord(Filters.Filtered(number, ctx.isAlnum))
                   && PlainWord(Strip(ctx.service)) && |Strip(ctx.service)| == 8
                   && ctx.iso(date).Some? && Ordinal(ctx.iso(date).value) <= Ordinal(ctx.today)
  {
    var n, d := GetOr(row.fields, "invoice_number", Text("")), GetOr(row.fields, "issue_date", Text(""));
    if n.Text? {
      var clean := KeepAlnum(n.s, ctx.isAlnum);
      KeepAlnumFilters(n.s, ctx.isAlnum);
      FilteredHasNoSpace(n.s, ctx.isAlnum);
      GenerationSucceedsExactly(clean, ctx.service, Issued(d), ctx.iso, ctx.today);
      if StampIrn(ctx, row).Stamped? { assert Reads(row, n.s, d.s); }
    }
  }

  /** Two rows get the same reference number exactly when the accepted characters of their
      invoice numbers and their dates are the same: punctuation tells no rows apart. */
  lemma StampedAlikeExactly(ctx: Context, a: Row, b: Row, na: string, da: string, nb: string, db: string)
    requires AlnumIsNoSpace(ctx.isAlnum) && Reads(a, na, da) && Reads(b, nb, db)
    requires StampIrn(ctx, a).Stamped? && StampIrn(ctx, b).Stamped?
    ensures StampIrn(ctx, a) == StampIrn(ctx, b)
            <==> Filters.Filtered(na, ctx.isAlnum) == Filters.Filtered(nb, ctx.isAlnum) && ctx.iso(da) == ctx.iso(db)
  {
    var na', da' := StampSplits(ctx, a);
    var nb', db' := StampSplits(ctx, b);
    KeepAlnumFilters(na, ctx.isAlnum);
    KeepAlnumFilters(nb, ctx.isAlnum);
    var p, q := Split(StampIrn(ctx, a).irn), Split(StampIrn(ctx, b).irn);
    if StampIrn(ctx, a) == StampIrn(ctx, b) {
      assert p[0] == q[0] && p[2] == q[2];
      StampInjective(ctx.iso(da).value, ctx.iso(db).value);
    }
  }

  /** Rows whose invoice numbers are letters and digits only, and differ, get different
      reference numbers. */
  lemma AlnumNumbersAreToldApart(ctx: Context, a: Row, b: Row, na: string, da: string, nb: string, db: string)
    requires AlnumIsNoSpace(ctx.isAlnum) && Reads(a, na, da) && Reads(b, nb, db) && na != nb
    requires forall c :: c in na || c in nb ==> ctx.isAlnum(c)
    requires StampIrn(ctx, a).Stamped? && StampIrn(ctx, b).Stamped?
    ensures StampIrn(ctx, a) != StampIrn(ctx, b)
  {
    StampedAlikeExactly(ctx, a, b, na, da, nb, db);
    Filters.FilteredAll(na, ctx.isAlnum);
    Filters.FilteredAll(nb, ctx.isAlnum);
  }

  function WithIrn(row: Row, irn: string): Row {
    row.(fields := row.fields["irn" := Text(irn)])
  }

  predicate AllStamped(ctx: Context, rows: seq<Row>) {
    forall i :: 0 <= i < |rows| ==> StampIrn(ctx, rows[i]).Stamped?
  }

  function WithIrns(ctx: Context, rows: seq<Row>): seq<Row>
    requires AllStamped(ctx, rows)
  {
    seq(|rows|, i requires 0 <= i < |rows| && AllStamped(ctx, rows) => WithIrn(rows[i], StampIrn(ctx, rows[i]).irn))
  }

  // --------------------------------------------------------------------- QR codes

  function WithQr(ctx: Context, i: nat, row: Row): Row {
    match ctx.qr(i, row.fields)
    case QrMade(data) => row.(fields := row.fields["qr_code_data" := Text(data)])
    case QrRefused => row
    case QrRaised => row
  }

  function WithQrs(ctx: Context, rows: seq<Row>): seq<Row> {
    seq(|rows|, i requires 0 <= i < |rows| => WithQr(ctx, i, rows[i]))
  }

  predicate NoQrRaised(ctx: Context, rows: seq<Row>) {
    forall i :: 0 <= i < |rows| ==> !ctx.qr(i, rows[i].fields).QrRaised?
  }

  /** The rows among the first n that have a QR code made. */
  function QrMadeAmong(ctx: Context, rows: seq<Row>, n: nat): nat
    requires n <= |rows|
  {
    if n == 0 then 0
    else QrMadeAmong(ctx, rows, n - 1) + if ctx.qr(n - 1, rows[n - 1].fields).QrMade? then 1 else 0
  }

  ghost function MadeBefore(ctx: Context, rows: seq<Row>, n: nat): set<nat>
    requires n <= |rows|
  {
    set i: nat | i < n && ctx.qr(i, rows[i].fields).QrMade?
  }

  /** What stops a run is an exception that is not the library's own. */
  lemma OnlyExceptionsStop(ctx: Context, rows: seq<Row>, i: nat)
    requires i < |rows|
    ensures ctx.qr(i, rows[i].fields) == QrRaised ==> !NoQrRaised(ctx, rows)
    ensures (forall k: nat :: k < |rows| ==> ctx.qr(k, rows[k].fields) != QrRaised) ==> NoQrRaised(ctx, rows)
  {
  }

  /** The codes counted are those made, not those refused. */
  lemma {:induction false} QrCountIs(ctx: Context, rows: seq<Row>, n: nat)
    requires n <= |rows|
    ensures QrMadeAmong(ctx, rows, n) == |MadeBefore(ctx, rows, n)|
  {
    if n == 0 {
      assert MadeBefore(ctx, rows, n) == {};
    } else {
      QrCountIs(ctx, rows, n - 1);
      var before: set<nat>, m: nat := MadeBefore(ctx, rows, n - 1), n - 1;
      assert MadeBefore(ctx, rows, n) == if ctx.qr(m, rows[m].fields).QrMade? then before + {m} else before;
    }
  }

  function Prepared(ctx: Context, rows: seq<Row>): seq<Row>
    requires AllStamped(ctx, rows)
  {
    WithQrs(ctx, WithIrns(ctx, rows))
  }

  // ------------------------------------------------------------------ the methods

  datatype Step = Fine | Refusal | Exception

  /** Rows are stamped in place up to the first that fails. */
  method GenerateIrns(ctx: Context, rows: seq<Row>) returns (step: Step, stamped: seq<Row>, count: nat)
    ensures step.Fine? <==> AllStamped(ctx, rows)
    ensures step.Fine? ==> stamped == WithIrns(ctx, rows) && count == |rows|
    ensures !step.Fine? ==>
              && count < |rows| && |stamped| == |rows|
              && (forall k :: 0 <= k < count ==>
                    StampIrn(ctx, rows[k]).Stamped? && stamped[k] == WithIrn(rows[k], StampIrn(ctx, rows[k]).irn))
              && (forall k :: count <= k < |rows| ==> stamped[k] == rows[k])
              && StampIrn(ctx, rows[count]) == if step.Refusal? then Refused else Raised
  {
    stamped, count := rows, 0;
    while count < |rows|
      invariant 0 <= count <= |rows| && |stamped| == |rows|
      invariant forall k :: 0 <= k < count ==>
                  StampIrn(ctx, rows[k]).Stamped? && stamped[k] == WithIrn(rows[k], StampIrn(ctx, rows[k]).irn)
      invariant forall k :: count <= k < |rows| ==> stamped[k] == rows[k]
    {
      match StampIrn(ctx, rows[count]) {
        case Stamped(irn) =>
          stamped := stamped[count := WithIrn(rows[count], irn)];
        case Refused => return Refusal, stamped, count;
        case Raised => return Exception, stamped, count;
      }
      count := count + 1;
    }
    step := Fine;
  }

  method GenerateQrCodes(ctx: Context, rows: seq<Row>) returns (step: Step, coded: seq<Row>, count: nat, warnings: nat)
    ensures step.Fine? <==> NoQrRaised(ctx, rows)
    ensures !step.Refusal?
    ensures step.Fine? ==> coded == WithQrs(ctx, rows)
    ensures step.Fine? ==> count == QrMadeAmong(ctx, rows, |rows|) && count + warnings == |rows|
  {
    coded, count, warnings := rows, 0, 0;
    var i := 0;
    while i < |rows|
      invariant 0 <= i <= |rows| && |coded| == |rows|
      invariant forall k :: 0 <= k < i ==> coded[k] == WithQr(ctx, k, rows[k]) && !ctx.qr(k, rows[k].fields).QrRaised?
      invariant forall k :: i <= k < |rows| ==> coded[k] == rows[k]
      invariant count == QrMadeAmong(ctx, rows, i) && count + warnings == i
    {
      match ctx.qr(i, rows[i].fields) {
        case QrMade(data) =>
          coded := coded[i := WithQr(ctx, i, rows[i])];
          count := count + 1;
        case QrRefused => warnings := warnings + 1;
        case QrRaised => return Exception, coded, count, warnings;
      }
      i := i + 1;
    }
    step := Fine;
  }

  datatype FinalizeResult = FinalizeResult(success: bool, violations: nat, irnCount: nat, qrCount: nat, qrWarnings: nat)

  /** A pipeline that returns, or raises out of it. */
  datatype Outcome = Returned(result: FinalizeResult) | Escaped

  predicate Succeeded(o: Outcome) {
    o.Returned? && o.result.success
  }

  /** What it takes to be committed. */
  ghost predicate Passes(ctx: Context, submitted: seq<Row>, preview: seq<Row>, direction: string, db: Database) {
    && |submitted| == |preview|
    && Valid(GateRules(direction, ctx.parse), submitted, preview)
    && AllStamped(ctx, submitted)
    && NoQrRaised(ctx, WithIrns(ctx, submitted))
    && Lands(TheShop(ctx), Prepared(ctx, submitted), db)
  }

  /** The pipeline up to the commit; feedback and transmission after it only add warnings. */
  method Finalize(ctx: Context, creator: RecordCreator, submitted: seq<Row>, preview: seq<Row>, direction: string,
                  db: Database)
    returns (outcome: Outcome)
    requires creator.shop == TheShop(ctx)
    modifies creator
    ensures Succeeded(outcome) <==> Passes(ctx, submitted, preview, direction, db)
    ensures !Succeeded(outcome) ==> creator.store == old(creator.store)
    ensures Succeeded(outcome) ==>
              && creator.store == ApplyRows(TheShop(ctx), old(creator.store), Prepared(ctx, submitted))
              && creator.counts == CountRows(TheShop(ctx), Prepared(ctx, submitted), |submitted|)
              && outcome.result.irnCount == |submitted|
              && outcome.result.qrCount + outcome.result.qrWarnings == |submitted|
              && outcome.result.qrCount == QrMadeAmong(ctx, WithIrns(ctx, submitted), |submitted|)
  {
    var validation := Validate(GateRules(direction, ctx.parse), submitted, preview);
    if !validation.isValid {
      return Returned(FinalizeResult(false, |validation.violations|, 0, 0, 0));
    }
    var step, stamped, irns := GenerateIrns(ctx, submitted);
    if step.Refusal? {
      return Returned(FinalizeResult(false, 0, irns, 0, 0));
    } else if step.Exception? {
      return Escaped;
    }
    var qrStep, coded, qrs, qrWarnings := GenerateQrCodes(ctx, stamped);
    if qrStep.Exception? {
      return Escaped;
    }
    var success := creator.CommitBatch(coded, db);
    outcome := Returned(FinalizeResult(success, 0, irns, qrs, qrWarnings));
  }

  // ----------------------------------------------------------------- the guarantee

  lemma ProtectedDoesNotDiffer(direction: string, parse: NumberReader, subs: seq<Row>, prevs: seq<Row>, i: nat,
                               k: string)
    requires i < |subs| == |prevs| && Valid(GateRules(direction, parse), subs, prevs) && Protected(k, direction)
    ensures ValuesEqual(Get(subs[i].fields, k), Get(prevs[i].fields, k))
  {
    var rules := GateRules(direction, parse);
    ValidExactly(rules, subs, prevs);
    assert RowClean(rules, i, subs[i], prevs[i]);
    AlwaysEditableIsApart(k, direction);
    var c := OfInvoice(rules, i, subs[i], prevs[i]);
    assert c.judge(k) == InvoiceVerdict(direction, parse, prevs[i], k);
    AbsentOnBoth(c, k);
  }

  lemma AbsentOnBoth(c: Comparison, k: string)
    ensures Differs(c, k) ==> k in DiffKeys(c)
  {
  }

  lemma OnlyClassificationDiffers(direction: string, parse: NumberReader, subs: seq<Row>, prevs: seq<Row>,
                                  i: nat, j: nat, k: string)
    requires i < |subs| == |prevs| && Valid(GateRules(direction, parse), subs, prevs)
    requires j < |subs[i].items| && k !in CLASSIFICATION && k !in SKIP_ITEM
    ensures |subs[i].items| == |prevs[i].items|
    ensures ValuesEqual(Get(subs[i].items[j].fields, k), Get(prevs[i].items[j].fields, k))
  {
    var rules := GateRules(direction, parse);
    ValidExactly(rules, subs, prevs);
    assert RowClean(rules, i, subs[i], prevs[i]);
    var c := OfItem(rules, i, j, subs[i].items[j], prevs[i].items[j]);
    assert NoFaults(c);
    assert c.judge(k) == ItemVerdict(parse, prevs[i].items[j], k);
    AbsentOnBoth(c, k);
  }

  lemma PreparedKeeps(ctx: Context, rows: seq<Row>, i: nat, k: string)
    requires AllStamped(ctx, rows) && i < |rows|
    ensures Prepared(ctx, rows)[i].items == rows[i].items
    ensures k != "irn" && k != "qr_code_data" ==>
              (k in Prepared(ctx, rows)[i].fields <==> k in rows[i].fields)
              && Get(Prepared(ctx, rows)[i].fields, k) == Get(rows[i].fields, k)
    ensures Get(Prepared(ctx, rows)[i].fields, "irn") == Text(StampIrn(ctx, rows[i]).irn)
    ensures "irn" in Prepared(ctx, rows)[i].fields
  {
    assert "irn"[0] != "qr_code_data"[0];
  }

  /** The row an invoice newly in the store comes from. */
  ghost predicate ComesFrom(ctx: Context, id: Value, record: Fields, row: Row, prev: Row, direction: string) {
    && Get(row.fields, "invoice_id") == id
    && record.Keys == ctx.schema.invoice.Keys
    && forall k :: k in record && Protected(k, direction) && k != "irn" && k != "qr_code_data" ==>
         if k in row.fields then ValuesEqual(record[k], Get(prev.fields, k))
         else ValuesEqual(Null, Get(prev.fields, k)) && record[k] == ctx.schema.invoice[k]
  }

  lemma RecordAgrees(ctx: Context, subs: seq<Row>, prevs: seq<Row>, direction: string, i: nat)
    requires i < |subs| == |prevs| && Valid(GateRules(direction, ctx.parse), subs, prevs) && AllStamped(ctx, subs)
    ensures ComesFrom(ctx, Get(subs[i].fields, "invoice_id"),
            Columns(Prepared(ctx, subs)[i].fields, ctx.schema.invoice),
                      subs[i], prevs[i], direction)
    ensures "irn" in ctx.schema.invoice ==>
              Columns(Prepared(ctx, subs)[i].fields, ctx.schema.invoice)["irn"] == Text(StampIrn(ctx, subs[i]).irn)
  {
    var record := Columns(Prepared(ctx, subs)[i].fields, ctx.schema.invoice);
    forall k | k in record && Protected(k, direction) && k != "irn" && k != "qr_code_data"
      ensures if k in subs[i].fields then ValuesEqual(record[k], Get(prevs[i].fields, k))
              else ValuesEqual(Null, Get(prevs[i].fields, k)) && record[k] == ctx.schema.invoice[k]
    {
      ProtectedDoesNotDiffer(direction, ctx.parse, subs, prevs, i, k);
      PreparedKeeps(ctx, subs, i, k);
    }
    PreparedKeeps(ctx, subs, i, "irn");
  }

  lemma InvoiceIdKept(ctx: Context, subs: seq<Row>, i: nat)
    requires i < |subs| && AllStamped(ctx, subs)
    ensures Get(Prepared(ctx, subs)[i].fields, "invoice_id") == Get(subs[i].fields, "invoice_id")
  {
    assert |"invoice_id"| == 10 && |"irn"| == 3 && |"qr_code_data"| == 12;
    PreparedKeeps(ctx, subs, i, "invoice_id");
  }

  lemma NewInvoice(ctx: Context, s: Store, rows: seq<Row>, id: Value) returns (k: nat)
    requires id in ApplyRows(TheShop(ctx), s, rows).invoices && id !in s.invoices
    ensures k < |rows| && Get(rows[k].fields, "invoice_id") == id
    ensures ApplyRows(TheShop(ctx), s, rows).invoices[id] == Columns(rows[k].fields, ctx.schema.invoice)
  {
    var xs := AllInvoices(TheShop(ctx), rows);
    InvoicesInserted(TheShop(ctx), s, rows, |rows|);
    assert xs[..|rows|] == xs;
    InsertsKeepTheFirst(s.invoices, xs, id);
    k :| IsFirst(xs, k) && xs[k].key == id && InsertAll(s.invoices, xs)[id] == xs[k].columns;
    assert xs[k] == InvoiceInsert(ctx.schema, rows[k]);
  }

  lemma OldInvoice(ctx: Context, s: Store, rows: seq<Row>, id: Value)
    ensures id in s.invoices ==>
              var now := ApplyRows(TheShop(ctx), s, rows).invoices; id in now && now[id] == s.invoices[id]
  {
    var xs := AllInvoices(TheShop(ctx), rows);
    InvoicesInserted(TheShop(ctx), s, rows, |rows|);
    assert xs[..|rows|] == xs;
    InsertsKeepTheFirst(s.invoices, xs, id);
  }

  /** Every invoice a successful finalize adds agrees with its preview on all protected
      columns but the two generated ones, carries the number generated for it, and every
      invoice that was there before stays as it was. */
  lemma CommittedAgreesWithPreview(ctx: Context, s: Store, subs: seq<Row>, prevs: seq<Row>, direction: string,
                                   db: Database, id: Value)
    requires Passes(ctx, subs, prevs, direction, db)
    ensures var now := ApplyRows(TheShop(ctx), s, Prepared(ctx, subs)).invoices;
      && (id in s.invoices ==> id in now && now[id] == s.invoices[id])
      && (id in now && id !in s.invoices ==>
            exists i: nat :: i < |subs| && ComesFrom(ctx, id, now[id], subs[i], prevs[i], direction)
                             && ("irn" in now[id] ==> now[id]["irn"] == Text(StampIrn(ctx, subs[i]).irn)))
  {
    var rows := Prepared(ctx, subs);
    var now := ApplyRows(TheShop(ctx), s, rows).invoices;
    if id in now && id !in s.invoices {
      var k := NewInvoice(ctx, s, rows, id);
      InvoiceIdKept(ctx, subs, k);
      RecordAgrees(ctx, subs, prevs, direction, k);
    } else {
      OldInvoice(ctx, s, rows, id);
    }
  }

  /** With the service's own columns the number is in the stored invoice. */
  lemma CommittedInvoiceCarriesItsNumber(ctx: Context, s: Store, subs: seq<Row>, prevs: seq<Row>, direction: string,
                                         db: Database, id: Value)
    requires Passes(ctx, subs, prevs, direction, db) && ctx.schema == ShippedSchema()
    requires id in ApplyRows(TheShop(ctx), s, Prepared(ctx, subs)).invoices && id !in s.invoices
    ensures var now := ApplyRows(TheShop(ctx), s, Prepared(ctx, subs)).invoices;
      "irn" in now[id] && exists i: nat :: i < |subs| && Get(subs[i].fields, "invoice_id") == id
                                           && now[id]["irn"] == Text(StampIrn(ctx, subs[i]).irn)
  {
    NumberIsAColumn();
    CommittedAgreesWithPreview(ctx, s, subs, prevs, direction, db, id);
  }

  /** What the QR library made of a row that carries its number, or what the row had before. */
  ghost function CodeOf(ctx: Context, subs: seq<Row>, i: nat): Value
    requires i < |subs| && StampIrn(ctx, subs[i]).Stamped?
  {
    match ctx.qr(i, subs[i].fields["irn" := Text(StampIrn(ctx, subs[i]).irn)])
    case QrMade(data) => Text(data)
    case _ => Get(subs[i].fields, "qr_code_data")
  }

  lemma PreparedHasCode(ctx: Context, subs: seq<Row>, i: nat)
    requires AllStamped(ctx, subs) && i < |subs|
    ensures Get(Prepared(ctx, subs)[i].fields, "qr_code_data") == CodeOf(ctx, subs, i)
  {
    assert "irn"[0] != "qr_code_data"[0];
  }

  lemma CodeIsAColumn()
    ensures "qr_code_data" in ShippedSchema().invoice && ShippedSchema().invoice["qr_code_data"] == Null
  {
  }

  /** A committed invoice holds the QR code made for it, of the row with its number in it. */
  lemma CommittedInvoiceCarriesItsCode(ctx: Context, s: Store, subs: seq<Row>, prevs: seq<Row>, direction: string,
                                       db: Database, id: Value)
    requires Passes(ctx, subs, prevs, direction, db) && ctx.schema == ShippedSchema()
    requires id in ApplyRows(TheShop(ctx), s, Prepared(ctx, subs)).invoices && id !in s.invoices
    ensures var now := ApplyRows(TheShop(ctx), s, Prepared(ctx, subs)).invoices;
      exists i: nat :: i < |subs| && Get(subs[i].fields, "invoice_id") == id
                       && Get(now[id], "qr_code_data") == CodeOf(ctx, subs, i)
  {
    var k := NewInvoice(ctx, s, Prepared(ctx, subs), id);
    InvoiceIdKept(ctx, subs, k);
    PreparedHasCode(ctx, subs, k);
    CodeIsAColumn();
  }

  /** The columns of a stored invoice that no user may change: its identity, dates and amounts,
      and the party of the tenant itself. */
  ghost predicate Untouchable(k: string, direction: string) {
    || k == "invoice_id" || k == "invoice_number" || k == "issue_date" || k == "direction"
    || k == "subtotal" || k == "tax_amount" || k == "total_amount"
    || (direction == "OUTBOUND" && (
          || k == "seller_tin" || k == "seller_name" || k == "seller_address" || k == "seller_city"
          || k == "seller_state_code" || k == "seller_country_code" || k == "seller_lga_code"
          || k == "seller_postal_code"))
    || (direction == "INBOUND" && (
          || k == "buyer_tin" || k == "buyer_name" || k == "buyer_address" || k == "buyer_city"
          || k == "buyer_state_code" || k == "buyer_country_code" || k == "buyer_lga_code"
          || k == "buyer_postal_code"))
  }

  lemma UntouchableIsProtected(k: string, direction: string)
    requires Untouchable(k, direction)
    ensures Protected(k, direction)
  {
  }

  lemma UntouchableIsAColumn(k: string, direction: string)
    requires Untouchable(k, direction)
    ensures k in ShippedSchema().invoice
  {
  }

  lemma UntouchableIsNotGenerated(k: string, direction: string)
    requires Untouchable(k, direction)
    ensures k != "irn" && k != "qr_code_data"
  {
    assert |k| == 3 ==> false;
    if |k| == 12 { assert k[0] != 'q'; }
  }

  /** Whatever was submitted, a committed invoice has the preview's identity, dates, amounts and
      own party; a column the submission left out was empty in the preview too. */
  lemma CommittedAmountsAreThePreviews(ctx: Context, s: Store, subs: seq<Row>, prevs: seq<Row>, direction: string,
                                       db: Database, id: Value, k: string)
    requires Passes(ctx, subs, prevs, direction, db) && ctx.schema == ShippedSchema() && Untouchable(k, direction)
    requires id in ApplyRows(TheShop(ctx), s, Prepared(ctx, subs)).invoices && id !in s.invoices
    ensures var now := ApplyRows(TheShop(ctx), s, Prepared(ctx, subs)).invoices;
      k in now[id]
      && exists i: nat :: && i < |subs| && Get(subs[i].fields, "invoice_id") == id
                          && EditRules.Alike(if k in subs[i].fields then now[id][k] else Null, Get(prevs[i].fields, k))
  {
    UntouchableIsProtected(k, direction);
    UntouchableIsAColumn(k, direction);
    UntouchableIsNotGenerated(k, direction);
    CommittedColumnIsThePreviews(ctx, s, subs, prevs, direction, db, id, k);
  }

  lemma CommittedColumnIsThePreviews(ctx: Context, s: Store, subs: seq<Row>, prevs: seq<Row>, direction: string,
                                     db: Database, id: Value, k: string)
    requires Passes(ctx, subs, prevs, direction, db) && k in ctx.schema.invoice
    requires Protected(k, direction) && k != "irn" && k != "qr_code_data"
    requires id in ApplyRows(TheShop(ctx), s, Prepared(ctx, subs)).invoices && id !in s.invoices
    ensures var now := ApplyRows(TheShop(ctx), s, Prepared(ctx, subs)).invoices;
      k in now[id]
      && exists i: nat :: && i < |subs| && Get(subs[i].fields, "invoice_id") == id
                          && EditRules.Alike(if k in subs[i].fields then now[id][k] else Null, Get(prevs[i].fields, k))
  {
    CommittedAgreesWithPreview(ctx, s, subs, prevs, direction, db, id);
    var now := ApplyRows(TheShop(ctx), s, Prepared(ctx, subs)).invoices;
    var i: nat :| i < |subs| && ComesFrom(ctx, id, now[id], subs[i], prevs[i], direction);
    ColumnIsThePreviews(ctx, id, now[id], subs[i], prevs[i], direction, k);
  }

  lemma ColumnIsThePreviews(ctx: Context, id: Value, record: Fields, row: Row, prev: Row, direction: string, k: string)
    requires ComesFrom(ctx, id, record, row, prev, direction) && k in ctx.schema.invoice
    requires Protected(k, direction) && k != "irn" && k != "qr_code_data"
    ensures k in record && EditRules.Alike(if k in row.fields then record[k] else Null, Get(prev.fields, k))
  {
    EditRules.AlikeIs(if k in row.fields then record[k] else Null, Get(prev.fields, k));
  }

  /** The columns of a stored invoice that come from its row, but for the two generated ones. */
  ghost predicate RowColumn(k: string) {
    || k == "invoice_id" || k == "invoice_number" || k == "issue_date" || k == "due_date"
    || k == "currency_code" || k == "subtotal" || k == "tax_amount" || k == "total_amount" || k == "direction"
    || k == "transaction_type" || k == "firs_invoice_type_code" || k == "seller_tin" || k == "seller_name"
    || k == "seller_address" || k == "seller_city" || k == "seller_state_code" || k == "seller_country_code"
    || k == "seller_lga_code" || k == "seller_postal_code" || k == "buyer_tin" || k == "buyer_name"
    || k == "buyer_address" || k == "buyer_city" || k == "buyer_state_code" || k == "buyer_country_code"
    || k == "buyer_lga_code" || k == "buyer_postal_code" || k == "reference" || k == "category"
    || k == "notes_to_firs" || k == "payment_terms_note" || k == "terms" || k == "reference_irn"
    || k == "reference_issue_date"
  }

  lemma RowColumnIsOne(k: string)
    requires RowColumn(k)
    ensures k in ShippedSchema().invoice
  {
  }

  lemma RowColumnIsNotGenerated(k: string)
    requires RowColumn(k)
    ensures k != "irn" && k != "qr_code_data"
  {
    assert |k| == 3 ==> false;
    if |k| == 12 { assert k[0] != 'q'; }
  }

  lemma ColumnsOf(fields: Fields, sch: map<string, Value>, k: string)
    requires k in sch
    ensures k in Columns(fields, sch) && Columns(fields, sch)[k] == if k in fields then fields[k] else sch[k]
  {
  }

  /** A committed invoice has in every such column what its row was submitted with. */
  lemma CommittedInvoiceIsItsRow(ctx: Context, s: Store, subs: seq<Row>, prevs: seq<Row>, direction: string,
                                 db: Database, id: Value, k: string)
    requires Passes(ctx, subs, prevs, direction, db) && ctx.schema == ShippedSchema() && RowColumn(k)
    requires id in ApplyRows(TheShop(ctx), s, Prepared(ctx, subs)).invoices && id !in s.invoices
    ensures var now := ApplyRows(TheShop(ctx), s, Prepared(ctx, subs)).invoices;
      k in now[id] && exists i: nat :: && i < |subs| && Get(subs[i].fields, "invoice_id") == id
                                       && (k in subs[i].fields ==> now[id][k] == subs[i].fields[k])
  {
    RowColumnIsOne(k);
    RowColumnIsNotGenerated(k);
    var i := NewInvoice(ctx, s, Prepared(ctx, subs), id);
    InvoiceIdKept(ctx, subs, i);
    PreparedKeeps(ctx, subs, i, k);
    ColumnsOf(Prepared(ctx, subs)[i].fields, ctx.schema.invoice, k);
  }

  /** The columns of a stored line item. */
  ghost predicate LineColumn(k: string) {
    || k == "line_item_id" || k == "line_number" || k == "description" || k == "quantity" || k == "unit_price"
    || k == "line_total" || k == "tax_amount" || k == "discount_amount" || k == "unit_of_measure"
    || k == "product_id" || k == "hsn_code" || k == "service_code" || k == "product_category"
    || k == "service_category" || k == "vat_treatment"
  }

  lemma LineColumnIsOne(k: string)
    requires LineColumn(k)
    ensures k in ShippedSchema().item && k != "invoice_id"
    ensures ShippedSchema().item[k] == if k == "line_number" || k == "quantity" || k == "unit_price"
                                          || k == "line_total" || k == "tax_amount" || k == "discount_amount"
                                       then Number(0.0, "0") else Null
  {
  }

  /** A committed line item has in every column what it was submitted with. */
  lemma CommittedItemIsItsLine(ctx: Context, s: Store, subs: seq<Row>, prevs: seq<Row>, direction: string,
                               db: Database, id: Value, k: string)
    requires Passes(ctx, subs, prevs, direction, db) && ctx.schema == ShippedSchema() && LineColumn(k)
    requires id in ApplyRows(TheShop(ctx), s, Prepared(ctx, subs)).lineItems && id !in s.lineItems
    ensures var now := ApplyRows(TheShop(ctx), s, Prepared(ctx, subs)).lineItems;
      k in now[id]
      && exists i: nat, j: nat :: && i < |subs| && j < |subs[i].items|
                                  && Get(subs[i].items[j].fields, "line_item_id") == id
                                  && (k in subs[i].items[j].fields ==> now[id][k] == subs[i].items[j].fields[k])
  {
    LineColumnIsOne(k);
    var i, j := ItemIsStored(ctx, s, subs, id, k);
  }

  lemma ItemIsStored(ctx: Context, s: Store, subs: seq<Row>, id: Value, k: string) returns (i: nat, j: nat)
    requires AllStamped(ctx, subs) && k in ctx.schema.item && k != "invoice_id"
    requires id in ApplyRows(TheShop(ctx), s, Prepared(ctx, subs)).lineItems && id !in s.lineItems
    ensures i < |subs| && j < |subs[i].items| && Get(subs[i].items[j].fields, "line_item_id") == id
    ensures var now := ApplyRows(TheShop(ctx), s, Prepared(ctx, subs)).lineItems;
      k in now[id] && (k in subs[i].items[j].fields ==> now[id][k] == subs[i].items[j].fields[k])
  {
    i, j := NewItem(ctx, s, Prepared(ctx, subs), id);
    PreparedItems(ctx, subs, i);
    StoredItemsInvoice(ctx.schema, Get(subs[i].fields, "invoice_id"), subs[i].items[j]);
    ColumnsOf(subs[i].items[j].fields, ctx.schema.item, k);
  }

  /** The columns that are not null when the row does not have them. */
  lemma DefaultsAre()
    ensures var columns := ShippedSchema().invoice;
      && "currency_code" in columns && columns["currency_code"] == Text("NGN")
      && "direction" in columns && columns["direction"] == Text("OUTBOUND")
      && "transaction_type" in columns && columns["transaction_type"] == Text("B2B")
      && "subtotal" in columns && columns["subtotal"] == Number(0.0, "0")
      && "tax_amount" in columns && columns["tax_amount"] == Number(0.0, "0")
      && "total_amount" in columns && columns["total_amount"] == Number(0.0, "0")
  {
  }

  lemma OtherDefaultsAreNull(k: string)
    requires k in ShippedSchema().invoice
    requires k != "currency_code" && k != "direction" && k != "transaction_type"
    requires k != "subtotal" && k != "tax_amount" && k != "total_amount"
    ensures ShippedSchema().invoice[k] == Null
  {
  }

  lemma NumberIsAColumn()
    ensures "irn" in ShippedSchema().invoice
  {
  }

  /** Line items are handed to the commit as the preview has them, but for the classification
      fields. */
  lemma PreparedItemsAgreeWithPreview(ctx: Context, subs: seq<Row>, prevs: seq<Row>, direction: string, db: Database,
                                      i: nat, j: nat, k: string)
    requires Passes(ctx, subs, prevs, direction, db) && i < |subs| && j < |subs[i].items|
    requires k !in CLASSIFICATION && k !in SKIP_ITEM
    ensures Prepared(ctx, subs)[i].items == subs[i].items && |subs[i].items| == |prevs[i].items|
    ensures ValuesEqual(Get(Prepared(ctx, subs)[i].items[j].fields, k), Get(prevs[i].items[j].fields, k))
  {
    PreparedKeeps(ctx, subs, i, k);
    OnlyClassificationDiffers(direction, ctx.parse, subs, prevs, i, j, k);
  }

  /** A stored column has the preview's value; for a key the item lacks, its default. */
  ghost predicate ColumnAgrees(sch: Schema, v: Value, item: Item, prev: Item, k: string)
    requires k in sch.item
  {
    if k in item.fields then ValuesEqual(v, Get(prev.fields, k))
    else ValuesEqual(Null, Get(prev.fields, k)) && v == sch.item[k]
  }

  /** The line item a stored record comes from: its columns are the preview's but for the
      classification, and it belongs to its row's invoice. */
  ghost predicate ItemComesFrom(sch: Schema, id: Value, record: Fields, invoice: Value, item: Item, prev: Item,
                                kept: string -> bool)
  {
    && ItemInsert(sch, invoice, item) == Insertion(id, record)
    && forall k :: k in sch.item && kept(k) ==> k in record && ColumnAgrees(sch, record[k], item, prev, k)
  }

  /** The item columns that are neither classification nor skipped nor set by the commit. */
  function KeptColumns(): string -> bool {
    k => k != "invoice_id" && k !in CLASSIFICATION && k !in SKIP_ITEM
  }

  lemma ItemColumn(sch: Schema, invoice: Value, item: Item, prev: Item, k: string)
    requires k in sch.item && k != "invoice_id" && ValuesEqual(Get(item.fields, k), Get(prev.fields, k))
    ensures ColumnAgrees(sch, ItemInsert(sch, invoice, item).columns[k], item, prev, k)
  {
  }

  lemma KeptColumnAgrees(direction: string, parse: NumberReader, sch: Schema, subs: seq<Row>, prevs: seq<Row>,
                         i: nat, j: nat, invoice: Value, k: string)
    requires i < |subs| == |prevs| && Valid(GateRules(direction, parse), subs, prevs)
    requires j < |subs[i].items| == |prevs[i].items| && k in sch.item && KeptColumns()(k)
    ensures k in ItemInsert(sch, invoice, subs[i].items[j]).columns
    ensures ColumnAgrees(sch, ItemInsert(sch, invoice, subs[i].items[j]).columns[k], subs[i].items[j],
            prevs[i].items[j], k)
  {
    OnlyClassificationDiffers(direction, parse, subs, prevs, i, j, k);
    ItemColumn(sch, invoice, subs[i].items[j], prevs[i].items[j], k);
  }

  lemma ItemRecordAgrees(direction: string, parse: NumberReader, sch: Schema, subs: seq<Row>, prevs: seq<Row>,
                         i: nat, j: nat, invoice: Value, x: Insertion)
    requires i < |subs| == |prevs| && Valid(GateRules(direction, parse), subs, prevs)
    requires j < |subs[i].items| == |prevs[i].items| && x == ItemInsert(sch, invoice, subs[i].items[j])
    ensures ItemComesFrom(sch, x.key, x.columns, invoice, subs[i].items[j], prevs[i].items[j], KeptColumns())
  {
    var kept := KeptColumns();
    forall k | k in sch.item && kept(k)
      ensures k in x.columns && ColumnAgrees(sch, x.columns[k], subs[i].items[j], prevs[i].items[j], k)
    {
      KeptColumnAgrees(direction, parse, sch, subs, prevs, i, j, invoice, k);
    }
  }

  lemma ItemCountKept(direction: string, parse: NumberReader, subs: seq<Row>, prevs: seq<Row>, i: nat)
    requires i < |subs| == |prevs| && Valid(GateRules(direction, parse), subs, prevs)
    ensures |subs[i].items| == |prevs[i].items|
  {
    ValidExactly(GateRules(direction, parse), subs, prevs);
    assert RowClean(GateRules(direction, parse), i, subs[i], prevs[i]);
  }

  lemma NewItem(ctx: Context, s: Store, rows: seq<Row>, id: Value) returns (i: nat, j: nat)
    requires id in ApplyRows(TheShop(ctx), s, rows).lineItems && id !in s.lineItems
    ensures i < |rows| && j < |rows[i].items|
    ensures ItemInsert(ctx.schema, Get(rows[i].fields, "invoice_id"), rows[i].items[j])
            == Insertion(id, ApplyRows(TheShop(ctx), s, rows).lineItems[id])
  {
    var xs := AllItems(TheShop(ctx), rows, |rows|);
    ItemsInserted(TheShop(ctx), s, rows, |rows|);
    InsertsKeepTheFirst(s.lineItems, xs, id);
    var k: nat :| IsFirst(xs, k) && xs[k].key == id && InsertAll(s.lineItems, xs)[id] == xs[k].columns;
    i, j := ItemsAreOfRows(TheShop(ctx), rows, |rows|, k);
  }

  lemma OldItem(ctx: Context, s: Store, rows: seq<Row>, id: Value)
    requires id in s.lineItems
    ensures var now := ApplyRows(TheShop(ctx), s, rows).lineItems; id in now && now[id] == s.lineItems[id]
  {
    ItemsInserted(TheShop(ctx), s, rows, |rows|);
    InsertsKeepTheFirst(s.lineItems, AllItems(TheShop(ctx), rows, |rows|), id);
  }

  lemma PreparedItems(ctx: Context, subs: seq<Row>, i: nat)
    requires AllStamped(ctx, subs) && i < |subs|
    ensures |Prepared(ctx, subs)| == |subs| && Prepared(ctx, subs)[i].items == subs[i].items
    ensures Get(Prepared(ctx, subs)[i].fields, "invoice_id") == Get(subs[i].fields, "invoice_id")
  {
    PreparedKeeps(ctx, subs, i, "irn");
    InvoiceIdKept(ctx, subs, i);
  }

  /** A stored line item refers to its row's invoice. */
  lemma StoredItemsInvoice(sch: Schema, invoice: Value, item: Item)
    ensures Get(ItemInsert(sch, invoice, item).columns, "invoice_id") == invoice
    ensures ItemInsert(sch, invoice, item).key == Get(item.fields, "line_item_id")
  {
  }

  /** The row and item a new line item comes from. */
  ghost predicate FromSome(ctx: Context, id: Value, record: Fields, subs: seq<Row>, prevs: seq<Row>, i: nat, j: nat) {
    && i < |subs| == |prevs| && j < |subs[i].items| == |prevs[i].items|
    && ItemComesFrom(ctx.schema, id, record, Get(subs[i].fields, "invoice_id"), subs[i].items[j], prevs[i].items[j],
                     KeptColumns())
    && Get(record, "invoice_id") == Get(subs[i].fields, "invoice_id")
    && id == Get(subs[i].items[j].fields, "line_item_id")
  }

  lemma NewItemComesFrom(ctx: Context, s: Store, subs: seq<Row>, prevs: seq<Row>, direction: string, id: Value)
    returns (i: nat, j: nat)
    requires |subs| == |prevs| && Valid(GateRules(direction, ctx.parse), subs, prevs) && AllStamped(ctx, subs)
    requires id in ApplyRows(TheShop(ctx), s, Prepared(ctx, subs)).lineItems && id !in s.lineItems
    ensures FromSome(ctx, id, ApplyRows(TheShop(ctx), s, Prepared(ctx, subs)).lineItems[id], subs, prevs, i, j)
  {
    i, j := NewItem(ctx, s, Prepared(ctx, subs), id);
    PreparedItems(ctx, subs, i);
    ItemCountKept(direction, ctx.parse, subs, prevs, i);
    ItemRecordAgrees(direction, ctx.parse, ctx.schema, subs, prevs, i, j, Get(subs[i].fields, "invoice_id"),
                     Insertion(id, ApplyRows(TheShop(ctx), s, Prepared(ctx, subs)).lineItems[id]));
    StoredItemsInvoice(ctx.schema, Get(subs[i].fields, "invoice_id"), subs[i].items[j]);
  }

  /** Every line item a successful finalize adds to the table is one of some row, agrees with
      its preview on every column but the classification, and belongs to that row's invoice;
      every line item that was there before stays as it was. */
  lemma CommittedItemsAgreeWithPreview(ctx: Context, s: Store, subs: seq<Row>, prevs: seq<Row>, direction: string,
                                       db: Database, id: Value)
    requires Passes(ctx, subs, prevs, direction, db)
    ensures var now := ApplyRows(TheShop(ctx), s, Prepared(ctx, subs)).lineItems;
      && (id in s.lineItems ==> id in now && now[id] == s.lineItems[id])
      && (id in now && id !in s.lineItems ==> exists i: nat, j: nat :: FromSome(ctx, id, now[id], subs, prevs, i, j))
  {
    if id in s.lineItems {
      OldItem(ctx, s, Prepared(ctx, subs), id);
    } else if id in ApplyRows(TheShop(ctx), s, Prepared(ctx, subs)).lineItems {
      var i, j := NewItemComesFrom(ctx, s, subs, prevs, direction, id);
    }
  }
}
