/**
 The finalize gate in the words of its specification: which fields a user may change, by
 name, provenance and confidence, and what the result says of the changes made.
 */
module EditRules {
  import opened Options
  import opened PyText
  import opened Provenance
  import opened EditValidator
  import opened EditTheorems
  import Bags

  // ------------------------------------------------------------- when values differ

  ghost function AsText(v: Value): string {
    match v
    case Null => ""
    case Text(s) => s
    case Number(_, shown) => shown
    case Other(shown, _, _) => shown
  }

  /** Two numbers are compared as numbers, everything else by its text, null as the empty one. */
  ghost predicate Alike(a: Value, b: Value) {
    if a.Number? && b.Number? then a.n == b.n else AsText(a) == AsText(b)
  }

  /** A value that is there: no white space only, no zero, nothing false. */
  ghost predicate Given(v: Value) {
    match v
    case Null => false
    case Text(s) => exists i :: 0 <= i < |s| && !IsSpace(s[i])
    case Number(n, _) => n != 0.0
    case Other(_, truthy, _) => truthy
  }

  lemma GivenIsNotBlank(v: Value)
    ensures Given(v) <==> !Blank(v)
  {
    if v.Text? { BlankTexts(v.s); }
  }

  // ------------------------------------------------------------- which fields are open

  /** The confidence a preview states for a field: its own, or else the classification's. */
  ghost predicate StatesConfidence(fields: Fields, k: string, parse: NumberReader, r: real) {
    var key := if k + "_confidence" in fields then k + "_confidence" else "classification_confidence";
    && key in fields
    && match fields[key]
       case Null => false
       case Text(s) => parse(s) == Some(r)
       case Number(n, _) => n == r
       case Other(_, _, reading) => reading == Some(r)
  }

  /** A field without provenance, one somebody has filled in, or one of low confidence. */
  ghost predicate Opens(fields: Fields, provenance: map<string, string>, k: string, parse: NumberReader) {
    || k !in provenance
    || provenance[k] == "MISSING" || provenance[k] == "HIS" || provenance[k] == "MANUAL"
    || exists r :: StatesConfidence(fields, k, parse, r) && r < 0.60
  }

  ghost predicate AlwaysOpen(k: string) {
    || k == "reference" || k == "category" || k == "notes_to_firs" || k == "payment_terms_note"
    || k == "terms" || k == "transaction_type"
  }

  ghost predicate ClassificationField(k: string) {
    || k == "hsn_code" || k == "service_code" || k == "product_category" || k == "service_category"
    || k == "line_item_type"
  }

  ghost predicate OpenField(direction: string, parse: NumberReader, prev: Row, k: string) {
    AlwaysOpen(k) || (!Protected(k, direction) && Opens(prev.fields, prev.provenance, k, parse))
  }

  ghost predicate OpenItemField(parse: NumberReader, prev: Item, k: string) {
    ClassificationField(k) && Opens(prev.fields, prev.provenance, k, parse)
  }

  lemma OpensIs(fields: Fields, provenance: map<string, string>, k: string, parse: NumberReader)
    ensures Opens(fields, provenance, k, parse)
            <==> ProvenanceOpens(Lookup(provenance, k), Confidence(fields, k, parse))
  {
    var c := Confidence(fields, k, parse);
    if c.Some? { assert StatesConfidence(fields, k, parse, c.value); }
    if r :| StatesConfidence(fields, k, parse, r) { assert c == Some(r); }
  }

  lemma AlwaysOpenIs(k: string)
    ensures AlwaysOpen(k) <==> k in ALWAYS_EDITABLE
  {
  }

  lemma InvoiceVerdictIs(direction: string, parse: NumberReader, prev: Row, k: string)
    ensures InvoiceVerdict(direction, parse, prev, k).Accept? <==> OpenField(direction, parse, prev, k)
  {
    AlwaysOpenIs(k);
    AlwaysEditableIsApart(k, direction);
    OpensIs(prev.fields, prev.provenance, k, parse);
  }

  lemma ClassificationIsOpen(k: string)
    ensures ClassificationField(k) <==> k in CLASSIFICATION
    ensures ClassificationField(k) ==> k !in NEVER_EDITABLE_ITEM
  {
    if ClassificationField(k) {
      assert |k| != 7 && |k| != 10 && |k| != 11 && |k| != 6 && |k| != 25 && |k| != 21;
      assert |k| == 12 ==> k[0] == 's';
      assert |k| == 8 ==> k[0] == 'h';
    }
  }

  lemma ItemVerdictIs(parse: NumberReader, prev: Item, k: string)
    ensures ItemVerdict(parse, prev, k).Accept? <==> OpenItemField(parse, prev, k)
  {
    ClassificationIsOpen(k);
    OpensIs(prev.fields, prev.provenance, k, parse);
  }

  // ------------------------------------------------------------- what is valid

  /** Keys of a row that are no invoice data. */
  ghost predicate Bookkeeping(k: string) {
    k == "line_items" || k == "__provenance__" || k == "__IS_NEW__" || k == "_row_index"
  }

  ghost predicate ItemBookkeeping(k: string) {
    k == "__provenance__" || k == "__IS_NEW__"
  }

  ghost predicate FieldsOk(direction: string, parse: NumberReader, sub: Row, prev: Row) {
    forall k :: !Bookkeeping(k) ==>
      Alike(Get(sub.fields, k), Get(prev.fields, k)) || OpenField(direction, parse, prev, k)
  }

  ghost predicate ItemOk(parse: NumberReader, sub: Item, prev: Item) {
    forall k :: !ItemBookkeeping(k) ==>
      Alike(Get(sub.fields, k), Get(prev.fields, k)) || OpenItemField(parse, prev, k)
  }

  ghost predicate Has(row: Row, k: string, v: string) {
    k in row.fields && row.fields[k] == Text(v)
  }

  /** A consumer invoice turned into one to a business or to government names its counterparty. */
  ghost predicate CounterpartyNamed(direction: string, sub: Row, prev: Row) {
    Has(prev, "transaction_type", "B2C") && (Has(sub, "transaction_type", "B2B") || Has(sub, "transaction_type", "B2G"))
    ==> if direction == "OUTBOUND" then Given(Get(sub.fields, "buyer_tin")) && Given(Get(sub.fields, "buyer_name"))
        else Given(Get(sub.fields, "seller_tin")) && Given(Get(sub.fields, "seller_name"))
  }

  lemma BookkeepingIs(k: string)
    ensures Bookkeeping(k) <==> k in SKIP_INVOICE
    ensures ItemBookkeeping(k) <==> k in SKIP_ITEM
  {
  }

  lemma AlikeIs(a: Value, b: Value)
    ensures Alike(a, b) <==> ValuesEqual(a, b)
  {
  }

  lemma FieldsOkIs(direction: string, parse: NumberReader, i: nat, sub: Row, prev: Row)
    ensures FieldsOk(direction, parse, sub, prev) <==> NoFaults(OfInvoice(GateRules(direction, parse), i, sub, prev))
  {
    var c := OfInvoice(GateRules(direction, parse), i, sub, prev);
    forall k
      ensures c.judge(k).Accept? <==> OpenField(direction, parse, prev, k)
      ensures k in DiffKeys(c) <==> !Bookkeeping(k) && !Alike(Get(sub.fields, k), Get(prev.fields, k))
    {
      assert c.judge(k) == InvoiceVerdict(direction, parse, prev, k);
      InvoiceVerdictIs(direction, parse, prev, k);
      BookkeepingIs(k);
      AlikeIs(Get(sub.fields, k), Get(prev.fields, k));
    }
  }

  lemma ItemOkIs(direction: string, parse: NumberReader, i: nat, j: nat, sub: Item, prev: Item)
    ensures ItemOk(parse, sub, prev) <==> NoFaults(OfItem(GateRules(direction, parse), i, j, sub, prev))
  {
    var c := OfItem(GateRules(direction, parse), i, j, sub, prev);
    forall k
      ensures c.judge(k).Accept? <==> OpenItemField(parse, prev, k)
      ensures k in DiffKeys(c) <==> !ItemBookkeeping(k) && !Alike(Get(sub.fields, k), Get(prev.fields, k))
    {
      assert c.judge(k) == ItemVerdict(parse, prev, k);
      ItemVerdictIs(parse, prev, k);
      BookkeepingIs(k);
      AlikeIs(Get(sub.fields, k), Get(prev.fields, k));
    }
  }

  lemma CounterpartyIs(direction: string, parse: NumberReader, sub: Row, prev: Row)
    ensures CounterpartyNamed(direction, sub, prev) <==> UpgradeOk(GateRules(direction, parse), sub, prev)
  {
    var fields := UpgradeFields(direction);
    forall k ensures Given(Get(sub.fields, k)) <==> !Blank(Get(sub.fields, k)) { GivenIsNotBlank(Get(sub.fields, k)); }
    if direction == "OUTBOUND" {
      assert "buyer_tin" in fields && "buyer_name" in fields;
    } else {
      assert "seller_tin" in fields && "seller_name" in fields;
    }
  }

  /** What a submission may change. */
  ghost predicate RowAllowed(direction: string, parse: NumberReader, sub: Row, prev: Row) {
    && FieldsOk(direction, parse, sub, prev)
    && |sub.items| == |prev.items|
    && (forall j: nat :: j < |sub.items| ==> ItemOk(parse, sub.items[j], prev.items[j]))
    && CounterpartyNamed(direction, sub, prev)
  }

  lemma RowAllowedIs(direction: string, parse: NumberReader, i: nat, sub: Row, prev: Row)
    ensures RowAllowed(direction, parse, sub, prev)
            <==> && RowClean(GateRules(direction, parse), i, sub, prev)
                 && UpgradeOk(GateRules(direction, parse), sub, prev)
  {
    FieldsOkIs(direction, parse, i, sub, prev);
    CounterpartyIs(direction, parse, sub, prev);
    if |sub.items| == |prev.items| {
      forall j: nat | j < |sub.items|
        ensures ItemOk(parse, sub.items[j], prev.items[j])
                <==> NoFaults(OfItem(GateRules(direction, parse), i, j, sub.items[j], prev.items[j]))
      {
        ItemOkIs(direction, parse, i, j, sub.items[j], prev.items[j]);
      }
    }
  }

  /** The gate lets a submission pass exactly if every row keeps its line items and changes, by
      the comparison of values, only open fields, and names the counterparty of an upgrade. */
  lemma GatePassesExactly(direction: string, parse: NumberReader, subs: seq<Row>, prevs: seq<Row>)
    requires |subs| == |prevs|
    ensures Valid(GateRules(direction, parse), subs, prevs)
            <==> forall i: nat :: i < |subs| ==> RowAllowed(direction, parse, subs[i], prevs[i])
  {
    ValidExactly(GateRules(direction, parse), subs, prevs);
    forall i: nat | i < |subs|
      ensures RowAllowed(direction, parse, subs[i], prevs[i])
              <==> && RowClean(GateRules(direction, parse), i, subs[i], prevs[i])
                   && UpgradeOk(GateRules(direction, parse), subs[i], prevs[i])
    {
      RowAllowedIs(direction, parse, i, subs[i], prevs[i]);
    }
  }

  // ------------------------------------------------------------- what the result says

  ghost function Provided(provenance: map<string, string>, k: string): Option<string> {
    if k in provenance then Some(provenance[k]) else None
  }

  /** Old value, new value and provenance are those of the two rows. */
  ghost predicate Truthful(x: Change, sub: Fields, prev: Fields, provenance: map<string, string>) {
    && x.oldValue == Get(prev, x.field) && x.newValue == Get(sub, x.field)
    && x.provenance == Provided(provenance, x.field) && !Alike(x.oldValue, x.newValue)
  }

  lemma ChangeIsTruthful(c: Comparison, x: Change)
    requires x in ChangeBag(c)
    ensures Truthful(x, c.sub, c.prev, c.provenance) && c.judge(x.field).Accept?
    ensures x.invoice == c.invoice && x.item == c.item
  {
    var k :| k in DiffKeys(c) && c.judge(k).Accept? && x == ChangeAt(c, k);
    AlikeIs(x.newValue, x.oldValue);
  }

  lemma ChangeIsSomewhere(rules: Rules, subs: seq<Row>, prevs: seq<Row>, x: Change) returns (c: Comparison)
    requires |subs| == |prevs| && x in AllChanges(rules, subs, prevs, |subs|)
    ensures Compared(rules, subs, prevs, |subs|, c) && x in ChangeBag(c)
  {
    ChangeBagsMember(Comparisons(rules, subs, prevs, |subs|), x);
    c :| c in Comparisons(rules, subs, prevs, |subs|) && x in ChangeBag(c);
    ComparisonsAre(rules, subs, prevs, |subs|, c);
  }

  /** Every accepted change of an invoice is one that was made, to an open field, and is
      recorded as made. */
  lemma ChangesAreTruthful(direction: string, parse: NumberReader, subs: seq<Row>, prevs: seq<Row>, x: Change)
    requires |subs| == |prevs| && x in AllChanges(GateRules(direction, parse), subs, prevs, |subs|) && x.item.None?
    ensures x.invoice < |subs|
    ensures Truthful(x, subs[x.invoice].fields, prevs[x.invoice].fields, prevs[x.invoice].provenance)
    ensures OpenField(direction, parse, prevs[x.invoice], x.field)
  {
    var c := ChangeIsSomewhere(GateRules(direction, parse), subs, prevs, x);
    ChangeIsTruthful(c, x);
    assert c.judge(x.field) == InvoiceVerdict(direction, parse, prevs[x.invoice], x.field);
    InvoiceVerdictIs(direction, parse, prevs[x.invoice], x.field);
  }

  /** And so is every one of a line item. */
  lemma ItemChangesAreTruthful(direction: string, parse: NumberReader, subs: seq<Row>, prevs: seq<Row>, x: Change)
    requires |subs| == |prevs| && x in AllChanges(GateRules(direction, parse), subs, prevs, |subs|) && x.item.Some?
    ensures x.invoice < |subs| && x.item.value < |subs[x.invoice].items| == |prevs[x.invoice].items|
    ensures var sub, prev := subs[x.invoice].items[x.item.value], prevs[x.invoice].items[x.item.value];
      Truthful(x, sub.fields, prev.fields, prev.provenance) && OpenItemField(parse, prev, x.field)
  {
    var c := ChangeIsSomewhere(GateRules(direction, parse), subs, prevs, x);
    ChangeIsTruthful(c, x);
    var prev := prevs[x.invoice].items[x.item.value];
    assert c.judge(x.field) == ItemVerdict(parse, prev, x.field);
    ItemVerdictIs(parse, prev, x.field);
  }

  /** Why a field is refused: by name before provenance. */
  lemma ReasonsAre(direction: string, parse: NumberReader, prev: Row, item: Item, k: string)
    ensures InvoiceVerdict(direction, parse, prev, k).Reject? ==>
              InvoiceVerdict(direction, parse, prev, k).reason
              == if k in NEVER_EDITABLE then NeverEditable
                 else if Protected(k, direction) then TenantParty else NonEditableProvenance
    ensures ItemVerdict(parse, item, k).Reject? ==>
              ItemVerdict(parse, item, k).reason
              == if ClassificationField(k) then NonEditableProvenance
                 else if k in NEVER_EDITABLE_ITEM then NeverEditableItem else UnknownItemField
  {
    ClassificationIsOpen(k);
  }
}
