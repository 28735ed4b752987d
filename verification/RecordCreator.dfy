/**
 Committing finalized invoices: one transaction of inserts and upserts, and what any run of
 commits leaves in the tables.
 */
module RecordCreator {
  import opened Options
  import opened EditValidator
  import opened PyText
  import opened Tables
  import Folds

  /** Python's `not v`. */
  predicate Falsy(v: Value) {
    match v
    case Null => true
    case Text(s) => s == ""
    case Number(n, _) => n == 0.0
    case Other(_, truthy, _) => !truthy
  }

  function GetOr(f: Fields, key: string, default_: Value): Value {
    if key in f then f[key] else default_
  }

  /** `v.upper().strip() if v else None`; upper-casing is Python's, so it is a parameter. */
  function Normalized(v: Value, upper: string -> string): Value {
    if Falsy(v) || !v.Text? then Null else Text(Strip(upper(v.s)))
  }

  /** What can be upper-cased without an exception. */
  predicate TextOrFalsy(v: Value) {
    Falsy(v) || v.Text?
  }

  // ---------------------------------------------------------------- statements

  /** The columns taken from a row or item, with the default for a missing key. */
  datatype Schema = Schema(invoice: map<string, Value>, item: map<string, Value>)

  function Zero(): Value { Number(0.0, "0") }

  function ShippedSchema(): Schema {
    Schema(
      map["invoice_id" := Null, "invoice_number" := Null, "irn" := Null, "qr_code_data" := Null,
          "issue_date" := Null, "due_date" := Null, "currency_code" := Text("NGN"),
          "subtotal" := Zero(), "tax_amount" := Zero(), "total_amount" := Zero(),
          "direction" := Text("OUTBOUND"), "transaction_type" := Text("B2B"), "firs_invoice_type_code" := Null,
          "seller_tin" := Null, "seller_name" := Null, "seller_address" := Null, "seller_city" := Null,
          "seller_state_code" := Null, "seller_country_code" := Null, "seller_lga_code" := Null,
          "seller_postal_code" := Null,
          "buyer_tin" := Null, "buyer_name" := Null, "buyer_address" := Null, "buyer_city" := Null,
          "buyer_state_code" := Null, "buyer_country_code" := Null, "buyer_lga_code" := Null,
          "buyer_postal_code" := Null,
          "reference" := Null, "category" := Null, "notes_to_firs" := Null, "payment_terms_note" := Null,
          "terms" := Null, "reference_irn" := Null, "reference_issue_date" := Null],
      map["line_item_id" := Null, "line_number" := Zero(), "description" := Null, "quantity" := Zero(),
          "unit_price" := Zero(), "line_total" := Zero(), "tax_amount" := Zero(), "discount_amount" := Zero(),
          "unit_of_measure" := Null, "product_id" := Null, "hsn_code" := Null, "service_code" := Null,
          "product_category" := Null, "service_category" := Null, "vat_treatment" := Null])
  }

  function Columns(f: Fields, columns: map<string, Value>): Fields {
    map c | c in columns :: GetOr(f, c, columns[c])
  }

  function InvoiceInsert(sch: Schema, row: Row): Insertion {
    Insertion(Get(row.fields, "invoice_id"), Columns(row.fields, sch.invoice))
  }

  function ItemInsert(sch: Schema, invoice: Value, item: Item): Insertion {
    Insertion(Get(item.fields, "line_item_id"), Columns(item.fields, sch.item)["invoice_id" := invoice])
  }

  const CUSTOMER_COLUMNS: set<string> :=
    {"name", "address", "city", "state_code", "country_code", "lga_code", "postal_code"}

  function Prefix(row: Row): string {
    if GetOr(row.fields, "direction", Text("OUTBOUND")) == Text("OUTBOUND") then "buyer_" else "seller_"
  }

  function Tin(row: Row): Value { Get(row.fields, Prefix(row) + "tin") }

  function CustomerName(row: Row): Value { Get(row.fields, Prefix(row) + "name") }

  function CustomerId(row: Row): Value {
    var given := Get(row.fields, "counterparty_customer_id");
    if Falsy(given) then Text("CUST-" + Shown(Tin(row))) else given
  }

  function CustomerSupply(row: Row, upper: string -> string): Supply {
    Supply(Tin(row),
           map["customer_id" := CustomerId(row), "customer_name_normalized" := Normalized(CustomerName(row), upper),
               "customer_type" := GetOr(row.fields, "transaction_type", Text("B2B"))],
           map c | c in CUSTOMER_COLUMNS :: Get(row.fields, Prefix(row) + c),
           map[])
  }

  function Product(item: Item): Value { Get(item.fields, "product_id") }

  /** A missing description is the empty text, not null. */
  function ProductName(item: Item): Value { GetOr(item.fields, "description", Text("")) }

  const PRODUCT_COLUMNS: set<string> :=
    {"product_name", "hsn_code", "service_code", "product_category", "service_category", "vat_treatment"}

  function ProductSupply(item: Item, upper: string -> string): Supply {
    var id := Shown(Product(item));
    Supply(Product(item),
           map["customer_sku" := GetOr(item.fields, "customer_sku", Text(if |id| <= 16 then id else id[..16])),
               "product_name_normalized" := Normalized(ProductName(item), upper),
               "description" := Get(item.fields, "full_description"),
               "unit_of_measure" := Get(item.fields, "unit_of_measure"),
               "type" := Text(if Falsy(Get(item.fields, "service_code")) then "GOODS" else "SERVICE"),
               "vat_rate" := GetOr(item.fields, "vat_rate", Number(7.5, "7.5"))],
           map c | c in PRODUCT_COLUMNS :: if c == "product_name" then ProductName(item) else Get(item.fields, c),
           map["classification_confidence" := GetOr(item.fields, "classification_confidence", Zero()),
               "classification_source" := Get(item.fields, "classification_source")])
  }

  /** Nothing in the line makes Python raise. */
  predicate LineReads(item: Item) {
    Product(item).Text? && TextOrFalsy(ProductName(item))
  }

  /** The normalised description, if the line carries one that is more than blanks. */
  function LineName(item: Item, upper: string -> string): Option<string> {
    if !Falsy(ProductName(item)) && ProductName(item).Text? && Strip(upper(ProductName(item).s)) != ""
    then Some(Strip(upper(ProductName(item).s))) else None
  }

  /** What the statements take from rows and line items. */
  datatype Shop = Shop(
    invoice: Row -> Insertion, item: (Row, Item) -> Insertion, hasIds: Row -> bool,
    tin: Row -> Value, customer: Row -> Supply, customerReads: Row -> bool,
    product: Item -> Value, supply: Item -> Supply, name: Item -> Option<string>, lineReads: Item -> bool)

  /** The shop of the four statements above. */
  function ShopOf(sch: Schema, upper: string -> string): Shop {
    Shop((row: Row) => InvoiceInsert(sch, row),
         (row: Row, item: Item) => ItemInsert(sch, Get(row.fields, "invoice_id"), item),
         (row: Row) => "invoice_id" in row.fields && "invoice_number" in row.fields,
         (row: Row) => Tin(row),
         (row: Row) => CustomerSupply(row, upper),
         (row: Row) => TextOrFalsy(CustomerName(row)),
         (item: Item) => Product(item),
         (item: Item) => ProductSupply(item, upper),
         (item: Item) => LineName(item, upper),
         (item: Item) => LineReads(item))
  }

  /** Customers go by their TIN, products by their id, and both by their fixed columns. */
  ghost predicate Orderly(shop: Shop) {
    && (forall row :: shop.customer(row).key == shop.tin(row) && shop.customer(row).merged.Keys == CUSTOMER_COLUMNS)
    && (forall item :: shop.supply(item).key == shop.product(item) && shop.supply(item).merged.Keys == PRODUCT_COLUMNS)
  }

  lemma ShopIsOrderly(sch: Schema, upper: string -> string)
    ensures Orderly(ShopOf(sch, upper))
  {
  }

  /** The line is the first of its invoice with its product. */
  predicate Fresh(shop: Shop, items: seq<Item>, j: nat)
    requires j < |items|
  {
    !Falsy(shop.product(items[j])) && forall i :: 0 <= i < j ==> shop.product(items[i]) != shop.product(items[j])
  }

  predicate Named(shop: Shop, line: Item) {
    shop.name(line).Some?
  }

  function NameOf(shop: Shop, line: Item): Variant
    requires Named(shop, line)
  {
    (shop.product(line), shop.name(line).value)
  }

  // ------------------------------------------------------------- what commits do

  datatype Store = Store(invoices: Table, lineItems: Table, customers: Upserted, products: Upserted, variants: Counters)

  /** The first n line items, inserted. */
  function InsertItems(shop: Shop, t: Table, row: Row, n: nat): Table
    requires n <= |row.items|
  {
    if n == 0 then t
    else Insert(InsertItems(shop, t, row, n - 1), shop.item(row, row.items[n - 1]))
  }

  function AddCustomer(shop: Shop, t: Upserted, row: Row): Upserted {
    if Falsy(shop.tin(row)) then t else Upsert(t, shop.customer(row))
  }

  function StockLine(shop: Shop, s: Store, line: Item): Store {
    s.(products := Upsert(s.products, shop.supply(line)),
       variants := if Named(shop, line) then Bump(s.variants, NameOf(shop, line)) else s.variants)
  }

  /** The first lines among the first n, stocked. */
  function StockLines(shop: Shop, s: Store, items: seq<Item>, n: nat): Store
    requires n <= |items|
  {
    if n == 0 then s
    else if Fresh(shop, items, n - 1) then StockLine(shop, StockLines(shop, s, items, n - 1), items[n - 1])
    else StockLines(shop, s, items, n - 1)
  }

  function ApplyRow(shop: Shop, s: Store, row: Row): Store {
    StockLines(shop,
               s.(invoices := Insert(s.invoices, shop.invoice(row)),
                  lineItems := InsertItems(shop, s.lineItems, row, |row.items|),
                  customers := AddCustomer(shop, s.customers, row)),
               row.items, |row.items|)
  }

  function RowStep(shop: Shop): (Store, Row) -> Store {
    (s, row) => ApplyRow(shop, s, row)
  }

  /** The first n rows, committed. */
  function ApplyFirst(shop: Shop, s: Store, rows: seq<Row>, n: nat): Store
    requires n <= |rows|
  {
    Folds.Fold(RowStep(shop), s, rows, n)
  }

  function ApplyRows(shop: Shop, s: Store, rows: seq<Row>): Store {
    ApplyFirst(shop, s, rows, |rows|)
  }

  // ----------------------------------------------------- when they go through

  predicate LinesOk(shop: Shop, items: seq<Item>, n: nat)
    requires n <= |items|
  {
    forall k :: 0 <= k < n && Fresh(shop, items, k) ==> shop.lineReads(items[k])
  }

  /** Nothing in the row makes Python raise. */
  predicate RowOk(shop: Shop, row: Row) {
    && shop.hasIds(row)
    && (!Falsy(shop.tin(row)) ==> shop.customerReads(row))
    && LinesOk(shop, row.items, |row.items|)
  }

  predicate RowsOk(shop: Shop, rows: seq<Row>) {
    forall i :: 0 <= i < |rows| ==> RowOk(shop, rows[i])
  }

  function LineCost(shop: Shop, line: Item): nat {
    if Named(shop, line) then 2 else 1
  }

  function LinesCost(shop: Shop, items: seq<Item>, n: nat): nat
    requires n <= |items|
  {
    if n == 0 then 0
    else LinesCost(shop, items, n - 1) + if Fresh(shop, items, n - 1) then LineCost(shop, items[n - 1]) else 0
  }

  function CustomerCost(shop: Shop, row: Row): nat {
    if Falsy(shop.tin(row)) then 0 else 1
  }

  /** Statements a row sends. */
  function RowCost(shop: Shop, row: Row): nat {
    1 + |row.items| + CustomerCost(shop, row) + LinesCost(shop, row.items, |row.items|)
  }

  function Cost(shop: Shop, rows: seq<Row>, n: nat): nat
    requires n <= |rows|
  {
    if n == 0 then 0 else Cost(shop, rows, n - 1) + RowCost(shop, rows[n - 1])
  }

  /** Which statements of the transaction the database carries out; the last is the commit. */
  type Database = nat -> bool

  predicate Succeed(db: Database, from: nat, to: nat) {
    forall k: nat :: from <= k < to ==> db(k)
  }

  /** Nothing raises, and every statement of every row succeeds, and the commit. */
  predicate Lands(shop: Shop, rows: seq<Row>, db: Database) {
    RowsOk(shop, rows) && Succeed(db, 0, Cost(shop, rows, |rows|) + 1)
  }

  /** PostgreSQL tags every one of these statements INSERT, also when it updates, so nothing
      is ever counted as updated. */
  datatype Counts = Counts(invoices: nat, lineItems: nat, customersCreated: nat, inventoryCreated: nat)

  function FreshCount(shop: Shop, items: seq<Item>, n: nat): nat
    requires n <= |items|
  {
    if n == 0 then 0 else FreshCount(shop, items, n - 1) + if Fresh(shop, items, n - 1) then 1 else 0
  }

  function CountRow(shop: Shop, c: Counts, row: Row): Counts {
    Counts(c.invoices + 1, c.lineItems + |row.items|, c.customersCreated + CustomerCost(shop, row),
           c.inventoryCreated + FreshCount(shop, row.items, |row.items|))
  }

  function CountRows(shop: Shop, rows: seq<Row>, n: nat): Counts
    requires n <= |rows|
  {
    if n == 0 then Counts(0, 0, 0, 0) else CountRow(shop, CountRows(shop, rows, n - 1), rows[n - 1])
  }

  // -------------------------------------------------------------- failing halfway

  lemma SucceedInParts(db: Database, a: nat, b: nat, c: nat)
    requires a <= b <= c
    ensures Succeed(db, a, c) <==> Succeed(db, a, b) && Succeed(db, b, c)
  {
  }

  predicate LineSucceeds(shop: Shop, line: Item, db: Database, from: nat) {
    shop.lineReads(line) && db(from) && (Named(shop, line) ==> db(from + 1))
  }

  lemma LineSucceedsExactly(shop: Shop, line: Item, db: Database, from: nat)
    ensures LineSucceeds(shop, line, db, from)
            <==> shop.lineReads(line) && Succeed(db, from, from + LineCost(shop, line))
  {
  }

  lemma {:induction false} LinesCostGrows(shop: Shop, items: seq<Item>, j: nat, n: nat)
    requires j <= n <= |items|
    ensures LinesCost(shop, items, j) <= LinesCost(shop, items, n)
  {
    if j < n { LinesCostGrows(shop, items, j, n - 1); }
  }

  predicate LinesSucceed(shop: Shop, items: seq<Item>, db: Database, from: nat) {
    LinesOk(shop, items, |items|) && Succeed(db, from, from + LinesCost(shop, items, |items|))
  }

  /** A first line that fails makes the whole invoice's lines fail. */
  lemma FailedLine(shop: Shop, items: seq<Item>, j: nat, db: Database, start: nat)
    requires j < |items| && Fresh(shop, items, j)
    requires !LineSucceeds(shop, items[j], db, start + LinesCost(shop, items, j))
    ensures !LinesSucceed(shop, items, db, start)
  {
    LinesCostGrows(shop, items, j + 1, |items|);
    LineSucceedsExactly(shop, items[j], db, start + LinesCost(shop, items, j));
    var from, to, end := start + LinesCost(shop, items, j), start + LinesCost(shop, items, j + 1),
                         start + LinesCost(shop, items, |items|);
    SucceedInParts(db, start, from, end);
    SucceedInParts(db, from, to, end);
  }

  /** What the first j lines have done. */
  ghost predicate LinesCommitted(shop: Shop, items: seq<Item>, j: nat, db: Database, was: Store, from: nat, made: nat,
                                 s: Store, n: nat, k: nat)
    requires j <= |items|
  {
    && LinesOk(shop, items, j) && s == StockLines(shop, was, items, j)
    && n == from + LinesCost(shop, items, j) && Succeed(db, from, n)
    && k == made + FreshCount(shop, items, j)
  }

  lemma LinesOneMore(shop: Shop, items: seq<Item>, j: nat, db: Database, was: Store, from: nat, made: nat,
                     s: Store, n: nat, k: nat)
    requires j < |items| && LinesCommitted(shop, items, j, db, was, from, made, s, n, k)
    ensures !Fresh(shop, items, j) ==> LinesCommitted(shop, items, j + 1, db, was, from, made, s, n, k)
    ensures Fresh(shop, items, j) && LineSucceeds(shop, items[j], db, n) ==>
              LinesCommitted(shop, items, j + 1, db, was, from, made, StockLine(shop, s, items[j]),
                             n + LineCost(shop, items[j]), k + 1)
  {
    if Fresh(shop, items, j) && LineSucceeds(shop, items[j], db, n) {
      LineSucceedsExactly(shop, items[j], db, n);
      SucceedInParts(db, from, n, n + LineCost(shop, items[j]));
    }
  }

  /** The products met so far. */
  ghost predicate SeenUpTo(shop: Shop, seen: set<Value>, items: seq<Item>, j: nat)
    requires j <= |items|
  {
    && (forall i :: 0 <= i < j && !Falsy(shop.product(items[i])) ==> shop.product(items[i]) in seen)
    && (forall v :: v in seen ==> exists i :: 0 <= i < j && shop.product(items[i]) == v)
  }

  lemma SeenDecides(shop: Shop, seen: set<Value>, items: seq<Item>, j: nat)
    requires j < |items| && SeenUpTo(shop, seen, items, j)
    ensures Falsy(shop.product(items[j])) || shop.product(items[j]) in seen <==> !Fresh(shop, items, j)
    ensures !Fresh(shop, items, j) ==> SeenUpTo(shop, seen, items, j + 1)
    ensures SeenUpTo(shop, seen + {shop.product(items[j])}, items, j + 1)
  {
  }

  predicate InvoiceSucceeds(shop: Shop, row: Row, db: Database, n: nat) {
    shop.hasIds(row) && db(n)
  }

  predicate CustomerSucceeds(shop: Shop, row: Row, db: Database, n: nat) {
    !Falsy(shop.tin(row)) ==> shop.customerReads(row) && db(n)
  }

  /** The four parts of a row all go through. */
  predicate PartsSucceed(shop: Shop, row: Row, db: Database, n: nat) {
    var n2 := n + 1 + |row.items|;
    && InvoiceSucceeds(shop, row, db, n) && Succeed(db, n + 1, n2) && CustomerSucceeds(shop, row, db, n2)
    && LinesSucceed(shop, row.items, db, n2 + CustomerCost(shop, row))
  }

  lemma RowSucceedsInParts(shop: Shop, row: Row, db: Database, n: nat)
    ensures PartsSucceed(shop, row, db, n) <==> RowOk(shop, row) && Succeed(db, n, n + RowCost(shop, row))
  {
    var n2 := n + 1 + |row.items|;
    var n3 := n2 + CustomerCost(shop, row);
    var n4 := n3 + LinesCost(shop, row.items, |row.items|);
    SucceedInParts(db, n, n + 1, n4);
    SucceedInParts(db, n + 1, n2, n4);
    SucceedInParts(db, n2, n3, n4);
  }

  lemma {:induction false} CostGrows(shop: Shop, rows: seq<Row>, i: nat, n: nat)
    requires i <= n <= |rows|
    ensures Cost(shop, rows, i) <= Cost(shop, rows, n)
  {
    if i < n { CostGrows(shop, rows, i, n - 1); }
  }

  lemma FailedRow(shop: Shop, rows: seq<Row>, i: nat, db: Database)
    requires i < |rows| && !PartsSucceed(shop, rows[i], db, Cost(shop, rows, i))
    ensures !Lands(shop, rows, db)
  {
    RowSucceedsInParts(shop, rows[i], db, Cost(shop, rows, i));
    CostGrows(shop, rows, i + 1, |rows|);
    var end := Cost(shop, rows, |rows|) + 1;
    SucceedInParts(db, 0, Cost(shop, rows, i), end);
    SucceedInParts(db, Cost(shop, rows, i), Cost(shop, rows, i + 1), end);
  }

  /** What one row that went through has done. */
  ghost predicate RowCommitted(shop: Shop, row: Row, s: Store, n: nat, c: Counts, s': Store, n': nat, c': Counts) {
    s' == ApplyRow(shop, s, row) && n' == n + RowCost(shop, row) && c' == CountRow(shop, c, row)
  }

  /** What the first i rows have done. */
  ghost predicate Committed(shop: Shop, rows: seq<Row>, i: nat, db: Database, was: Store, s: Store, n: nat, c: Counts)
    requires i <= |rows|
  {
    && (forall k :: 0 <= k < i ==> RowOk(shop, rows[k]))
    && s == ApplyFirst(shop, was, rows, i) && c == CountRows(shop, rows, i)
    && n == Cost(shop, rows, i) && Succeed(db, 0, n)
  }

  lemma CommitOneMore(shop: Shop, rows: seq<Row>, i: nat, db: Database, was: Store,
                      s: Store, n: nat, c: Counts, s': Store, n': nat, c': Counts)
    requires i < |rows| && Committed(shop, rows, i, db, was, s, n, c)
    requires RowCommitted(shop, rows[i], s, n, c, s', n', c') && PartsSucceed(shop, rows[i], db, n)
    ensures Committed(shop, rows, i + 1, db, was, s', n', c')
  {
    RowSucceedsInParts(shop, rows[i], db, n);
    SucceedInParts(db, 0, n, n');
  }

  lemma LandsIfCommitSucceeds(shop: Shop, rows: seq<Row>, db: Database, was: Store, s: Store, n: nat, c: Counts)
    requires Committed(shop, rows, |rows|, db, was, s, n, c)
    ensures Lands(shop, rows, db) <==> db(n)
  {
    SucceedInParts(db, 0, n, n + 1);
  }

  // -------------------------------------------------------------- the committer

  class RecordCreator {
    const shop: Shop
    var store: Store
    var sent: nat
    var counts: Counts

    constructor (shop: Shop, store: Store)
      ensures this.shop == shop && this.store == store
    {
      this.shop, this.store, this.sent, this.counts := shop, store, 0, Counts(0, 0, 0, 0);
    }

    method CommitInvoice(row: Row, db: Database) returns (ok: bool)
      modifies this
      ensures ok <==> InvoiceSucceeds(shop, row, db, old(sent))
      ensures ok ==> sent == old(sent) + 1
      ensures ok ==> store == old(store).(invoices := Insert(old(store).invoices, shop.invoice(row)))
      ensures ok ==> counts == old(counts).(invoices := old(counts).invoices + 1)
    {
      if !shop.hasIds(row) || !db(sent) {
        return false;
      }
      store := store.(invoices := Insert(store.invoices, shop.invoice(row)));
      sent := sent + 1;
      counts := counts.(invoices := counts.invoices + 1);
      return true;
    }

    method CommitLineItems(row: Row, db: Database) returns (ok: bool)
      modifies this
      ensures ok <==> Succeed(db, old(sent), old(sent) + |row.items|)
      ensures ok ==> sent == old(sent) + |row.items|
      ensures ok ==> store == old(store).(lineItems := InsertItems(shop, old(store).lineItems, row, |row.items|))
      ensures ok ==> counts == old(counts).(lineItems := old(counts).lineItems + |row.items|)
    {
      var j := 0;
      while j < |row.items|
        invariant 0 <= j <= |row.items| && sent == old(sent) + j && Succeed(db, old(sent), sent)
        invariant store == old(store).(lineItems := InsertItems(shop, old(store).lineItems, row, j))
        invariant counts == old(counts).(lineItems := old(counts).lineItems + j)
      {
        if !db(sent) {
          return false;
        }
        store := store.(lineItems := Insert(store.lineItems, shop.item(row, row.items[j])));
        counts := counts.(lineItems := counts.lineItems + 1);
        sent := sent + 1;
        j := j + 1;
      }
      return true;
    }

    method UpsertCustomer(row: Row, db: Database) returns (ok: bool)
      modifies this
      ensures ok <==> CustomerSucceeds(shop, row, db, old(sent))
      ensures ok ==> sent == old(sent) + CustomerCost(shop, row)
      ensures ok ==> store == old(store).(customers := AddCustomer(shop, old(store).customers, row))
      ensures ok ==> counts == old(counts).(customersCreated := old(counts).customersCreated + CustomerCost(shop, row))
    {
      if Falsy(shop.tin(row)) {
        return true;
      }
      if !shop.customerReads(row) || !db(sent) {
        return false;
      }
      store := store.(customers := Upsert(store.customers, shop.customer(row)));
      sent := sent + 1;
      counts := counts.(customersCreated := counts.customersCreated + 1);
      return true;
    }

    /** One first line: the product, then its name. */
    method UpsertProduct(item: Item, db: Database) returns (ok: bool)
      modifies this
      ensures ok <==> LineSucceeds(shop, item, db, old(sent))
      ensures ok ==> sent == old(sent) + LineCost(shop, item)
      ensures ok ==> store == StockLine(shop, old(store), item)
      ensures ok ==> counts == old(counts).(inventoryCreated := old(counts).inventoryCreated + 1)
    {
      if !shop.lineReads(item) || !db(sent) {
        return false;
      }
      store := store.(products := Upsert(store.products, shop.supply(item)));
      sent := sent + 1;
      counts := counts.(inventoryCreated := counts.inventoryCreated + 1);
      if Named(shop, item) {
        if !db(sent) {
          return false;
        }
        store := store.(variants := Bump(store.variants, NameOf(shop, item)));
        sent := sent + 1;
      }
      return true;
    }

    method UpsertInventoryFromLineItems(items: seq<Item>, db: Database) returns (ok: bool)
      modifies this
      ensures ok <==> LinesSucceed(shop, items, db, old(sent))
      ensures ok ==> sent == old(sent) + LinesCost(shop, items, |items|)
      ensures ok ==> store == StockLines(shop, old(store), items, |items|)
      ensures ok ==>
                counts == old(counts).(inventoryCreated :=
                                         old(counts).inventoryCreated + FreshCount(shop, items, |items|))
    {
      var seen: set<Value> := {};
      var j := 0;
      while j < |items|
        invariant 0 <= j <= |items| && SeenUpTo(shop, seen, items, j)
        invariant LinesCommitted(shop, items, j, db, old(store), old(sent), old(counts).inventoryCreated,
                                 store, sent, counts.inventoryCreated)
        invariant counts == old(counts).(inventoryCreated := counts.inventoryCreated)
      {
        var item := items[j];
        SeenDecides(shop, seen, items, j);
        LinesOneMore(shop, items, j, db, old(store), old(sent), old(counts).inventoryCreated, store, sent,
                     counts.inventoryCreated);
        if !Falsy(shop.product(item)) && shop.product(item) !in seen {
          seen := seen + {shop.product(item)};
          ok := UpsertProduct(item, db);
          if !ok {
            FailedLine(shop, items, j, db, old(sent));
            return;
          }
        }
        j := j + 1;
      }
      return true;
    }

    /** All statements of one row; if any of them fails, the row fails. */
    method CommitRow(row: Row, db: Database) returns (ok: bool)
      modifies this
      ensures ok <==> PartsSucceed(shop, row, db, old(sent))
      ensures ok ==> RowCommitted(shop, row, old(store), old(sent), old(counts), store, sent, counts)
    {
      ok := CommitInvoice(row, db);
      if !ok { return; }
      ok := CommitLineItems(row, db);
      if !ok { return; }
      ok := UpsertCustomer(row, db);
      if !ok { return; }
      ok := UpsertInventoryFromLineItems(row.items, db);
    }

    /** One turn of the loop over the rows. */
    method CommitNext(rows: seq<Row>, i: nat, db: Database, ghost was: Store) returns (ok: bool)
      requires i < |rows| && Committed(shop, rows, i, db, was, store, sent, counts)
      modifies this
      ensures ok ==> Committed(shop, rows, i + 1, db, was, store, sent, counts)
      ensures !ok ==> !Lands(shop, rows, db)
    {
      ghost var s, n, c := store, sent, counts;
      ok := CommitRow(rows[i], db);
      if !ok {
        FailedRow(shop, rows, i, db);
        return;
      }
      CommitOneMore(shop, rows, i, db, was, s, n, c, store, sent, counts);
    }

    method CommitRows(rows: seq<Row>, db: Database) returns (ok: bool)
      requires sent == 0 && counts == Counts(0, 0, 0, 0)
      modifies this
      ensures ok ==> Committed(shop, rows, |rows|, db, old(store), store, sent, counts)
      ensures !ok ==> !Lands(shop, rows, db)
    {
      var i := 0;
      while i < |rows|
        invariant 0 <= i <= |rows|
        invariant Committed(shop, rows, i, db, old(store), store, sent, counts)
      {
        ok := CommitNext(rows, i, db, old(store));
        if !ok {
          return;
        }
        i := i + 1;
      }
      return true;
    }

    /** One transaction: either every statement of every row and the commit succeed and the
        store is the old one with all rows applied, or the store is what it was. */
    method CommitBatch(rows: seq<Row>, db: Database) returns (success: bool)
      modifies this
      ensures success <==> Lands(shop, rows, db)
      ensures success ==> store == ApplyRows(shop, old(store), rows) && counts == CountRows(shop, rows, |rows|)
      ensures !success ==> store == old(store)
    {
      var saved := store;
      sent, counts := 0, Counts(0, 0, 0, 0);
      success := CommitRows(rows, db);
      if success {
        LandsIfCommitSucceeds(shop, rows, db, saved, store, sent, counts);
        success := db(sent);
      }
      if !success {
        store := saved;
      }
    }
  }
}
