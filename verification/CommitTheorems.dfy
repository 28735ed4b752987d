/** What any run of committed batches leaves in the customer, product and name tables. */
module CommitTheorems {
  import opened Options
  import opened EditValidator
  import opened Tables
  import opened RecordCreator
  import Folds

  // ------------------------------------------------------- commits as one long fold

  function AllInvoices(shop: Shop, rows: seq<Row>): seq<Insertion> {
    seq(|rows|, i requires 0 <= i < |rows| => shop.invoice(rows[i]))
  }

  /** What the first n rows supply to the customers. */
  function AllCustomers(shop: Shop, rows: seq<Row>, n: nat): seq<Supply>
    requires n <= |rows|
  {
    if n == 0 then []
    else if Falsy(shop.tin(rows[n - 1])) then AllCustomers(shop, rows, n - 1)
    else AllCustomers(shop, rows, n - 1) + [shop.customer(rows[n - 1])]
  }

  /** What the first lines among the first n supply to the products. */
  function LineSupplies(shop: Shop, items: seq<Item>, n: nat): seq<Supply>
    requires n <= |items|
  {
    if n == 0 then []
    else if Fresh(shop, items, n - 1) then LineSupplies(shop, items, n - 1) + [shop.supply(items[n - 1])]
    else LineSupplies(shop, items, n - 1)
  }

  /** The names the first lines among the first n count. */
  function LineNames(shop: Shop, items: seq<Item>, n: nat): seq<Variant>
    requires n <= |items|
  {
    if n == 0 then []
    else if Fresh(shop, items, n - 1) && Named(shop, items[n - 1])
    then LineNames(shop, items, n - 1) + [NameOf(shop, items[n - 1])]
    else LineNames(shop, items, n - 1)
  }

  function AllProducts(shop: Shop, rows: seq<Row>, n: nat): seq<Supply>
    requires n <= |rows|
  {
    if n == 0 then [] else AllProducts(shop, rows, n - 1) + LineSupplies(shop, rows[n - 1].items, |rows[n - 1].items|)
  }

  function AllNames(shop: Shop, rows: seq<Row>, n: nat): seq<Variant>
    requires n <= |rows|
  {
    if n == 0 then [] else AllNames(shop, rows, n - 1) + LineNames(shop, rows[n - 1].items, |rows[n - 1].items|)
  }

  lemma UpsertSnoc(t: Upserted, ss: seq<Supply>, s: Supply)
    ensures UpsertAll(t, ss + [s]) == Upsert(UpsertAll(t, ss), s)
  {
    assert (ss + [s])[..|ss|] == ss;
  }

  lemma BumpSnoc(t: Counters, vs: seq<Variant>, v: Variant)
    ensures BumpAll(t, vs + [v]) == Bump(BumpAll(t, vs), v)
  {
    assert (vs + [v])[..|vs|] == vs;
  }

  /** The tables are what these supplies and names made of the tables before. */
  ghost predicate Stocked(was: Store, now: Store, products: seq<Supply>, names: seq<Variant>) {
    now == was.(products := UpsertAll(was.products, products), variants := BumpAll(was.variants, names))
  }

  lemma StockedLine(shop: Shop, was: Store, now: Store, line: Item, ps: seq<Supply>, names: seq<Variant>)
    requires Stocked(was, now, ps, names)
    ensures Named(shop, line) ==>
            Stocked(was, StockLine(shop, now, line), ps + [shop.supply(line)], names + [NameOf(shop, line)])
    ensures !Named(shop, line) ==> Stocked(was, StockLine(shop, now, line), ps + [shop.supply(line)], names)
  {
    UpsertSnoc(was.products, ps, shop.supply(line));
    if Named(shop, line) { BumpSnoc(was.variants, names, NameOf(shop, line)); }
  }

  lemma {:induction false} StockIsUpserts(shop: Shop, s: Store, items: seq<Item>, n: nat)
    requires n <= |items|
    ensures Stocked(s, StockLines(shop, s, items, n), LineSupplies(shop, items, n), LineNames(shop, items, n))
  {
    if n > 0 {
      StockIsUpserts(shop, s, items, n - 1);
      StockedLine(shop, s, StockLines(shop, s, items, n - 1), items[n - 1], LineSupplies(shop, items, n - 1),
                  LineNames(shop, items, n - 1));
    }
  }

  /** The same, with the customers. */
  ghost predicate Folded(was: Store, now: Store, customers: seq<Supply>, products: seq<Supply>, names: seq<Variant>) {
    && now.customers == UpsertAll(was.customers, customers)
    && now.products == UpsertAll(was.products, products)
    && now.variants == BumpAll(was.variants, names)
  }

  lemma FoldedRow(shop: Shop, was: Store, now: Store, row: Row, cs: seq<Supply>, ps: seq<Supply>, names: seq<Variant>)
    requires Folded(was, now, cs, ps, names)
    ensures Folded(was, ApplyRow(shop, now, row), if Falsy(shop.tin(row)) then cs else cs + [shop.customer(row)],
                   ps + LineSupplies(shop, row.items, |row.items|), names + LineNames(shop, row.items, |row.items|))
  {
    RowAsFold(shop, now, row);
    UpsertSnoc(was.customers, cs, shop.customer(row));
    UpsertAllConcat(was.products, ps, LineSupplies(shop, row.items, |row.items|));
    BumpAllConcat(was.variants, names, LineNames(shop, row.items, |row.items|));
  }

  /** Committing rows runs the customer, product and name tables through all that the rows
      supply to them, in order. */
  lemma {:induction false} CommitsAreFolds(shop: Shop, s: Store, rows: seq<Row>, n: nat)
    requires n <= |rows|
    ensures Folded(s, ApplyFirst(shop, s, rows, n), AllCustomers(shop, rows, n), AllProducts(shop, rows, n),
                   AllNames(shop, rows, n))
  {
    if n > 0 {
      CommitsAreFolds(shop, s, rows, n - 1);
      FoldedRow(shop, s, ApplyFirst(shop, s, rows, n - 1), rows[n - 1], AllCustomers(shop, rows, n - 1),
                AllProducts(shop, rows, n - 1), AllNames(shop, rows, n - 1));
    }
  }

  lemma RowAsFold(shop: Shop, s: Store, row: Row)
    ensures var now := ApplyRow(shop, s, row);
      && now.invoices == Insert(s.invoices, shop.invoice(row))
      && now.lineItems == InsertItems(shop, s.lineItems, row, |row.items|)
      && now.customers == AddCustomer(shop, s.customers, row)
      && now.products == UpsertAll(s.products, LineSupplies(shop, row.items, |row.items|))
      && now.variants == BumpAll(s.variants, LineNames(shop, row.items, |row.items|))
  {
    StockIsUpserts(shop, s.(invoices := Insert(s.invoices, shop.invoice(row)),
                            lineItems := InsertItems(shop, s.lineItems, row, |row.items|),
                            customers := AddCustomer(shop, s.customers, row)),
                   row.items, |row.items|);
  }

  lemma {:induction false} InvoicesInserted(shop: Shop, s: Store, rows: seq<Row>, n: nat)
    requires n <= |rows|
    ensures ApplyFirst(shop, s, rows, n).invoices == InsertAll(s.invoices, AllInvoices(shop, rows)[..n])
  {
    if n > 0 {
      InvoicesInserted(shop, s, rows, n - 1);
      RowAsFold(shop, ApplyFirst(shop, s, rows, n - 1), rows[n - 1]);
      var xs := AllInvoices(shop, rows);
      assert xs[..n][..n - 1] == xs[..n - 1];
    }
  }

  /** What a row's line items insert. */
  function RowItems(shop: Shop, row: Row): seq<Insertion> {
    seq(|row.items|, j requires 0 <= j < |row.items| => shop.item(row, row.items[j]))
  }

  function AllItems(shop: Shop, rows: seq<Row>, n: nat): seq<Insertion>
    requires n <= |rows|
  {
    if n == 0 then [] else AllItems(shop, rows, n - 1) + RowItems(shop, rows[n - 1])
  }

  lemma {:induction false} RowItemsInserted(shop: Shop, t: Table, row: Row, n: nat)
    requires n <= |row.items|
    ensures InsertItems(shop, t, row, n) == InsertAll(t, RowItems(shop, row)[..n])
  {
    if n > 0 {
      RowItemsInserted(shop, t, row, n - 1);
      var xs := RowItems(shop, row);
      assert xs[..n][..n - 1] == xs[..n - 1];
    }
  }

  lemma {:induction false} ItemsInserted(shop: Shop, s: Store, rows: seq<Row>, n: nat)
    requires n <= |rows|
    ensures ApplyFirst(shop, s, rows, n).lineItems == InsertAll(s.lineItems, AllItems(shop, rows, n))
  {
    if n > 0 {
      var before, row := ApplyFirst(shop, s, rows, n - 1), rows[n - 1];
      ItemsInserted(shop, s, rows, n - 1);
      RowAsFold(shop, before, row);
      RowItemsInserted(shop, before.lineItems, row, |row.items|);
      assert RowItems(shop, row)[..|row.items|] == RowItems(shop, row);
      InsertAllConcat(s.lineItems, AllItems(shop, rows, n - 1), RowItems(shop, row));
    }
  }

  /** Every inserted line item is one of some row. */
  lemma {:induction false} ItemsAreOfRows(shop: Shop, rows: seq<Row>, n: nat, k: nat) returns (i: nat, j: nat)
    requires n <= |rows| && k < |AllItems(shop, rows, n)|
    ensures i < n && j < |rows[i].items| && AllItems(shop, rows, n)[k] == shop.item(rows[i], rows[i].items[j])
  {
    var m := |AllItems(shop, rows, n - 1)|;
    if k < m {
      i, j := ItemsAreOfRows(shop, rows, n - 1, k);
    } else {
      i, j := n - 1, k - m;
    }
  }

  datatype Batch = Batch(rows: seq<Row>, db: Database)

  /** The store after a run of commit attempts, as `CommitBatch` leaves it each time. */
  function StoreAfter(shop: Shop, s: Store, batches: seq<Batch>): Store {
    if batches == [] then s
    else
      var b := batches[|batches| - 1];
      var before := StoreAfter(shop, s, batches[..|batches| - 1]);
      if Lands(shop, b.rows, b.db) then ApplyRows(shop, before, b.rows) else before
  }

  /** The rows of the batches that were committed. */
  function Landed(shop: Shop, batches: seq<Batch>): seq<Row> {
    if batches == [] then []
    else
      var b := batches[|batches| - 1];
      Landed(shop, batches[..|batches| - 1]) + if Lands(shop, b.rows, b.db) then b.rows else []
  }

  /** However batches are cut and whichever of them fail, the store is the fold over the rows
      of those that went through. */
  lemma {:induction false} RunsAreOneFold(shop: Shop, s: Store, batches: seq<Batch>)
    ensures StoreAfter(shop, s, batches) == ApplyRows(shop, s, Landed(shop, batches))
  {
    if batches != [] {
      var b := batches[|batches| - 1];
      var before := Landed(shop, batches[..|batches| - 1]);
      RunsAreOneFold(shop, s, batches[..|batches| - 1]);
      Folds.FoldConcat(RowStep(shop), s, before, b.rows, |b.rows|);
      assert before + [] == before;
    }
  }

  // --------------------------------------------------------------------- customers

  /** What the rows with a TIN supply, in order. */
  function CustomerHistory(shop: Shop, rows: seq<Row>, n: nat, tin: Value): seq<Supply>
    requires n <= |rows|
  {
    if n == 0 then []
    else if !Falsy(shop.tin(rows[n - 1])) && shop.tin(rows[n - 1]) == tin
    then CustomerHistory(shop, rows, n - 1, tin) + [shop.customer(rows[n - 1])]
    else CustomerHistory(shop, rows, n - 1, tin)
  }

  lemma {:induction false} SuppliesConcat(a: seq<Supply>, b: seq<Supply>, key: Value)
    ensures Supplies(a + b, key) == Supplies(a, key) + Supplies(b, key)
  {
    if b == [] {
      assert a + b == a;
    } else {
      SuppliesConcat(a, b[..|b| - 1], key);
      assert (a + b)[..|a + b| - 1] == a + b[..|b| - 1];
    }
  }

  lemma SuppliesSnoc(ss: seq<Supply>, s: Supply, key: Value)
    ensures Supplies(ss + [s], key) == if s.key == key then Supplies(ss, key) + [s] else Supplies(ss, key)
  {
    assert (ss + [s])[..|ss|] == ss;
  }

  lemma {:induction false} CustomerSuppliesAre(shop: Shop, rows: seq<Row>, n: nat, tin: Value)
    requires Orderly(shop) && n <= |rows|
    ensures Supplies(AllCustomers(shop, rows, n), tin) == CustomerHistory(shop, rows, n, tin)
  {
    if n > 0 {
      CustomerSuppliesAre(shop, rows, n - 1, tin);
      SuppliesSnoc(AllCustomers(shop, rows, n - 1), shop.customer(rows[n - 1]), tin);
    }
  }

  lemma {:induction false} CustomerHistoryColumns(shop: Shop, rows: seq<Row>, n: nat, tin: Value)
    requires Orderly(shop) && n <= |rows|
    ensures SameColumns(CustomerHistory(shop, rows, n, tin), CUSTOMER_COLUMNS)
  {
    if n > 0 { CustomerHistoryColumns(shop, rows, n - 1, tin); }
  }

  ghost predicate WellFormed(s: Store) {
    HasColumns(s.customers, CUSTOMER_COLUMNS) && HasColumns(s.products, PRODUCT_COLUMNS)
  }

  lemma {:induction false} LineSuppliesColumns(shop: Shop, items: seq<Item>, n: nat)
    requires Orderly(shop)
    requires n <= |items|
    ensures SameColumns(LineSupplies(shop, items, n), PRODUCT_COLUMNS)
  {
    if n > 0 { LineSuppliesColumns(shop, items, n - 1); }
  }

  lemma RowKeepsWellFormed(shop: Shop, s: Store, row: Row)
    requires Orderly(shop) && WellFormed(s)
    ensures WellFormed(ApplyRow(shop, s, row))
  {
    RowAsFold(shop, s, row);
    LineSuppliesColumns(shop, row.items, |row.items|);
    UpsertsKeepColumns(s.products, LineSupplies(shop, row.items, |row.items|), PRODUCT_COLUMNS);
  }

  lemma {:induction false} CommitsKeepWellFormed(shop: Shop, s: Store, rows: seq<Row>, n: nat)
    requires Orderly(shop)
    requires WellFormed(s) && n <= |rows|
    ensures WellFormed(ApplyFirst(shop, s, rows, n))
  {
    if n > 0 {
      CommitsKeepWellFormed(shop, s, rows, n - 1);
      RowKeepsWellFormed(shop, ApplyFirst(shop, s, rows, n - 1), rows[n - 1]);
    }
  }

  /** A customer's insert-only columns (its id among them) are those of the first row with
      its TIN, and each COALESCEd column is the last non-null value supplied for it. */
  lemma CustomersAreTheLastNonNull(shop: Shop, s: Store, rows: seq<Row>, tin: Value, c: string)
    requires Orderly(shop)
    requires WellFormed(s) && c in CUSTOMER_COLUMNS
    ensures var own, now := CustomerHistory(shop, rows, |rows|, tin), ApplyRows(shop, s, rows).customers;
      && (tin in now <==> tin in s.customers || own != [])
      && (tin in s.customers ==>
            && now[tin].fixed == s.customers[tin].fixed
            && LastNonNull(own, c, Get(s.customers[tin].merged, c), Get(now[tin].merged, c)))
      && (tin !in s.customers && own != [] ==>
            now[tin].fixed == own[0].fixed && LastNonNull(own, c, Null, Get(now[tin].merged, c)))
  {
    CommitsAreFolds(shop, s, rows, |rows|);
    CustomerSuppliesAre(shop, rows, |rows|, tin);
    CustomerHistoryColumns(shop, rows, |rows|, tin);
    UpsertsAreAFold(s.customers, AllCustomers(shop, rows, |rows|), tin, CUSTOMER_COLUMNS, c);
  }

  /** The rows with a TIN, in order. */
  function RowsWith(rows: seq<Row>, n: nat, tin: Value): seq<Row>
    requires n <= |rows|
  {
    if n == 0 then []
    else if Tin(rows[n - 1]) == tin then RowsWith(rows, n - 1, tin) + [rows[n - 1]]
    else RowsWith(rows, n - 1, tin)
  }

  lemma {:induction false} HistoryIsOfRows(sch: Schema, upper: string -> string, rows: seq<Row>, n: nat, tin: Value)
    requires n <= |rows| && !Falsy(tin)
    ensures var own, history := RowsWith(rows, n, tin), CustomerHistory(ShopOf(sch, upper), rows, n, tin);
      |own| == |history| && forall k :: 0 <= k < |own| ==> history[k] == CustomerSupply(own[k], upper)
  {
    if n > 0 { HistoryIsOfRows(sch, upper, rows, n - 1, tin); }
  }

  /** The row's own value for a customer column. */
  function PartyValue(row: Row, c: string): Value {
    Get(row.fields, Prefix(row) + c)
  }

  lemma CustomerColumn(row: Row, upper: string -> string, c: string)
    requires c in CUSTOMER_COLUMNS
    ensures Get(CustomerSupply(row, upper).merged, c) == PartyValue(row, c)
    ensures Get(CustomerSupply(row, upper).fixed, "customer_id") == CustomerId(row)
  {
  }

  /** A value is the last non-null one the rows give for a column of their counterparty. */
  ghost predicate LastGiven(own: seq<Row>, c: string, was: Value, v: Value) {
    || (exists k :: 0 <= k < |own| && v == PartyValue(own[k], c) && !v.Null?
                    && forall i :: k < i < |own| ==> PartyValue(own[i], c).Null?)
    || (v == was && forall i :: 0 <= i < |own| ==> PartyValue(own[i], c).Null?)
  }

  lemma GivenIsSupplied(own: seq<Row>, history: seq<Supply>, upper: string -> string, c: string, was: Value, v: Value)
    requires c in CUSTOMER_COLUMNS && |own| == |history|
    requires forall k :: 0 <= k < |own| ==> history[k] == CustomerSupply(own[k], upper)
    requires LastNonNull(history, c, was, v)
    ensures LastGiven(own, c, was, v)
  {
    forall k | 0 <= k < |own| ensures Get(history[k].merged, c) == PartyValue(own[k], c) {
      CustomerColumn(own[k], upper, c);
    }
    if k :| 0 <= k < |history| && v == Get(history[k].merged, c) && !v.Null?
            && forall i :: k < i < |history| ==> Get(history[i].merged, c).Null? {
      assert v == PartyValue(own[k], c);
    }
  }

  /** In the service's own columns: a customer new in the table has the id of the first row
      with its TIN, and each column is the last non-null value the rows with that TIN give. */
  lemma StoredCustomer(sch: Schema, upper: string -> string, s: Store, rows: seq<Row>, tin: Value, c: string)
    requires WellFormed(s) && !Falsy(tin) && c in CUSTOMER_COLUMNS && tin !in s.customers
    ensures var own, now := RowsWith(rows, |rows|, tin), ApplyRows(ShopOf(sch, upper), s, rows).customers;
      && (tin in now <==> own != [])
      && (own != [] ==> Get(now[tin].fixed, "customer_id") == CustomerId(own[0])
                        && LastGiven(own, c, Null, Get(now[tin].merged, c)))
  {
    var shop := ShopOf(sch, upper);
    ShopIsOrderly(sch, upper);
    CustomersAreTheLastNonNull(shop, s, rows, tin, c);
    HistoryIsOfRows(sch, upper, rows, |rows|, tin);
    var own, history := RowsWith(rows, |rows|, tin), CustomerHistory(shop, rows, |rows|, tin);
    if own != [] {
      CustomerColumn(own[0], upper, c);
      GivenIsSupplied(own, history, upper, c, Null, Get(ApplyRows(shop, s, rows).customers[tin].merged, c));
    }
  }

  // ---------------------------------------------------------------------- products

  /** The first of the first n lines with a product. */
  function FirstWithin(shop: Shop, items: seq<Item>, n: nat, product: Value): Option<Item>
    requires n <= |items|
  {
    if n == 0 then None
    else
      var before := FirstWithin(shop, items, n - 1, product);
      if before.Some? then before else if shop.product(items[n - 1]) == product then Some(items[n - 1]) else None
  }

  function FirstWith(shop: Shop, items: seq<Item>, product: Value): Option<Item> {
    FirstWithin(shop, items, |items|, product)
  }

  lemma {:induction false} FirstWithNone(shop: Shop, items: seq<Item>, n: nat, product: Value)
    requires n <= |items|
    ensures FirstWithin(shop, items, n, product).None? <==> forall i :: 0 <= i < n ==> shop.product(items[i]) != product
  {
    if n > 0 { FirstWithNone(shop, items, n - 1, product); }
  }

  lemma FreshIsFirst(shop: Shop, items: seq<Item>, n: nat, product: Value)
    requires 0 < n <= |items| && !Falsy(product)
    ensures Fresh(shop, items, n - 1) && shop.product(items[n - 1]) == product
            <==> FirstWithin(shop, items, n - 1, product).None? && shop.product(items[n - 1]) == product
  {
    FirstWithNone(shop, items, n - 1, product);
  }

  /** For each product an invoice supplies at most once: what its first line with it says. */
  lemma {:induction false} SuppliesOfLines(shop: Shop, items: seq<Item>, n: nat, product: Value)
    requires Orderly(shop) && n <= |items| && !Falsy(product)
    ensures Supplies(LineSupplies(shop, items, n), product)
            == match FirstWithin(shop, items, n, product) case None => [] case Some(line) => [shop.supply(line)]
  {
    if n > 0 {
      var before, line := LineSupplies(shop, items, n - 1), items[n - 1];
      SuppliesOfLines(shop, items, n - 1, product);
      FreshIsFirst(shop, items, n, product);
      SuppliesSnoc(before, shop.supply(line), product);
      assert LineSupplies(shop, items, n) == if Fresh(shop, items, n - 1) then before + [shop.supply(line)] else before;
    }
  }

  predicate NamesProduct(shop: Shop, line: Option<Item>) {
    line.Some? && Named(shop, line.value)
  }

  lemma TimesSnoc(vs: seq<Variant>, v: Variant, product: Value)
    ensures Times(vs + [v], product) == Times(vs, product) + Weight(v, 1, product)
  {
    assert (vs + [v])[..|vs|] == vs;
  }

  lemma {:induction false} TimesOfLines(shop: Shop, items: seq<Item>, n: nat, product: Value)
    requires n <= |items| && !Falsy(product)
    ensures Times(LineNames(shop, items, n), product)
            == if NamesProduct(shop, FirstWithin(shop, items, n, product)) then 1 else 0
  {
    if n > 0 {
      TimesOfLines(shop, items, n - 1, product);
      FreshIsFirst(shop, items, n, product);
      if Named(shop, items[n - 1]) { TimesSnoc(LineNames(shop, items, n - 1), NameOf(shop, items[n - 1]), product); }
    }
  }

  /** Invoices that carry a product at all, and those whose first line with it is named. */
  function InvoicesWith(shop: Shop, rows: seq<Row>, n: nat, product: Value): nat
    requires n <= |rows|
  {
    if n == 0 then 0
    else InvoicesWith(shop, rows, n - 1, product) + if FirstWith(shop, rows[n - 1].items, product).Some? then 1 else 0
  }

  function InvoicesNaming(shop: Shop, rows: seq<Row>, n: nat, product: Value): nat
    requires n <= |rows|
  {
    if n == 0 then 0
    else
      InvoicesNaming(shop, rows, n - 1, product)
      + if NamesProduct(shop, FirstWith(shop, rows[n - 1].items, product)) then 1 else 0
  }

  lemma {:induction false} TimesOfRows(shop: Shop, rows: seq<Row>, n: nat, product: Value)
    requires n <= |rows| && !Falsy(product)
    ensures Times(AllNames(shop, rows, n), product) == InvoicesNaming(shop, rows, n, product)
  {
    if n > 0 {
      var items := rows[n - 1].items;
      TimesOfRows(shop, rows, n - 1, product);
      TimesConcat(AllNames(shop, rows, n - 1), LineNames(shop, items, |items|), product);
      TimesOfLines(shop, items, |items|, product);
    }
  }

  /** The occurrence counts of a product's names add up to the number of committed invoices
      whose first line with the product has a description. */
  lemma NamesCountNamingInvoices(shop: Shop, s: Store, rows: seq<Row>, product: Value)
    requires !Falsy(product)
    ensures Occurrences(ApplyRows(shop, s, rows).variants, product)
            == Occurrences(s.variants, product) + InvoicesNaming(shop, rows, |rows|, product)
  {
    CommitsAreFolds(shop, s, rows, |rows|);
    OccurrencesCountBumps(s.variants, AllNames(shop, rows, |rows|), product);
    TimesOfRows(shop, rows, |rows|, product);
  }

  /** What the first n rows supply for a product, in order: their first lines with it. */
  function ProductHistory(shop: Shop, rows: seq<Row>, n: nat, product: Value): seq<Supply>
    requires n <= |rows|
  {
    if n == 0 then []
    else
      ProductHistory(shop, rows, n - 1, product)
      + match FirstWith(shop, rows[n - 1].items, product) case None => [] case Some(line) => [shop.supply(line)]
  }

  lemma {:induction false} ProductSuppliesAre(shop: Shop, rows: seq<Row>, n: nat, product: Value)
    requires Orderly(shop)
    requires n <= |rows| && !Falsy(product)
    ensures Supplies(AllProducts(shop, rows, n), product) == ProductHistory(shop, rows, n, product)
  {
    if n > 0 {
      var items := rows[n - 1].items;
      ProductSuppliesAre(shop, rows, n - 1, product);
      SuppliesConcat(AllProducts(shop, rows, n - 1), LineSupplies(shop, items, |items|), product);
      SuppliesOfLines(shop, items, |items|, product);
    }
  }

  lemma {:induction false} ProductHistoryIs(shop: Shop, rows: seq<Row>, n: nat, product: Value)
    requires Orderly(shop)
    requires n <= |rows|
    ensures |ProductHistory(shop, rows, n, product)| == InvoicesWith(shop, rows, n, product)
    ensures SameColumns(ProductHistory(shop, rows, n, product), PRODUCT_COLUMNS)
  {
    if n > 0 { ProductHistoryIs(shop, rows, n - 1, product); }
  }

  /** A product's COALESCEd columns are the last non-null ones supplied for it, and its
      invoice counter counts the invoices with it, except the one that created it. */
  lemma ProductsAreTheLastNonNull(shop: Shop, s: Store, rows: seq<Row>, product: Value, c: string)
    requires Orderly(shop)
    requires WellFormed(s) && !Falsy(product) && c in PRODUCT_COLUMNS
    ensures var own, now := ProductHistory(shop, rows, |rows|, product), ApplyRows(shop, s, rows).products;
      && |own| == InvoicesWith(shop, rows, |rows|, product)
      && (product in now <==> product in s.products || own != [])
      && (product in s.products ==>
            && now[product].fixed == s.products[product].fixed
            && now[product].updates == s.products[product].updates + |own|
            && LastNonNull(own, c, Get(s.products[product].merged, c), Get(now[product].merged, c)))
      && (product !in s.products && own != [] ==>
            && now[product].fixed == own[0].fixed
            && now[product].updates == |own| - 1 && LastNonNull(own, c, Null, Get(now[product].merged, c)))
  {
    CommitsAreFolds(shop, s, rows, |rows|);
    ProductSuppliesAre(shop, rows, |rows|, product);
    ProductHistoryIs(shop, rows, |rows|, product);
    UpsertsAreAFold(s.products, AllProducts(shop, rows, |rows|), product, PRODUCT_COLUMNS, c);
  }

  /** The first lines with a product, invoice by invoice. */
  function LinesWith(rows: seq<Row>, n: nat, product: Value, shop: Shop): seq<Item>
    requires n <= |rows|
  {
    if n == 0 then []
    else match FirstWith(shop, rows[n - 1].items, product)
      case None => LinesWith(rows, n - 1, product, shop)
      case Some(line) => LinesWith(rows, n - 1, product, shop) + [line]
  }

  lemma {:induction false} HistoryIsOfLines(shop: Shop, rows: seq<Row>, n: nat, product: Value)
    requires n <= |rows|
    ensures var lines, history := LinesWith(rows, n, product, shop), ProductHistory(shop, rows, n, product);
      |lines| == |history| && forall k :: 0 <= k < |lines| ==> history[k] == shop.supply(lines[k])
  {
    if n > 0 { HistoryIsOfLines(shop, rows, n - 1, product); }
  }

  /** The last line whose description is not null. */
  ghost predicate LastNaming(lines: seq<Item>, k: nat) {
    && k < |lines| && !ProductName(lines[k]).Null?
    && forall i :: k < i < |lines| ==> ProductName(lines[i]).Null?
  }

  lemma NameColumn(line: Item, upper: string -> string)
    ensures Get(ProductSupply(line, upper).merged, "product_name") == ProductName(line)
  {
  }

  lemma NameIsTheLastGiven(lines: seq<Item>, history: seq<Supply>, upper: string -> string, was: Value, v: Value)
    requires |lines| == |history|
    requires forall k :: 0 <= k < |lines| ==> history[k] == ProductSupply(lines[k], upper)
    requires LastNonNull(history, "product_name", was, v)
    ensures (exists k: nat :: LastNaming(lines, k) && v == ProductName(lines[k]))
            || (v == was && forall k :: 0 <= k < |lines| ==> ProductName(lines[k]).Null?)
  {
    forall k | 0 <= k < |lines| ensures Get(history[k].merged, "product_name") == ProductName(lines[k]) {
      NameColumn(lines[k], upper);
    }
    if k: nat :| k < |history| && v == Get(history[k].merged, "product_name") && !v.Null?
                 && forall i :: k < i < |history| ==> Get(history[i].merged, "product_name").Null? {
      assert LastNaming(lines, k);
    }
  }

  lemma ProductNameIsAColumn()
    ensures "product_name" in PRODUCT_COLUMNS
  {
  }

  function NameIn(t: Upserted, product: Value): Value {
    if product in t then Get(t[product].merged, "product_name") else Null
  }

  /** Over any run of commits a product's stored name is what the last of its first lines with
      a description that is not null says, a missing one saying the empty text; it is kept
      exactly if all of them say null. */
  lemma StoredProductName(sch: Schema, upper: string -> string, s: Store, rows: seq<Row>, product: Value)
    requires WellFormed(s) && !Falsy(product)
    ensures var lines := LinesWith(rows, |rows|, product, ShopOf(sch, upper));
      var name := NameIn(ApplyRows(ShopOf(sch, upper), s, rows).products, product);
      || (exists k: nat :: LastNaming(lines, k) && name == ProductName(lines[k]))
      || (name == NameIn(s.products, product) && forall k :: 0 <= k < |lines| ==> ProductName(lines[k]).Null?)
  {
    var shop := ShopOf(sch, upper);
    var lines, history := LinesWith(rows, |rows|, product, shop), ProductHistory(shop, rows, |rows|, product);
    ShopIsOrderly(sch, upper);
    ProductNameIsAColumn();
    ProductsAreTheLastNonNull(shop, s, rows, product, "product_name");
    HistoryIsOfLines(shop, rows, |rows|, product);
    if product in s.products || history != [] {
      NameIsTheLastGiven(lines, history, upper, NameIn(s.products, product),
                         NameIn(ApplyRows(shop, s, rows).products, product));
    }
  }

  /** It is blanked exactly if that last line lacks a description, or has an empty one. */
  lemma NameBlankedExactly(sch: Schema, upper: string -> string, s: Store, rows: seq<Row>, product: Value, k: nat)
    requires WellFormed(s) && !Falsy(product)
    requires LastNaming(LinesWith(rows, |rows|, product, ShopOf(sch, upper)), k)
    ensures var line := LinesWith(rows, |rows|, product, ShopOf(sch, upper))[k];
      NameIn(ApplyRows(ShopOf(sch, upper), s, rows).products, product) == Text("")
      <==> "description" !in line.fields || line.fields["description"] == Text("")
  {
    StoredProductName(sch, upper, s, rows, product);
  }

  /** The name column is never kept: a line without a description supplies the empty text,
      which is not null, and so blanks the product's stored name. */
  lemma MissingDescriptionBlanksTheName(t: Upserted, item: Item, upper: string -> string)
    requires "description" !in item.fields
    requires Product(item) in t && "product_name" in t[Product(item)].merged
    ensures Get(Upsert(t, ProductSupply(item, upper))[Product(item)].merged, "product_name") == Text("")
  {
    assert "product_name" in PRODUCT_COLUMNS;
    assert Get(ProductSupply(item, upper).merged, "product_name") == Text("");
  }
}
