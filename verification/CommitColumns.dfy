/**
 What commits leave in the tables, in the columns of the service itself: the counterparty of
 an invoice becomes a customer, the first line with a product updates the product.
 */
module CommitColumns {
  import opened Options
  import opened EditValidator
  import opened PyText
  import opened Tables
  import opened RecordCreator
  import opened CommitTheorems
  import Filters

  /** What Python takes for true. */
  ghost predicate Truthy(v: Value) {
    (v.Text? && v.s != "") || (v.Number? && v.n != 0.0) || (v.Other? && v.truthy)
  }

  lemma TruthyIsNotFalsy(v: Value)
    ensures Truthy(v) <==> !Falsy(v)
  {
  }

  // --------------------------------------------------------------------- customers

  /** A missing direction counts as outbound. */
  ghost predicate Outbound(row: Row) {
    "direction" !in row.fields || row.fields["direction"] == Text("OUTBOUND")
  }

  /** The other party's value: the buyer's if the invoice goes out, the seller's if it comes in. */
  ghost function OfParty(row: Row, buyer: string, seller: string): Value {
    Get(row.fields, if Outbound(row) then buyer else seller)
  }

  ghost function WithTin(tin: Value): Row -> bool {
    (row: Row) => OfParty(row, "buyer_tin", "seller_tin") == tin
  }

  /** The customer columns under COALESCE, and where they come from. */
  ghost predicate PartyColumn(c: string, buyer: string, seller: string) {
    || (c == "name" && buyer == "buyer_name" && seller == "seller_name")
    || (c == "address" && buyer == "buyer_address" && seller == "seller_address")
    || (c == "city" && buyer == "buyer_city" && seller == "seller_city")
    || (c == "state_code" && buyer == "buyer_state_code" && seller == "seller_state_code")
    || (c == "country_code" && buyer == "buyer_country_code" && seller == "seller_country_code")
    || (c == "lga_code" && buyer == "buyer_lga_code" && seller == "seller_lga_code")
    || (c == "postal_code" && buyer == "buyer_postal_code" && seller == "seller_postal_code")
  }

  lemma ColumnIsOne(c: string, buyer: string, seller: string)
    requires PartyColumn(c, buyer, seller)
    ensures c in CUSTOMER_COLUMNS
  {
  }

  lemma PartyColumnIs(row: Row, c: string, buyer: string, seller: string)
    requires PartyColumn(c, buyer, seller)
    ensures PartyValue(row, c) == OfParty(row, buyer, seller)
  {
    assert "buyer_" + c == buyer && "seller_" + c == seller;
  }

  lemma TinIs(row: Row)
    ensures Tin(row) == OfParty(row, "buyer_tin", "seller_tin")
  {
    assert "buyer_" + "tin" == "buyer_tin" && "seller_" + "tin" == "seller_tin";
  }

  lemma {:induction false} RowsWithTin(rows: seq<Row>, n: nat, tin: Value)
    requires n <= |rows|
    ensures RowsWith(rows, n, tin) == Filters.Filtered(rows[..n], WithTin(tin))
  {
    if n > 0 {
      RowsWithTin(rows, n - 1, tin);
      TinIs(rows[n - 1]);
      assert rows[..n] == rows[..n - 1] + [rows[n - 1]];
      Filters.FilteredSnoc(rows[..n - 1], WithTin(tin), rows[n - 1]);
    }
  }

  /** The last value that is not null, or what was there before. */
  ghost predicate LastOf<T(!new)>(xs: seq<T>, value: T -> Value, was: Value, v: Value) {
    || (exists k :: 0 <= k < |xs| && v == value(xs[k]) && !v.Null?
                    && forall i :: k < i < |xs| ==> value(xs[i]).Null?)
    || (v == was && forall i :: 0 <= i < |xs| ==> value(xs[i]).Null?)
  }

  ghost function OldColumn(t: Upserted, key: Value, c: string): Value {
    if key in t then Get(t[key].merged, c) else Null
  }

  lemma SuppliedIsLast(own: seq<Row>, history: seq<Supply>, upper: string -> string, c: string, buyer: string,
                       seller: string, was: Value, v: Value)
    requires PartyColumn(c, buyer, seller) && |own| == |history|
    requires forall k :: 0 <= k < |own| ==> history[k] == CustomerSupply(own[k], upper)
    requires LastNonNull(history, c, was, v)
    ensures LastOf(own, (row: Row) => OfParty(row, buyer, seller), was, v)
  {
    forall k | 0 <= k < |own| ensures Get(history[k].merged, c) == OfParty(own[k], buyer, seller) {
      ColumnIsOne(c, buyer, seller);
      PartyColumnIs(own[k], c, buyer, seller);
      CustomerColumn(own[k], upper, c);
    }
    if k :| 0 <= k < |history| && v == Get(history[k].merged, c) && !v.Null?
            && forall i :: k < i < |history| ==> Get(history[i].merged, c).Null? {
      assert v == OfParty(own[k], buyer, seller);
    }
  }

  lemma SuppliesOfRows(sch: Schema, upper: string -> string, rows: seq<Row>, tin: Value)
    requires Truthy(tin)
    ensures var own, history := Filters.Filtered(rows, WithTin(tin)),
                                CustomerHistory(ShopOf(sch, upper), rows, |rows|, tin);
      |own| == |history| && forall k :: 0 <= k < |own| ==> history[k] == CustomerSupply(own[k], upper)
  {
    HistoryIsOfRows(sch, upper, rows, |rows|, tin);
    RowsWithTin(rows, |rows|, tin);
    assert rows[..|rows|] == rows;
  }

  /** After any run of commits there is a customer under a TIN exactly if there was one or it
      is the TIN of some row's other party; no tenant becomes a customer by its own invoices.
      Each column is the last one not null that the rows with that other party give for it. */
  lemma StoredCounterparty(sch: Schema, upper: string -> string, s: Store, rows: seq<Row>, tin: Value, c: string,
                           buyer: string, seller: string)
    requires WellFormed(s) && Truthy(tin) && PartyColumn(c, buyer, seller)
    ensures var own, now := Filters.Filtered(rows, WithTin(tin)), ApplyRows(ShopOf(sch, upper), s, rows).customers;
      && (tin in now <==> tin in s.customers || own != [])
      && (tin in now ==>
            LastOf(own, (row: Row) => OfParty(row, buyer, seller), OldColumn(s.customers, tin, c),
                   OldColumn(now, tin, c)))
  {
    var shop := ShopOf(sch, upper);
    ShopIsOrderly(sch, upper);
    ColumnIsOne(c, buyer, seller);
    CustomersAreTheLastNonNull(shop, s, rows, tin, c);
    SuppliesOfRows(sch, upper, rows, tin);
    var now := ApplyRows(shop, s, rows).customers;
    if tin in now {
      SuppliedIsLast(Filters.Filtered(rows, WithTin(tin)), CustomerHistory(shop, rows, |rows|, tin), upper, c, buyer,
          seller, OldColumn(s.customers, tin, c), OldColumn(now, tin, c));
    }
  }

  lemma {:induction false} FalsyTinsSupplyNothing(shop: Shop, rows: seq<Row>, n: nat, tin: Value)
    requires n <= |rows| && Falsy(tin)
    ensures CustomerHistory(shop, rows, n, tin) == []
  {
    if n > 0 { FalsyTinsSupplyNothing(shop, rows, n - 1, tin); }
  }

  /** A party without a TIN is no customer. */
  lemma NoCustomerWithoutTin(sch: Schema, upper: string -> string, s: Store, rows: seq<Row>, tin: Value)
    requires WellFormed(s) && !Truthy(tin)
    ensures tin in ApplyRows(ShopOf(sch, upper), s, rows).customers <==> tin in s.customers
  {
    ShopIsOrderly(sch, upper);
    ColumnIsOne("name", "buyer_name", "seller_name");
    CustomersAreTheLastNonNull(ShopOf(sch, upper), s, rows, tin, "name");
    FalsyTinsSupplyNothing(ShopOf(sch, upper), rows, |rows|, tin);
  }

  /** What is set when a customer is created, and never after: by the first row with it. */
  lemma NewCounterparty(sch: Schema, upper: string -> string, s: Store, rows: seq<Row>, tin: Value)
    requires WellFormed(s) && Truthy(tin) && tin !in s.customers && Filters.Filtered(rows, WithTin(tin)) != []
    ensures var first := Filters.Filtered(rows, WithTin(tin))[0];
      var now := ApplyRows(ShopOf(sch, upper), s, rows).customers;
      tin in now && CreatedBy(now[tin].fixed, first, tin, upper)
  {
    var shop := ShopOf(sch, upper);
    var first := Filters.Filtered(rows, WithTin(tin))[0];
    ShopIsOrderly(sch, upper);
    ColumnIsOne("name", "buyer_name", "seller_name");
    CustomersAreTheLastNonNull(shop, s, rows, tin, "name");
    SuppliesOfRows(sch, upper, rows, tin);
    assert CustomerHistory(shop, rows, |rows|, tin)[0] == CustomerSupply(first, upper);
    Filters.FilteredMembers(rows, WithTin(tin), first);
    FixedColumns(first, tin, upper);
  }

  /** The columns set on creation: its id, its normalised name and its type. */
  ghost predicate CreatedBy(fixed: Fields, row: Row, tin: Value, upper: string -> string) {
    var id := Get(row.fields, "counterparty_customer_id");
    var name := OfParty(row, "buyer_name", "seller_name");
    && Get(fixed, "customer_id") == (if Truthy(id) then id else Text("CUST-" + Shown(tin)))
    && Get(fixed, "customer_name_normalized")
       == (if name.Text? && name.s != "" then Text(Strip(upper(name.s))) else Null)
    && Get(fixed, "customer_type")
       == if "transaction_type" in row.fields then row.fields["transaction_type"] else Text("B2B")
  }

  lemma FixedColumns(row: Row, tin: Value, upper: string -> string)
    requires OfParty(row, "buyer_tin", "seller_tin") == tin
    ensures CreatedBy(CustomerSupply(row, upper).fixed, row, tin, upper)
  {
    TinIs(row);
    PartyColumnIs(row, "name", "buyer_name", "seller_name");
    TruthyIsNotFalsy(Get(row.fields, "counterparty_customer_id"));
    assert |"customer_id"| == 11 && |"customer_name_normalized"| == 24 && |"customer_type"| == 13;
  }

  // ---------------------------------------------------------------------- products

  ghost function WithProduct(product: Value): Item -> bool {
    (item: Item) => Get(item.fields, "product_id") == product
  }

  /** A row's first line with a product; the others do not count. */
  ghost function FirstLine(row: Row, product: Value): Option<Item> {
    var lines := Filters.Filtered(row.items, WithProduct(product));
    if lines == [] then None else Some(lines[0])
  }

  ghost function FirstLines(rows: seq<Row>, product: Value): seq<Item> {
    if rows == [] then []
    else
      FirstLines(rows[..|rows| - 1], product)
      + match FirstLine(rows[|rows| - 1], product) case None => [] case Some(line) => [line]
  }

  lemma {:induction false} FirstWithinIs(sch: Schema, upper: string -> string, items: seq<Item>, n: nat, product: Value)
    requires n <= |items|
    ensures var lines := Filters.Filtered(items[..n], WithProduct(product));
      FirstWithin(ShopOf(sch, upper), items, n, product) == if lines == [] then None else Some(lines[0])
  {
    if n > 0 {
      FirstWithinIs(sch, upper, items, n - 1, product);
      assert items[..n] == items[..n - 1] + [items[n - 1]];
      Filters.FilteredSnoc(items[..n - 1], WithProduct(product), items[n - 1]);
    }
  }

  lemma FirstLineIs(sch: Schema, upper: string -> string, row: Row, product: Value)
    ensures FirstWith(ShopOf(sch, upper), row.items, product) == FirstLine(row, product)
  {
    FirstWithinIs(sch, upper, row.items, |row.items|, product);
    assert row.items[..|row.items|] == row.items;
  }

  lemma {:induction false} LinesAre(sch: Schema, upper: string -> string, rows: seq<Row>, n: nat, product: Value)
    requires n <= |rows|
    ensures LinesWith(rows, n, product, ShopOf(sch, upper)) == FirstLines(rows[..n], product)
  {
    if n > 0 {
      LinesAre(sch, upper, rows, n - 1, product);
      FirstLineIs(sch, upper, rows[n - 1], product);
      assert rows[..n][..n - 1] == rows[..n - 1];
    }
  }

  /** The product columns under COALESCE. */
  ghost predicate ProductColumn(c: string) {
    || c == "product_name" || c == "hsn_code" || c == "service_code" || c == "product_category"
    || c == "service_category" || c == "vat_treatment"
  }

  /** What a line gives for one; a missing description is the empty text, not null. */
  ghost function LineValue(c: string): Item -> Value {
    (line: Item) =>
      if c != "product_name" then Get(line.fields, c)
      else if "description" in line.fields then line.fields["description"]
      else Text("")
  }

  lemma ProductColumnIsOne(c: string)
    requires ProductColumn(c)
    ensures c in PRODUCT_COLUMNS
  {
  }

  lemma LineValueIs(c: string, line: Item, upper: string -> string)
    requires ProductColumn(c)
    ensures Get(ProductSupply(line, upper).merged, c) == LineValue(c)(line)
  {
    ProductColumnIsOne(c);
  }

  lemma SuppliesOfFirstLines(sch: Schema, upper: string -> string, rows: seq<Row>, product: Value)
    ensures var own, history := FirstLines(rows, product), ProductHistory(ShopOf(sch, upper), rows, |rows|, product);
      |own| == |history| && forall k :: 0 <= k < |own| ==> history[k] == ProductSupply(own[k], upper)
  {
    HistoryIsOfLines(ShopOf(sch, upper), rows, |rows|, product);
    LinesAre(sch, upper, rows, |rows|, product);
    assert rows[..|rows|] == rows;
  }

  lemma LineSuppliedIsLast(own: seq<Item>, history: seq<Supply>, upper: string -> string, c: string, was: Value,
                           v: Value)
    requires ProductColumn(c) && |own| == |history|
    requires forall k :: 0 <= k < |own| ==> history[k] == ProductSupply(own[k], upper)
    requires LastNonNull(history, c, was, v)
    ensures LastOf(own, LineValue(c), was, v)
  {
    forall k | 0 <= k < |own| ensures Get(history[k].merged, c) == LineValue(c)(own[k]) {
      LineValueIs(c, own[k], upper);
    }
    if k :| 0 <= k < |history| && v == Get(history[k].merged, c) && !v.Null?
            && forall i :: k < i < |history| ==> Get(history[i].merged, c).Null? {
      assert v == LineValue(c)(own[k]);
    }
  }

  /** After any run of commits there is a product exactly if there was one or some row has a
      line with its id. Each column is the last one not null that the first lines with it give,
      and the invoice counter grows by one for every invoice with it, but for the one that
      created it. */
  lemma StoredProduct(sch: Schema, upper: string -> string, s: Store, rows: seq<Row>, product: Value, c: string)
    requires WellFormed(s) && Truthy(product) && ProductColumn(c)
    ensures var own, now := FirstLines(rows, product), ApplyRows(ShopOf(sch, upper), s, rows).products;
      && (product in now <==> product in s.products || own != [])
      && (product in now ==>
            && LastOf(own, LineValue(c), OldColumn(s.products, product, c), OldColumn(now, product, c))
            && now[product].updates
               == if product in s.products then s.products[product].updates + |own| else |own| - 1)
  {
    var shop := ShopOf(sch, upper);
    ShopIsOrderly(sch, upper);
    ProductColumnIsOne(c);
    ProductsAreTheLastNonNull(shop, s, rows, product, c);
    SuppliesOfFirstLines(sch, upper, rows, product);
    var now := ApplyRows(shop, s, rows).products;
    if product in now {
      LineSuppliedIsLast(FirstLines(rows, product), ProductHistory(shop, rows, |rows|, product), upper, c,
          OldColumn(s.products, product, c), OldColumn(now, product, c));
    }
  }

  /** The columns set when a product is created. */
  ghost predicate ProductCreatedBy(fixed: Fields, line: Item, product: Value, upper: string -> string) {
    var name, id := LineValue("product_name")(line), Shown(product);
    && Get(fixed, "customer_sku")
       == (if "customer_sku" in line.fields then line.fields["customer_sku"]
           else Text(if |id| > 16 then id[..16] else id))
    && Get(fixed, "product_name_normalized")
       == (if name.Text? && name.s != "" then Text(Strip(upper(name.s))) else Null)
    && Get(fixed, "description") == Get(line.fields, "full_description")
    && Get(fixed, "unit_of_measure") == Get(line.fields, "unit_of_measure")
    && Get(fixed, "type") == Text(if Truthy(Get(line.fields, "service_code")) then "SERVICE" else "GOODS")
    && Get(fixed, "vat_rate") == if "vat_rate" in line.fields then line.fields["vat_rate"] else Number(7.5, "7.5")
  }

  lemma ProductFixedColumns(line: Item, product: Value, upper: string -> string)
    requires Get(line.fields, "product_id") == product
    ensures ProductCreatedBy(ProductSupply(line, upper).fixed, line, product, upper)
  {
    TruthyIsNotFalsy(Get(line.fields, "service_code"));
    assert |"customer_sku"| == 12 && |"product_name_normalized"| == 23 && |"description"| == 11
        && |"unit_of_measure"| == 15 && |"type"| == 4 && |"vat_rate"| == 8;
  }

  /** The classification columns, which every line overwrites. */
  ghost predicate ClassifiedBy(latest: Fields, line: Item) {
    && Get(latest, "classification_confidence")
       == (if "classification_confidence" in line.fields then line.fields["classification_confidence"]
           else Number(0.0, "0"))
    && Get(latest, "classification_source") == Get(line.fields, "classification_source")
  }

  lemma ClassifiedColumns(line: Item, upper: string -> string)
    ensures ClassifiedBy(ProductSupply(line, upper).latest, line)
  {
    assert |"classification_confidence"| == 25 && |"classification_source"| == 21;
  }

  lemma {:induction false} FirstLinesHave(rows: seq<Row>, product: Value)
    ensures forall line :: line in FirstLines(rows, product) ==> Get(line.fields, "product_id") == product
  {
    if rows != [] {
      FirstLinesHave(rows[..|rows| - 1], product);
      var row := rows[|rows| - 1];
      if FirstLine(row, product).Some? {
        Filters.FilteredMembers(row.items, WithProduct(product), FirstLine(row, product).value);
      }
    }
  }

  /** A product is created by the first line with it, and what that line set then stays. */
  lemma NewProduct(sch: Schema, upper: string -> string, s: Store, rows: seq<Row>, product: Value)
    requires WellFormed(s) && Truthy(product) && FirstLines(rows, product) != []
    ensures var now := ApplyRows(ShopOf(sch, upper), s, rows).products;
      && product in now
      && (product in s.products ==> now[product].fixed == s.products[product].fixed)
      && (product !in s.products ==> ProductCreatedBy(now[product].fixed, FirstLines(rows, product)[0], product, upper))
  {
    var shop := ShopOf(sch, upper);
    var first := FirstLines(rows, product)[0];
    ShopIsOrderly(sch, upper);
    ProductColumnIsOne("hsn_code");
    ProductsAreTheLastNonNull(shop, s, rows, product, "hsn_code");
    SuppliesOfFirstLines(sch, upper, rows, product);
    assert ProductHistory(shop, rows, |rows|, product)[0] == ProductSupply(first, upper);
    FirstLinesHave(rows, product);
    assert first in FirstLines(rows, product);
    ProductFixedColumns(first, product, upper);
  }

  /** Its classification is that of the last line, whatever the lines before said. */
  lemma LastClassification(sch: Schema, upper: string -> string, s: Store, rows: seq<Row>, product: Value)
    requires WellFormed(s) && Truthy(product) && FirstLines(rows, product) != []
    ensures var own, now := FirstLines(rows, product), ApplyRows(ShopOf(sch, upper), s, rows).products;
      product in now && ClassifiedBy(now[product].latest, own[|own| - 1])
  {
    var shop, own := ShopOf(sch, upper), FirstLines(rows, product);
    ShopIsOrderly(sch, upper);
    SuppliesOfFirstLines(sch, upper, rows, product);
    LatestIsTheLast(shop, s, rows, product);
    assert ProductHistory(shop, rows, |rows|, product)[|own| - 1] == ProductSupply(own[|own| - 1], upper);
    ClassifiedColumns(own[|own| - 1], upper);
  }

  lemma LatestIsTheLast(shop: Shop, s: Store, rows: seq<Row>, product: Value)
    requires Orderly(shop) && WellFormed(s) && !Falsy(product)
    requires ProductHistory(shop, rows, |rows|, product) != []
    ensures var own, now := ProductHistory(shop, rows, |rows|, product), ApplyRows(shop, s, rows).products;
      product in now && now[product].latest == own[|own| - 1].latest
  {
    CommitsAreFolds(shop, s, rows, |rows|);
    ProductSuppliesAre(shop, rows, |rows|, product);
    ProductHistoryIs(shop, rows, |rows|, product);
    ProductColumnIsOne("hsn_code");
    UpsertsAreAFold(s.products, AllProducts(shop, rows, |rows|), product, PRODUCT_COLUMNS, "hsn_code");
  }

  // ------------------------------------------------------------------------- names

  ghost function CountOf(t: Counters, product: Value, name: string): nat {
    if (product, name) in t then t[(product, name)] else 0
  }

  /** The lines whose description, normalised, is this name. */
  ghost function WithName(name: string, upper: string -> string): Item -> bool {
    (line: Item) =>
      "description" in line.fields && line.fields["description"].Text? && line.fields["description"].s != ""
      && Strip(upper(line.fields["description"].s)) == name
  }

  lemma {:induction false} BumpsCount(t: Counters, vs: seq<Variant>, product: Value, name: string)
    ensures CountOf(BumpAll(t, vs), product, name)
            == CountOf(t, product, name) + |Filters.Filtered(vs, (v: Variant) => v == (product, name))|
  {
    if vs != [] { BumpsCount(t, vs[..|vs| - 1], product, name); }
  }

  lemma NamedIs(sch: Schema, upper: string -> string, line: Item, name: string)
    requires name != ""
    ensures var shop := ShopOf(sch, upper);
      WithName(name, upper)(line) <==> Named(shop, line) && NameOf(shop, line).1 == name
  {
  }

  ghost function Is(v: Variant): Variant -> bool {
    (w: Variant) => w == v
  }

  /** A row counts a name of a product once, if its first line with the product has it. */
  lemma {:induction false} NamesOfLines(sch: Schema, upper: string -> string, items: seq<Item>, n: nat, product: Value,
                                        name: string)
    requires n <= |items| && !Falsy(product) && name != ""
    ensures var shop := ShopOf(sch, upper);
      var line := FirstWithin(shop, items, n, product);
      |Filters.Filtered(LineNames(shop, items, n), Is((product, name)))|
      == if line.Some? && WithName(name, upper)(line.value) then 1 else 0
  {
    if n > 0 {
      var shop, line := ShopOf(sch, upper), items[n - 1];
      NamesOfLines(sch, upper, items, n - 1, product, name);
      FreshIsFirst(shop, items, n, product);
      NamedIs(sch, upper, line, name);
      if Named(shop, line) {
        Filters.FilteredSnoc(LineNames(shop, items, n - 1), Is((product, name)), NameOf(shop, line));
      }
    }
  }

  lemma {:induction false} NamesOfRows(sch: Schema, upper: string -> string, rows: seq<Row>, n: nat, product: Value,
                                       name: string)
    requires n <= |rows| && !Falsy(product) && name != ""
    ensures |Filters.Filtered(AllNames(ShopOf(sch, upper), rows, n), Is((product, name)))|
            == |Filters.Filtered(FirstLines(rows[..n], product), WithName(name, upper))|
  {
    if n > 0 {
      var shop, row := ShopOf(sch, upper), rows[n - 1];
      NamesOfRows(sch, upper, rows, n - 1, product, name);
      NamesOfLines(sch, upper, row.items, |row.items|, product, name);
      Filters.FilteredConcat(AllNames(shop, rows, n - 1), LineNames(shop, row.items, |row.items|), Is((product, name)));
      FirstLineIs(sch, upper, row, product);
      assert rows[..n][..n - 1] == rows[..n - 1];
      if FirstLine(row, product).Some? {
        Filters.FilteredSnoc(FirstLines(rows[..n - 1], product), WithName(name, upper), FirstLine(row, product).value);
      } else {
        assert FirstLines(rows[..n], product) == FirstLines(rows[..n - 1], product);
      }
    }
  }

  /** Over any run of commits a name of a product is counted once for every invoice whose
      first line with the product has that name, stripped and in upper case. */
  lemma NamesAreCountedExactly(sch: Schema, upper: string -> string, s: Store, rows: seq<Row>, product: Value,
                               name: string)
    requires Truthy(product) && name != ""
    ensures CountOf(ApplyRows(ShopOf(sch, upper), s, rows).variants, product, name)
            == CountOf(s.variants, product, name)
               + |Filters.Filtered(FirstLines(rows, product), WithName(name, upper))|
  {
    CommitsAreFolds(ShopOf(sch, upper), s, rows, |rows|);
    BumpsCount(s.variants, AllNames(ShopOf(sch, upper), rows, |rows|), product, name);
    NamesOfRows(sch, upper, rows, |rows|, product, name);
    assert rows[..|rows|] == rows;
  }

  // ----------------------------------------------------- when a commit goes through

  /** A name that can be upper-cased: a text, or nothing. */
  ghost predicate Readable(v: Value) {
    v.Text? || !Truthy(v)
  }

  /** What the code asks of a row before it raises. */
  ghost predicate Acceptable(row: Row) {
    && "invoice_id" in row.fields && "invoice_number" in row.fields
    && (Truthy(OfParty(row, "buyer_tin", "seller_tin")) ==> Readable(OfParty(row, "buyer_name", "seller_name")))
    && forall product :: Truthy(product) && FirstLine(row, product).Some? ==>
         product.Text? && Readable(LineValue("product_name")(FirstLine(row, product).value))
  }

  lemma FreshHasProduct(sch: Schema, upper: string -> string, row: Row, k: nat)
    requires k < |row.items|
    ensures var shop, product := ShopOf(sch, upper), Get(row.items[k].fields, "product_id");
      Fresh(shop, row.items, k) ==> Truthy(product) && FirstLine(row, product) == Some(row.items[k])
  {
    var shop, product := ShopOf(sch, upper), Get(row.items[k].fields, "product_id");
    if Fresh(shop, row.items, k) {
      FirstWithNone(shop, row.items, k, product);
      FirstStays(shop, row.items, k + 1, |row.items|, product);
      FirstLineIs(sch, upper, row, product);
    }
  }

  lemma {:induction false} FirstStays(shop: Shop, items: seq<Item>, k: nat, n: nat, product: Value)
    requires k <= n <= |items| && FirstWithin(shop, items, k, product).Some?
    ensures FirstWithin(shop, items, n, product) == FirstWithin(shop, items, k, product)
  {
    if k < n { FirstStays(shop, items, k, n - 1, product); }
  }

  lemma {:induction false} FirstIsFresh(shop: Shop, items: seq<Item>, n: nat, product: Value) returns (k: nat)
    requires n <= |items| && !Falsy(product) && FirstWithin(shop, items, n, product).Some?
    ensures k < n && Fresh(shop, items, k) && shop.product(items[k]) == product
    ensures FirstWithin(shop, items, n, product) == Some(items[k])
  {
    if FirstWithin(shop, items, n - 1, product).Some? {
      k := FirstIsFresh(shop, items, n - 1, product);
    } else {
      k := n - 1;
      FreshIsFirst(shop, items, n, product);
    }
  }

  /** A row raises nothing exactly if it has both ids, and the names to be normalised of its
      other party and of its first lines are texts or empty, and their product ids texts. */
  lemma RowOkExactly(sch: Schema, upper: string -> string, row: Row)
    ensures RowOk(ShopOf(sch, upper), row) <==> Acceptable(row)
  {
    var shop := ShopOf(sch, upper);
    TinIs(row);
    PartyColumnIs(row, "name", "buyer_name", "seller_name");
    if RowOk(shop, row) {
      forall product | Truthy(product) && FirstLine(row, product).Some?
        ensures product.Text? && Readable(LineValue("product_name")(FirstLine(row, product).value))
      {
        FirstLineIs(sch, upper, row, product);
        var k := FirstIsFresh(shop, row.items, |row.items|, product);
        assert shop.lineReads(row.items[k]);
      }
    }
    if Acceptable(row) {
      forall k | 0 <= k < |row.items| && Fresh(shop, row.items, k) ensures shop.lineReads(row.items[k]) {
        FreshHasProduct(sch, upper, row, k);
      }
    }
  }

  /** What a commit counts: invoices and line items as many as there are, customers for the
      rows whose other party has a TIN, products for the first lines. */
  lemma {:induction false} CountsAre(sch: Schema, upper: string -> string, rows: seq<Row>, n: nat)
    requires n <= |rows|
    ensures var c := CountRows(ShopOf(sch, upper), rows, n);
      && c.invoices == n
      && c.lineItems == |AllItems(ShopOf(sch, upper), rows, n)|
      && c.customersCreated == |AllCustomers(ShopOf(sch, upper), rows, n)|
      && c.inventoryCreated == |AllProducts(ShopOf(sch, upper), rows, n)|
  {
    if n > 0 {
      CountsAre(sch, upper, rows, n - 1);
      FreshCountIs(ShopOf(sch, upper), rows[n - 1].items, |rows[n - 1].items|);
    }
  }

  lemma {:induction false} FreshCountIs(shop: Shop, items: seq<Item>, n: nat)
    requires n <= |items|
    ensures FreshCount(shop, items, n) == |LineSupplies(shop, items, n)|
  {
    if n > 0 { FreshCountIs(shop, items, n - 1); }
  }
}
