/**
 The diff engine of the finalize gate: which user edits to a preview are legal, and what
 the accepted ones amount to.
 */
module EditValidator {
  import opened Options
  import opened PyText
  import opened Provenance
  import Bags

  // ------------------------------------------------------------------ values

  /** A Python value as the diff sees it: `shown` is its `str()`, `reading` its `float()`
      if that succeeds. A bool is a Number, as it is for isinstance. */
  datatype Value = Null | Text(s: string) | Number(n: real, shown: string)
                 | Other(shown: string, truthy: bool, reading: Option<real>)

  function Shown(v: Value): string {
    match v
    case Null => ""
    case Text(s) => s
    case Number(_, shown) => shown
    case Other(shown, _, _) => shown
  }

  /** `_values_equal`: null counts as the empty text, numbers compare as numbers, anything
      else by its text. */
  predicate ValuesEqual(a: Value, b: Value) {
    if a.Number? && b.Number? then a.n == b.n else Shown(a) == Shown(b)
  }

  lemma ValuesEqualIsNoEquivalence()
    ensures forall a :: ValuesEqual(a, a)
    ensures forall a, b :: ValuesEqual(a, b) ==> ValuesEqual(b, a)
    ensures !forall a, b, c :: ValuesEqual(a, b) && ValuesEqual(b, c) ==> ValuesEqual(a, c)
  {
    var a, b, c := Number(1.0, "1.0"), Number(1.0, "1"), Text("1");
    assert ValuesEqual(a, b) && ValuesEqual(b, c);
    assert Shown(a)[1] == '.' && |Shown(c)| == 1;
    assert !ValuesEqual(a, c);
  }

  // -------------------------------------------------------------------- rows

  type Fields = map<string, Value>

  datatype Item = Item(fields: Fields, provenance: map<string, string>)

  datatype Row = Row(fields: Fields, items: seq<Item>, provenance: map<string, string>)

  function Get(f: Fields, key: string): Value {
    if key in f then f[key] else Null
  }

  function Lookup(p: map<string, string>, key: string): Option<string> {
    if key in p then Some(p[key]) else None
  }

  /** `float(v)`; reading a text as a number is Python's, so it is a parameter. */
  function AsFloat(v: Value, parse: string -> Option<real>): Option<real> {
    match v
    case Null => None
    case Text(s) => parse(s)
    case Number(n, _) => Some(n)
    case Other(_, _, reading) => reading
  }

  function Confidence(f: Fields, key: string, parse: string -> Option<real>): Option<real> {
    if key + "_confidence" in f then AsFloat(f[key + "_confidence"], parse)
    else if "classification_confidence" in f then AsFloat(f["classification_confidence"], parse)
    else None
  }

  // ---------------------------------------------------------------- verdicts

  datatype Reason = NeverEditable | TenantParty | NonEditableProvenance | NeverEditableItem | UnknownItemField

  datatype Verdict = Accept | Reject(reason: Reason)

  type NumberReader = string -> Option<real>

  function InvoiceVerdict(direction: string, parse: NumberReader, preview: Row, key: string): Verdict {
    var provenance := Lookup(preview.provenance, key);
    if key in NEVER_EDITABLE then Reject(NeverEditable)
    else if key in TenantFields(direction) then Reject(TenantParty)
    else if key in ALWAYS_EDITABLE then Accept
    else if IsFieldEditable(key, provenance, Confidence(preview.fields, key, parse), direction, false)
    then Accept
    else Reject(NonEditableProvenance)
  }

  function ItemVerdict(parse: NumberReader, preview: Item, key: string): Verdict {
    var provenance := Lookup(preview.provenance, key);
    if key in NEVER_EDITABLE_ITEM then Reject(NeverEditableItem)
    else if key in CLASSIFICATION then
      if IsFieldEditable(key, provenance, Confidence(preview.fields, key, parse), "OUTBOUND", true)
      then Accept
      else Reject(NonEditableProvenance)
    else Reject(UnknownItemField)
  }

  /** The diff tests the field sets in another order than the rule, and still says the same. */
  lemma VerdictIsTheRule(direction: string, parse: NumberReader, preview: Row, item: Item, key: string)
    ensures InvoiceVerdict(direction, parse, preview, key).Accept?
            <==> IsFieldEditable(key, Lookup(preview.provenance, key),
                                 Confidence(preview.fields, key, parse), direction, false)
    ensures ItemVerdict(parse, item, key).Accept?
            <==> IsFieldEditable(key, Lookup(item.provenance, key),
                                 Confidence(item.fields, key, parse), direction, true)
  {
    AlwaysEditableIsApart(key, direction);
  }

  /** What a submission is judged by. A verdict sees the preview and the key, never the
      submitted value. */
  datatype Rules = Rules(judgeInvoice: (Row, string) -> Verdict, judgeItem: (Item, string) -> Verdict,
                         counterparty: set<string>)

  /** The rules of the finalize gate for a direction. */
  function GateRules(direction: string, parse: NumberReader): Rules {
    Rules((preview, k) => InvoiceVerdict(direction, parse, preview, k),
          (preview, k) => ItemVerdict(parse, preview, k),
          UpgradeFields(direction))
  }

  // ----------------------------------------------------------------- results

  datatype Change = Change(field: string, oldValue: Value, newValue: Value, provenance: Option<string>,
                           invoice: nat, item: Option<nat>)

  datatype Violation =
    | RowCount(preview: nat, submitted: nat)
    | ItemCount(invoice: nat, preview: nat, submitted: nat)
    | Field(field: string, provenance: Option<string>, oldValue: Value, newValue: Value, reason: Reason,
            invoice: nat, item: Option<nat>)
    | Upgrade(invoice: nat, oldValue: Value, newValue: Value, missing: string)

  datatype Result = Result(isValid: bool, violations: seq<Violation>, accepted: seq<Change>, warnings: nat)

  /** One submitted dict against its preview: where it belongs and how its keys are judged. */
  datatype Comparison = Comparison(sub: Fields, prev: Fields, provenance: map<string, string>,
                                   skip: set<string>, judge: string -> Verdict, invoice: nat, item: Option<nat>)

  function OfInvoice(rules: Rules, i: nat, sub: Row, prev: Row): Comparison {
    Comparison(sub.fields, prev.fields, prev.provenance, SKIP_INVOICE, k => rules.judgeInvoice(prev, k), i, None)
  }

  function OfItem(rules: Rules, i: nat, j: nat, sub: Item, prev: Item): Comparison {
    Comparison(sub.fields, prev.fields, prev.provenance, SKIP_ITEM, k => rules.judgeItem(prev, k), i, Some(j))
  }

  predicate Differs(c: Comparison, k: string) {
    k !in c.skip && !ValuesEqual(Get(c.sub, k), Get(c.prev, k))
  }

  function DiffKeys(c: Comparison): set<string> {
    set k | k in c.sub.Keys + c.prev.Keys && Differs(c, k)
  }

  /** The record an accepted key leaves behind. */
  function ChangeAt(c: Comparison, k: string): Change {
    Change(k, Get(c.prev, k), Get(c.sub, k), Lookup(c.provenance, k), c.invoice, c.item)
  }

  function FaultAt(c: Comparison, k: string, reason: Reason): Violation {
    Field(k, Lookup(c.provenance, k), Get(c.prev, k), Get(c.sub, k), reason, c.invoice, c.item)
  }

  // What a comparison yields. Key order is Python's set order, so results are bags.

  function ChangesOf(c: Comparison, keys: set<string>): set<Change> {
    set k | k in keys && c.judge(k).Accept? :: ChangeAt(c, k)
  }

  function FaultsOf(c: Comparison, keys: set<string>): set<Violation> {
    set k | k in keys && c.judge(k).Reject? :: FaultAt(c, k, c.judge(k).reason)
  }

  function ChangeBag(c: Comparison): multiset<Change> {
    multiset(ChangesOf(c, DiffKeys(c)))
  }

  function FaultBag(c: Comparison): multiset<Violation> {
    multiset(FaultsOf(c, DiffKeys(c)))
  }

  function ChangeBags(cs: seq<Comparison>): seq<multiset<Change>> {
    seq(|cs|, k requires 0 <= k < |cs| => ChangeBag(cs[k]))
  }

  function FaultBags(cs: seq<Comparison>): seq<multiset<Violation>> {
    seq(|cs|, k requires 0 <= k < |cs| => FaultBag(cs[k]))
  }

  /** Line items are compared position by position, if there are equally many. */
  function ItemComparisons(rules: Rules, i: nat, sub: Row, prev: Row): seq<Comparison> {
    if |sub.items| != |prev.items| then []
    else seq(|sub.items|, j requires 0 <= j < |sub.items| == |prev.items| =>
               OfItem(rules, i, j, sub.items[j], prev.items[j]))
  }

  function RowComparisons(rules: Rules, i: nat, sub: Row, prev: Row): seq<Comparison> {
    [OfInvoice(rules, i, sub, prev)] + ItemComparisons(rules, i, sub, prev)
  }

  /** All comparisons made for the first n rows. */
  function Comparisons(rules: Rules, subs: seq<Row>, prevs: seq<Row>, n: nat): seq<Comparison>
    requires n <= |subs| && n <= |prevs|
  {
    if n == 0 then []
    else
      Comparisons(rules, subs, prevs, n - 1) + RowComparisons(rules, n - 1, subs[n - 1], prevs[n - 1])
  }

  // --------------------------------------------------- transaction type rule

  /** `not val or (isinstance(val, str) and not val.strip())`. */
  predicate Blank(v: Value) {
    match v
    case Null => true
    case Text(s) => s == "" || Strip(s) == ""
    case Number(n, _) => n == 0.0
    case Other(_, truthy, _) => !truthy
  }

  /** A text counts as blank exactly if it holds nothing but white space. */
  lemma BlankTexts(s: string)
    ensures Blank(Text(s)) <==> AllSpace(s)
  {
    StripsToNothing(s);
  }

  /** A submission that turns a B2C invoice into B2B or B2G. */
  predicate Upgrades(sub: Row, prev: Row) {
    && Get(prev.fields, "transaction_type") == Text("B2C")
    && Get(sub.fields, "transaction_type").Text?
    && Get(sub.fields, "transaction_type").s in B2B_B2G
  }

  function UpgradeFaults(rules: Rules, i: nat, sub: Row, prev: Row): set<Violation> {
    set f | f in rules.counterparty && Upgrades(sub, prev) && Blank(Get(sub.fields, f))
      :: Upgrade(i, Get(prev.fields, "transaction_type"), Get(sub.fields, "transaction_type"), f)
  }

  /** The violations of a row that are not about single fields. */
  function OtherFaults(rules: Rules, i: nat, sub: Row, prev: Row): multiset<Violation> {
    (if |sub.items| != |prev.items| then multiset{ItemCount(i, |prev.items|, |sub.items|)} else multiset{})
    + multiset(UpgradeFaults(rules, i, sub, prev))
  }

  function OtherBags(rules: Rules, subs: seq<Row>, prevs: seq<Row>, n: nat): seq<multiset<Violation>>
    requires n <= |subs| && n <= |prevs|
  {
    seq(n, i requires 0 <= i < n && n <= |subs| && n <= |prevs| => OtherFaults(rules, i, subs[i], prevs[i]))
  }

  function AllChanges(rules: Rules, subs: seq<Row>, prevs: seq<Row>, n: nat): multiset<Change>
    requires n <= |subs| && n <= |prevs|
  {
    Bags.Sum(ChangeBags(Comparisons(rules, subs, prevs, n)))
  }

  function FieldFaults(rules: Rules, subs: seq<Row>, prevs: seq<Row>, n: nat): multiset<Violation>
    requires n <= |subs| && n <= |prevs|
  {
    Bags.Sum(FaultBags(Comparisons(rules, subs, prevs, n)))
  }

  function AllFaults(rules: Rules, subs: seq<Row>, prevs: seq<Row>, n: nat): multiset<Violation>
    requires n <= |subs| && n <= |prevs|
  {
    FieldFaults(rules, subs, prevs, n) + Bags.Sum(OtherBags(rules, subs, prevs, n))
  }

  // ----------------------------------------------------------------- methods

  lemma OneMoreKey(c: Comparison, keys: set<string>, k: string)
    requires k !in keys
    ensures c.judge(k).Accept? ==>
              && multiset(ChangesOf(c, keys + {k})) == multiset(ChangesOf(c, keys)) + multiset{ChangeAt(c, k)}
              && FaultsOf(c, keys + {k}) == FaultsOf(c, keys)
    ensures c.judge(k).Reject? ==>
              && multiset(FaultsOf(c, keys + {k}))
                  == multiset(FaultsOf(c, keys)) + multiset{FaultAt(c, k, c.judge(k).reason)}
              && ChangesOf(c, keys + {k}) == ChangesOf(c, keys)
  {
    if c.judge(k).Accept? {
      assert ChangeAt(c, k) !in ChangesOf(c, keys);
      assert ChangesOf(c, keys + {k}) == ChangesOf(c, keys) + {ChangeAt(c, k)};
    } else {
      assert FaultAt(c, k, c.judge(k).reason) !in FaultsOf(c, keys);
      assert FaultsOf(c, keys + {k}) == FaultsOf(c, keys) + {FaultAt(c, k, c.judge(k).reason)};
    }
  }

  lemma OneLess(diff: set<string>, todo: set<string>, k: string)
    requires k in todo
    ensures k !in diff ==> diff - (todo - {k}) == diff - todo
    ensures k in diff ==> diff - (todo - {k}) == (diff - todo) + {k}
  {
  }

  /** The loop over the keys of both dicts. */
  method DiffFields(c: Comparison) returns (violations: seq<Violation>, accepted: seq<Change>)
    ensures multiset(accepted) == ChangeBag(c)
    ensures multiset(violations) == FaultBag(c)
  {
    violations, accepted := [], [];
    ghost var diff := DiffKeys(c);
    var todo := c.sub.Keys + c.prev.Keys;
    assert diff - todo == {};
    while todo != {}
      invariant todo <= c.sub.Keys + c.prev.Keys
      invariant multiset(accepted) == multiset(ChangesOf(c, diff - todo))
      invariant multiset(violations) == multiset(FaultsOf(c, diff - todo))
      decreases todo
    {
      var key :| key in todo;
      OneLess(diff, todo, key);
      if Differs(c, key) {
        OneMoreKey(c, diff - todo, key);
        match c.judge(key) {
          case Accept => accepted := accepted + [ChangeAt(c, key)];
          case Reject(reason) => violations := violations + [FaultAt(c, key, reason)];
        }
      }
      todo := todo - {key};
    }
    assert diff - todo == diff;
  }

  lemma BagOfConcat<T>(a: seq<T>, b: seq<T>)
    ensures multiset(a + b) == multiset(a) + multiset(b)
  {
  }

  lemma BagsConcat(a: seq<Comparison>, b: seq<Comparison>)
    ensures Bags.Sum(ChangeBags(a + b)) == Bags.Sum(ChangeBags(a)) + Bags.Sum(ChangeBags(b))
    ensures Bags.Sum(FaultBags(a + b)) == Bags.Sum(FaultBags(a)) + Bags.Sum(FaultBags(b))
  {
    assert ChangeBags(a + b) == ChangeBags(a) + ChangeBags(b);
    assert FaultBags(a + b) == FaultBags(a) + FaultBags(b);
    Bags.SumConcat(ChangeBags(a), ChangeBags(b));
    Bags.SumConcat(FaultBags(a), FaultBags(b));
  }

  lemma BagsOne(c: Comparison)
    ensures Bags.Sum(ChangeBags([c])) == ChangeBag(c) && Bags.Sum(FaultBags([c])) == FaultBag(c)
  {
    assert ChangeBags([c]) == [] + [ChangeBag(c)] && FaultBags([c]) == [] + [FaultBag(c)];
    Bags.SumSnoc([], ChangeBag(c));
    Bags.SumSnoc([], FaultBag(c));
  }

  /** The shared result lists hold what the comparisons so far yield. */
  ghost predicate Collected(cs: seq<Comparison>, violations: seq<Violation>, accepted: seq<Change>) {
    && multiset(accepted) == Bags.Sum(ChangeBags(cs))
    && multiset(violations) == Bags.Sum(FaultBags(cs))
  }

  lemma CollectNone()
    ensures Collected([], [], [])
  {
    assert ChangeBags([]) == [] && FaultBags([]) == [];
  }

  lemma OneMoreItem(rules: Rules, i: nat, sub: Row, prev: Row, j: nat)
    requires j < |sub.items| == |prev.items|
    ensures var cs := ItemComparisons(rules, i, sub, prev);
      |cs| == |sub.items| && cs[..j] + [OfItem(rules, i, j, sub.items[j], prev.items[j])] == cs[..j + 1]
  {
  }

  lemma CollectMore(cs: seq<Comparison>, violations: seq<Violation>, accepted: seq<Change>,
                    ds: seq<Comparison>, violations': seq<Violation>, accepted': seq<Change>)
    requires Collected(cs, violations, accepted) && Collected(ds, violations', accepted')
    ensures Collected(cs + ds, violations + violations', accepted + accepted')
  {
    BagsConcat(cs, ds);
    BagOfConcat(violations, violations');
    BagOfConcat(accepted, accepted');
  }

  /** One dict's diff, appended to the shared lists. */
  method DiffOne(ghost cs: seq<Comparison>, c: Comparison, violations: seq<Violation>, accepted: seq<Change>)
    returns (violations': seq<Violation>, accepted': seq<Change>)
    requires Collected(cs, violations, accepted)
    ensures Collected(cs + [c], violations', accepted')
  {
    var v, a := DiffFields(c);
    BagsOne(c);
    CollectMore(cs, violations, accepted, [c], v, a);
    violations', accepted' := violations + v, accepted + a;
  }

  method DiffLineItems(rules: Rules, i: nat, sub: Row, prev: Row)
    returns (violations: seq<Violation>, accepted: seq<Change>)
    requires |sub.items| == |prev.items|
    ensures Collected(ItemComparisons(rules, i, sub, prev), violations, accepted)
  {
    violations, accepted := [], [];
    ghost var cs := ItemComparisons(rules, i, sub, prev);
    CollectNone();
    assert cs[..0] == [];
    var j := 0;
    while j < |sub.items|
      invariant 0 <= j <= |sub.items|
      invariant Collected(cs[..j], violations, accepted)
    {
      violations, accepted := DiffOne(cs[..j], OfItem(rules, i, j, sub.items[j], prev.items[j]), violations, accepted);
      OneMoreItem(rules, i, sub, prev, j);
      j := j + 1;
    }
    assert cs[..j] == cs;
  }

  method CheckTransactionTypeRules(rules: Rules, i: nat, sub: Row, prev: Row)
    returns (violations: seq<Violation>)
    ensures multiset(violations) == multiset(UpgradeFaults(rules, i, sub, prev))
  {
    violations := [];
    var oldType, newType := Get(prev.fields, "transaction_type"), Get(sub.fields, "transaction_type");
    if oldType == newType {
      assert UpgradeFaults(rules, i, sub, prev) == {};
      return;
    }
    if oldType.Text? && newType.Text? && oldType.s in B2B_B2G && newType.s in B2B_B2G {
      assert UpgradeFaults(rules, i, sub, prev) == {};
      return;
    }
    if oldType == Text("B2C") && newType.Text? && newType.s in B2B_B2G {
      var required := rules.counterparty;
      ghost var faults: set<Violation> := {};
      while required != {}
        invariant required <= rules.counterparty
        invariant faults == set f | f in rules.counterparty - required && Blank(Get(sub.fields, f))
                                  :: Upgrade(i, oldType, newType, f)
        invariant multiset(violations) == multiset(faults)
        decreases required
      {
        var f :| f in required;
        required := required - {f};
        if Blank(Get(sub.fields, f)) {
          violations := violations + [Upgrade(i, oldType, newType, f)];
          faults := faults + {Upgrade(i, oldType, newType, f)};
        }
      }
      assert faults == UpgradeFaults(rules, i, sub, prev);
    } else {
      assert UpgradeFaults(rules, i, sub, prev) == {};
    }
  }

  /** Everything compared on one row, and the violations that are not about fields. */
  method CheckRow(rules: Rules, i: nat, sub: Row, prev: Row)
    returns (violations: seq<Violation>, others: seq<Violation>, accepted: seq<Change>)
    ensures Collected(RowComparisons(rules, i, sub, prev), violations, accepted)
    ensures multiset(others) == OtherFaults(rules, i, sub, prev)
  {
    violations, accepted := DiffFields(OfInvoice(rules, i, sub, prev));
    BagsOne(OfInvoice(rules, i, sub, prev));
    others := [];
    var v: seq<Violation>, a: seq<Change> := [], [];
    if |sub.items| != |prev.items| {
      others := [ItemCount(i, |prev.items|, |sub.items|)];
    } else {
      v, a := DiffLineItems(rules, i, sub, prev);
    }
    CollectMore([OfInvoice(rules, i, sub, prev)], violations, accepted, ItemComparisons(rules, i, sub, prev), v, a);
    violations, accepted := violations + v, accepted + a;
    var upgrades := CheckTransactionTypeRules(rules, i, sub, prev);
    BagOfConcat(others, upgrades);
    others := others + upgrades;
  }

  lemma NextOthers(rules: Rules, subs: seq<Row>, prevs: seq<Row>, i: nat)
    requires i < |subs| == |prevs|
    ensures Bags.Sum(OtherBags(rules, subs, prevs, i + 1))
            == Bags.Sum(OtherBags(rules, subs, prevs, i)) + OtherFaults(rules, i, subs[i], prevs[i])
  {
    Bags.SumSnoc(OtherBags(rules, subs, prevs, i), OtherFaults(rules, i, subs[i], prevs[i]));
    assert OtherBags(rules, subs, prevs, i + 1)
        == OtherBags(rules, subs, prevs, i) + [OtherFaults(rules, i, subs[i], prevs[i])];
  }

  method ValidateRows(rules: Rules, submitted: seq<Row>, preview: seq<Row>)
    returns (violations: seq<Violation>, others: seq<Violation>, accepted: seq<Change>)
    requires |submitted| == |preview|
    ensures Collected(Comparisons(rules, submitted, preview, |submitted|), violations, accepted)
    ensures multiset(others) == Bags.Sum(OtherBags(rules, submitted, preview, |submitted|))
  {
    violations, others, accepted := [], [], [];
    CollectNone();
    assert OtherBags(rules, submitted, preview, 0) == [];
    var i := 0;
    while i < |submitted|
      invariant 0 <= i <= |submitted|
      invariant Collected(Comparisons(rules, submitted, preview, i), violations, accepted)
      invariant multiset(others) == Bags.Sum(OtherBags(rules, submitted, preview, i))
    {
      var v, o, a := CheckRow(rules, i, submitted[i], preview[i]);
      ghost var cs := Comparisons(rules, submitted, preview, i);
      CollectMore(cs, violations, accepted, RowComparisons(rules, i, submitted[i], preview[i]), v, a);
      NextOthers(rules, submitted, preview, i);
      BagOfConcat(others, o);
      violations, others, accepted := violations + v, others + o, accepted + a;
      i := i + 1;
    }
  }

  /** The warning about missing provenance comes once, however many rows lack it. */
  function Warnings(prevs: seq<Row>): nat {
    if exists i :: 0 <= i < |prevs| && prevs[i].provenance == map[] then 1 else 0
  }

  lemma WarnsOnce(prevs: seq<Row>)
    ensures Warnings(prevs) <= 1
    ensures Warnings(prevs) == 1 <==> exists k :: 0 <= k < |prevs| && prevs[k].provenance == map[]
  {
  }

  method CountWarnings(preview: seq<Row>) returns (n: nat)
    ensures n == Warnings(preview)
  {
    var warned := false;
    for i := 0 to |preview|
      invariant warned <==> exists k :: 0 <= k < i && preview[k].provenance == map[]
    {
      if preview[i].provenance == map[] && !warned {
        warned := true;
      }
    }
    n := if warned then 1 else 0;
  }

  method Validate(rules: Rules, submitted: seq<Row>, preview: seq<Row>) returns (r: Result)
    ensures |submitted| != |preview| ==>
              r == Result(false, [RowCount(|preview|, |submitted|)], [], 0)
    ensures |submitted| == |preview| ==>
              && multiset(r.accepted) == AllChanges(rules, submitted, preview, |submitted|)
              && multiset(r.violations) == AllFaults(rules, submitted, preview, |submitted|)
              && (r.isValid <==> AllFaults(rules, submitted, preview, |submitted|) == multiset{})
              && r.warnings == Warnings(preview)
  {
    if |submitted| != |preview| {
      return Result(false, [RowCount(|preview|, |submitted|)], [], 0);
    }
    var fields, others, accepted := ValidateRows(rules, submitted, preview);
    BagOfConcat(fields, others);
    var violations := fields + others;
    var warnings := CountWarnings(preview);
    r := Result(|violations| == 0, violations, accepted, warnings);
    assert |multiset(violations)| == |violations|;
  }
}
