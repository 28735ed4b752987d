/**
 What the diff engine guarantees: accepted changes are an exact patch, changes and faults
 count the differing keys, and legal edits can be taken back one by one.
 */
module EditTheorems {
  import opened Options
  import opened EditValidator
  import opened Provenance
  import Bags

  // ----------------------------------------------------------- what is compared

  /** The one comparison of row i at invoice level (no item) or of its item. */
  ghost predicate Compared(rules: Rules, subs: seq<Row>, prevs: seq<Row>, n: nat, c: Comparison)
    requires n <= |subs| && n <= |prevs|
  {
    && c.invoice < n
    && match c.item
       case None => c == OfInvoice(rules, c.invoice, subs[c.invoice], prevs[c.invoice])
       case Some(j) =>
         && j < |subs[c.invoice].items| == |prevs[c.invoice].items|
         && c == OfItem(rules, c.invoice, j, subs[c.invoice].items[j], prevs[c.invoice].items[j])
  }

  lemma RowComparisonsAre(rules: Rules, i: nat, sub: Row, prev: Row, c: Comparison)
    ensures c in RowComparisons(rules, i, sub, prev) <==>
              || c == OfInvoice(rules, i, sub, prev)
              || (&& c.item.Some? && c.item.value < |sub.items| == |prev.items|
                  && c == OfItem(rules, i, c.item.value, sub.items[c.item.value], prev.items[c.item.value]))
  {
    var items := ItemComparisons(rules, i, sub, prev);
    if c in items {
      var j :| 0 <= j < |items| && items[j] == c;
    }
    if c.item.Some? && c.item.value < |sub.items| == |prev.items| {
      assert items[c.item.value] == OfItem(rules, i, c.item.value, sub.items[c.item.value], prev.items[c.item.value]);
    }
  }

  /** Every row is compared, and every line item of the rows with equally many, and nothing else. */
  lemma {:induction false} ComparisonsAre(rules: Rules, subs: seq<Row>, prevs: seq<Row>, n: nat, c: Comparison)
    requires n <= |subs| && n <= |prevs|
    ensures c in Comparisons(rules, subs, prevs, n) <==> Compared(rules, subs, prevs, n, c)
  {
    if n > 0 {
      ComparisonsAre(rules, subs, prevs, n - 1, c);
      RowComparisonsAre(rules, n - 1, subs[n - 1], prevs[n - 1], c);
    }
  }

  lemma ChangeBagsMember(cs: seq<Comparison>, x: Change)
    ensures x in Bags.Sum(ChangeBags(cs)) <==> exists c :: c in cs && x in ChangeBag(c)
  {
    var bags := ChangeBags(cs);
    Bags.SumMember(bags, x);
    if x in Bags.Sum(bags) {
      var k :| 0 <= k < |bags| && x in bags[k];
      assert cs[k] in cs;
    }
    if c :| c in cs && x in ChangeBag(c) {
      var k :| 0 <= k < |cs| && cs[k] == c;
      assert x in bags[k];
    }
  }

  /** What is accepted at a place is decided by the comparison of that place alone. */
  lemma ChangeIsLocal(rules: Rules, subs: seq<Row>, prevs: seq<Row>, c: Comparison, x: Change)
    requires |subs| == |prevs| && Compared(rules, subs, prevs, |subs|, c)
    requires x.invoice == c.invoice && x.item == c.item
    ensures x in AllChanges(rules, subs, prevs, |subs|) <==> x in ChangeBag(c)
  {
    var cs := Comparisons(rules, subs, prevs, |subs|);
    ComparisonsAre(rules, subs, prevs, |subs|, c);
    ChangeBagsMember(cs, x);
    if x in Bags.Sum(ChangeBags(cs)) {
      var d :| d in cs && x in ChangeBag(d);
      ComparisonsAre(rules, subs, prevs, |subs|, d);
      assert d == c;
    }
  }

  // -------------------------------------------------------------- what valid means

  ghost predicate NoFaults(c: Comparison) {
    forall k :: k in DiffKeys(c) ==> c.judge(k).Accept?
  }

  /** A B2C invoice made B2B or B2G names its counterparty. */
  ghost predicate UpgradeOk(rules: Rules, sub: Row, prev: Row) {
    Upgrades(sub, prev) ==> forall f :: f in rules.counterparty ==> !Blank(Get(sub.fields, f))
  }

  lemma FaultIsThere(c: Comparison, k: string)
    requires k in DiffKeys(c) && c.judge(k).Reject?
    ensures FaultsOf(c, DiffKeys(c)) != {}
  {
    assert FaultAt(c, k, c.judge(k).reason) in FaultsOf(c, DiffKeys(c));
  }

  lemma NoFaultsMeansEmpty(c: Comparison)
    ensures NoFaults(c) <==> FaultBag(c) == multiset{}
  {
    if !NoFaults(c) {
      var k :| k in DiffKeys(c) && c.judge(k).Reject?;
      FaultIsThere(c, k);
      var x :| x in FaultsOf(c, DiffKeys(c));
      assert x in FaultBag(c);
    } else {
      assert FaultsOf(c, DiffKeys(c)) == {};
    }
  }

  lemma UpgradeFaultIsThere(rules: Rules, i: nat, sub: Row, prev: Row, f: string)
    requires Upgrades(sub, prev) && f in rules.counterparty && Blank(Get(sub.fields, f))
    ensures UpgradeFaults(rules, i, sub, prev) != {}
  {
    assert Upgrade(i, Get(prev.fields, "transaction_type"), Get(sub.fields, "transaction_type"), f)
        in UpgradeFaults(rules, i, sub, prev);
  }

  lemma OtherFaultsEmpty(rules: Rules, i: nat, sub: Row, prev: Row)
    ensures OtherFaults(rules, i, sub, prev) == multiset{}
            <==> |sub.items| == |prev.items| && UpgradeOk(rules, sub, prev)
  {
    var upgrades := UpgradeFaults(rules, i, sub, prev);
    var counts := if |sub.items| != |prev.items| then multiset{ItemCount(i, |prev.items|, |sub.items|)} else multiset{};
    Bags.EmptyParts(counts, multiset(upgrades));
    if !UpgradeOk(rules, sub, prev) {
      var f :| f in rules.counterparty && Blank(Get(sub.fields, f));
      UpgradeFaultIsThere(rules, i, sub, prev, f);
      var x :| x in upgrades;
      assert x in multiset(upgrades);
    } else {
      assert upgrades == {};
    }
    if |sub.items| != |prev.items| {
      assert ItemCount(i, |prev.items|, |sub.items|) in multiset{ItemCount(i, |prev.items|, |sub.items|)};
    }
  }

  lemma NoFieldFaults(cs: seq<Comparison>)
    ensures Bags.Sum(FaultBags(cs)) == multiset{} <==> forall c :: c in cs ==> NoFaults(c)
  {
    var bags := FaultBags(cs);
    Bags.SumEmpty(bags);
    forall k | 0 <= k < |cs| ensures bags[k] == multiset{} <==> NoFaults(cs[k]) {
      NoFaultsMeansEmpty(cs[k]);
    }
  }

  lemma NoOtherFaults(rules: Rules, subs: seq<Row>, prevs: seq<Row>)
    requires |subs| == |prevs|
    ensures Bags.Sum(OtherBags(rules, subs, prevs, |subs|)) == multiset{} <==>
              forall i: nat :: i < |subs| ==> |subs[i].items| == |prevs[i].items| && UpgradeOk(rules, subs[i], prevs[i])
  {
    var bags := OtherBags(rules, subs, prevs, |subs|);
    Bags.SumEmpty(bags);
    forall i: nat | i < |subs|
      ensures bags[i] == multiset{} <==> |subs[i].items| == |prevs[i].items| && UpgradeOk(rules, subs[i], prevs[i])
    {
      OtherFaultsEmpty(rules, i, subs[i], prevs[i]);
    }
  }

  /** Row i and its line items differ from the preview only in keys judged editable. */
  ghost predicate RowClean(rules: Rules, i: nat, sub: Row, prev: Row) {
    && NoFaults(OfInvoice(rules, i, sub, prev))
    && |sub.items| == |prev.items|
    && forall j: nat :: j < |sub.items| ==> NoFaults(OfItem(rules, i, j, sub.items[j], prev.items[j]))
  }

  ghost predicate Valid(rules: Rules, subs: seq<Row>, prevs: seq<Row>)
    requires |subs| == |prevs|
  {
    AllFaults(rules, subs, prevs, |subs|) == multiset{}
  }

  lemma CleanRowsHaveNoFaults(rules: Rules, subs: seq<Row>, prevs: seq<Row>, i: nat)
    requires i < |subs| == |prevs| && |subs[i].items| == |prevs[i].items|
    requires forall c :: c in Comparisons(rules, subs, prevs, |subs|) ==> NoFaults(c)
    ensures RowClean(rules, i, subs[i], prevs[i])
  {
    ComparisonsAre(rules, subs, prevs, |subs|, OfInvoice(rules, i, subs[i], prevs[i]));
    forall j: nat | j < |subs[i].items| ensures NoFaults(OfItem(rules, i, j, subs[i].items[j], prevs[i].items[j])) {
      ComparisonsAre(rules, subs, prevs, |subs|, OfItem(rules, i, j, subs[i].items[j], prevs[i].items[j]));
    }
  }

  lemma NoFaultsOfCleanRows(rules: Rules, subs: seq<Row>, prevs: seq<Row>)
    requires |subs| == |prevs| && forall i: nat :: i < |subs| ==> RowClean(rules, i, subs[i], prevs[i])
    ensures forall c :: c in Comparisons(rules, subs, prevs, |subs|) ==> NoFaults(c)
  {
    forall c | c in Comparisons(rules, subs, prevs, |subs|) ensures NoFaults(c) {
      ComparisonsAre(rules, subs, prevs, |subs|, c);
      assert RowClean(rules, c.invoice, subs[c.invoice], prevs[c.invoice]);
    }
  }

  /** A submission is valid exactly when every differing key of every row and line item is
      judged editable, no line item is added or lost, and every upgrade names its counterparty. */
  lemma ValidExactly(rules: Rules, subs: seq<Row>, prevs: seq<Row>)
    requires |subs| == |prevs|
    ensures Valid(rules, subs, prevs) <==>
              forall i: nat :: i < |subs| ==>
                  RowClean(rules, i, subs[i], prevs[i]) && UpgradeOk(rules, subs[i], prevs[i])
  {
    var cs := Comparisons(rules, subs, prevs, |subs|);
    Bags.EmptyParts(FieldFaults(rules, subs, prevs, |subs|), Bags.Sum(OtherBags(rules, subs, prevs, |subs|)));
    NoFieldFaults(cs);
    NoOtherFaults(rules, subs, prevs);
    if Valid(rules, subs, prevs) {
      forall i: nat | i < |subs| ensures RowClean(rules, i, subs[i], prevs[i]) && UpgradeOk(rules, subs[i], prevs[i]) {
        CleanRowsHaveNoFaults(rules, subs, prevs, i);
      }
    }
    if forall i: nat :: i < |subs| ==> RowClean(rules, i, subs[i], prevs[i]) && UpgradeOk(rules, subs[i], prevs[i]) {
      NoFaultsOfCleanRows(rules, subs, prevs);
    }
  }

  // --------------------------------------------------------------------- the patch

  predicate AtKey(x: Change, i: nat, item: Option<nat>, k: string) {
    x.field == k && x.invoice == i && x.item == item
  }

  /** The value of one key after laying the accepted changes over the preview. */
  ghost function Patched(changes: multiset<Change>, prev: Fields, i: nat, item: Option<nat>, k: string): Value {
    if x :| x in changes && AtKey(x, i, item, k) then x.newValue else Get(prev, k)
  }

  lemma PatchedKey(c: Comparison, changes: multiset<Change>, k: string)
    requires NoFaults(c) && k !in c.skip
    requires forall x: Change :: x.invoice == c.invoice && x.item == c.item ==> (x in changes <==> x in ChangeBag(c))
    ensures ValuesEqual(Patched(changes, c.prev, c.invoice, c.item, k), Get(c.sub, k))
  {
    if k in DiffKeys(c) {
      assert ChangeAt(c, k) in ChangesOf(c, DiffKeys(c));
      assert ChangeAt(c, k) in changes && AtKey(ChangeAt(c, k), c.invoice, c.item, k);
    }
    forall y | y in changes && AtKey(y, c.invoice, c.item, k) ensures k in DiffKeys(c) && y.newValue == Get(c.sub, k) {
      assert y in ChangesOf(c, DiffKeys(c));
    }
  }

  /** On a valid submission, laying the accepted changes over the preview gives the submitted
      rows, key by key and up to the comparison's equality. */
  lemma AcceptedChangesAreThePatch(rules: Rules, subs: seq<Row>, prevs: seq<Row>, i: nat, k: string)
    requires i < |subs| == |prevs| && k !in SKIP_INVOICE && Valid(rules, subs, prevs)
    ensures ValuesEqual(Patched(AllChanges(rules, subs, prevs, |subs|), prevs[i].fields, i, None, k),
                        Get(subs[i].fields, k))
  {
    ValidExactly(rules, subs, prevs);
    assert RowClean(rules, i, subs[i], prevs[i]);
    var c := OfInvoice(rules, i, subs[i], prevs[i]);
    forall x: Change | x.invoice == i && x.item == None
      ensures x in AllChanges(rules, subs, prevs, |subs|) <==> x in ChangeBag(c)
    {
      ChangeIsLocal(rules, subs, prevs, c, x);
    }
    PatchedKey(c, AllChanges(rules, subs, prevs, |subs|), k);
  }

  lemma AcceptedChangesPatchItems(rules: Rules, subs: seq<Row>, prevs: seq<Row>, i: nat, j: nat, k: string)
    requires i < |subs| == |prevs| && j < |subs[i].items| && k !in SKIP_ITEM && Valid(rules, subs, prevs)
    ensures |subs[i].items| == |prevs[i].items|
    ensures ValuesEqual(Patched(AllChanges(rules, subs, prevs, |subs|), prevs[i].items[j].fields, i, Some(j), k),
                        Get(subs[i].items[j].fields, k))
  {
    ValidExactly(rules, subs, prevs);
    assert RowClean(rules, i, subs[i], prevs[i]);
    var c := OfItem(rules, i, j, subs[i].items[j], prevs[i].items[j]);
    forall x: Change | x.invoice == i && x.item == Some(j)
      ensures x in AllChanges(rules, subs, prevs, |subs|) <==> x in ChangeBag(c)
    {
      ChangeIsLocal(rules, subs, prevs, c, x);
    }
    PatchedKey(c, AllChanges(rules, subs, prevs, |subs|), k);
  }

  // ---------------------------------------------------------------------- counting

  function DiffSizes(cs: seq<Comparison>): seq<nat> {
    seq(|cs|, k requires 0 <= k < |cs| => |DiffKeys(cs[k])|)
  }

  lemma {:induction false} KeysSplit(c: Comparison, keys: set<string>)
    ensures |ChangesOf(c, keys)| + |FaultsOf(c, keys)| == |keys|
  {
    if keys == {} {
      assert ChangesOf(c, keys) == {} && FaultsOf(c, keys) == {};
    } else {
      var k :| k in keys;
      var rest := keys - {k};
      assert keys == rest + {k};
      KeysSplit(c, rest);
      OneMoreKey(c, rest, k);
      BagSize(ChangesOf(c, keys));
      BagSize(FaultsOf(c, keys));
      BagSize(ChangesOf(c, rest));
      BagSize(FaultsOf(c, rest));
    }
  }

  lemma BagSize<T>(s: set<T>)
    ensures |multiset(s)| == |s|
  {
  }

  /** Every differing key is accounted for once: accepted changes and field faults together
      are as many as the differing keys of all comparisons. */
  lemma ChangesAndFaultsCountTheDiff(rules: Rules, subs: seq<Row>, prevs: seq<Row>, n: nat)
    requires n <= |subs| && n <= |prevs|
    ensures |AllChanges(rules, subs, prevs, n)| + |FieldFaults(rules, subs, prevs, n)|
            == Bags.Total(DiffSizes(Comparisons(rules, subs, prevs, n)))
  {
    var cs := Comparisons(rules, subs, prevs, n);
    forall k | 0 <= k < |cs| ensures |ChangeBags(cs)[k]| + |FaultBags(cs)[k]| == DiffSizes(cs)[k] {
      KeysSplit(cs[k], DiffKeys(cs[k]));
      BagSize(ChangesOf(cs[k], DiffKeys(cs[k])));
      BagSize(FaultsOf(cs[k], DiffKeys(cs[k])));
    }
    Bags.SizesAddUp(ChangeBags(cs), FaultBags(cs), DiffSizes(cs));
  }

  /** On a valid submission accepted changes correspond one to one with the differing keys:
      a key's change is there exactly when it differs, and there are no more changes than that. */
  lemma AcceptedChangesAreTheDiff(rules: Rules, subs: seq<Row>, prevs: seq<Row>)
    requires |subs| == |prevs| && Valid(rules, subs, prevs)
    ensures |AllChanges(rules, subs, prevs, |subs|)|
            == Bags.Total(DiffSizes(Comparisons(rules, subs, prevs, |subs|)))
    ensures forall c, k :: Compared(rules, subs, prevs, |subs|, c) ==>
              (ChangeAt(c, k) in AllChanges(rules, subs, prevs, |subs|) <==> k in DiffKeys(c))
  {
    ChangesAndFaultsCountTheDiff(rules, subs, prevs, |subs|);
    Bags.EmptyParts(FieldFaults(rules, subs, prevs, |subs|), Bags.Sum(OtherBags(rules, subs, prevs, |subs|)));
    var cs := Comparisons(rules, subs, prevs, |subs|);
    NoFieldFaults(cs);
    forall c, k | Compared(rules, subs, prevs, |subs|, c)
      ensures ChangeAt(c, k) in AllChanges(rules, subs, prevs, |subs|) <==> k in DiffKeys(c)
    {
      ComparisonsAre(rules, subs, prevs, |subs|, c);
      ChangeIsLocal(rules, subs, prevs, c, ChangeAt(c, k));
      KeyOfChange(c, k);
    }
  }

  lemma KeyOfChange(c: Comparison, k: string)
    ensures ChangeAt(c, k) in ChangeBag(c) <==> k in DiffKeys(c) && c.judge(k).Accept?
  {
    if k in DiffKeys(c) && c.judge(k).Accept? {
      assert ChangeAt(c, k) in ChangesOf(c, DiffKeys(c));
    }
    if ChangeAt(c, k) in ChangesOf(c, DiffKeys(c)) {
      var k' :| k' in DiffKeys(c) && c.judge(k').Accept? && ChangeAt(c, k') == ChangeAt(c, k);
      assert ChangeAt(c, k').field == k;
    }
  }

  // ------------------------------------------------------------- taking edits back

  /** No key differs in `sub'` that does not differ in `sub`. */
  ghost predicate DiffersLess(rules: Rules, i: nat, sub': Row, sub: Row, prev: Row) {
    && DiffKeys(OfInvoice(rules, i, sub', prev)) <= DiffKeys(OfInvoice(rules, i, sub, prev))
    && |sub'.items| == |sub.items| == |prev.items|
    && forall j: nat :: j < |sub.items| ==>
         DiffKeys(OfItem(rules, i, j, sub'.items[j], prev.items[j]))
         <= DiffKeys(OfItem(rules, i, j, sub.items[j], prev.items[j]))
  }

  lemma SameJudge(rules: Rules, i: nat, sub': Row, sub: Row, prev: Row, k: string)
    ensures OfInvoice(rules, i, sub', prev).judge(k) == OfInvoice(rules, i, sub, prev).judge(k)
  {
  }

  lemma LessDiffStaysClean(rules: Rules, i: nat, sub': Row, sub: Row, prev: Row)
    requires DiffersLess(rules, i, sub', sub, prev) && RowClean(rules, i, sub, prev)
    ensures RowClean(rules, i, sub', prev)
  {
    forall j: nat | j < |sub'.items| ensures NoFaults(OfItem(rules, i, j, sub'.items[j], prev.items[j])) {
      assert NoFaults(OfItem(rules, i, j, sub.items[j], prev.items[j]));
    }
  }

  /** Legal edits are independent: any submission that differs from the preview only where a
      valid one does is valid exactly when its upgrades name their counterparty. */
  lemma LegalEditsAreIndependent(rules: Rules, subs': seq<Row>, subs: seq<Row>, prevs: seq<Row>)
    requires |subs'| == |subs| == |prevs| && Valid(rules, subs, prevs)
    requires forall i: nat :: i < |subs| ==> DiffersLess(rules, i, subs'[i], subs[i], prevs[i])
    ensures Valid(rules, subs', prevs) <==> forall i: nat :: i < |subs| ==> UpgradeOk(rules, subs'[i], prevs[i])
  {
    ValidExactly(rules, subs, prevs);
    ValidExactly(rules, subs', prevs);
    forall i: nat | i < |subs| ensures RowClean(rules, i, subs'[i], prevs[i]) {
      assert RowClean(rules, i, subs[i], prevs[i]);
      LessDiffStaysClean(rules, i, subs'[i], subs[i], prevs[i]);
    }
  }

  /** Take chosen keys back to the preview. */
  function RevertFields(sub: Fields, prev: Fields, keys: set<string>): Fields {
    map k | k in sub.Keys + prev.Keys && (if k in keys then k in prev else k in sub)
      :: if k in keys then prev[k] else sub[k]
  }

  function RevertItems(sub: seq<Item>, prev: seq<Item>, keys: nat -> set<string>): seq<Item>
    requires |sub| == |prev|
  {
    seq(|sub|, j requires 0 <= j < |sub| =>
          Item(RevertFields(sub[j].fields, prev[j].fields, keys(j)), sub[j].provenance))
  }

  function RevertRow(sub: Row, prev: Row, keys: set<string>, itemKeys: nat -> set<string>): Row
    requires |sub.items| == |prev.items|
  {
    Row(RevertFields(sub.fields, prev.fields, keys), RevertItems(sub.items, prev.items, itemKeys), sub.provenance)
  }

  lemma RevertedKey(sub: Fields, prev: Fields, keys: set<string>, k: string)
    ensures Get(RevertFields(sub, prev, keys), k) == if k in keys then Get(prev, k) else Get(sub, k)
  {
  }

  lemma EqualToItself(v: Value)
    ensures ValuesEqual(v, v)
  {
  }

  lemma FewerDiffKeys(c': Comparison, c: Comparison, keys: set<string>)
    requires c'.prev == c.prev && c'.skip == c.skip && c'.sub == RevertFields(c.sub, c.prev, keys)
    ensures DiffKeys(c') <= DiffKeys(c)
  {
    forall k | k in DiffKeys(c') ensures k in DiffKeys(c) {
      RevertedKey(c.sub, c.prev, keys, k);
      EqualToItself(Get(c.prev, k));
    }
  }

  lemma RevertDiffersLess(rules: Rules, i: nat, sub: Row, prev: Row, keys: set<string>, itemKeys: nat -> set<string>)
    requires |sub.items| == |prev.items|
    ensures DiffersLess(rules, i, RevertRow(sub, prev, keys, itemKeys), sub, prev)
  {
    var r := RevertRow(sub, prev, keys, itemKeys);
    FewerDiffKeys(OfInvoice(rules, i, r, prev), OfInvoice(rules, i, sub, prev), keys);
    forall j: nat | j < |sub.items|
      ensures DiffKeys(OfItem(rules, i, j, r.items[j], prev.items[j]))
              <= DiffKeys(OfItem(rules, i, j, sub.items[j], prev.items[j]))
    {
      FewerDiffKeys(OfItem(rules, i, j, r.items[j], prev.items[j]),
                    OfItem(rules, i, j, sub.items[j], prev.items[j]), itemKeys(j));
    }
  }

  function RevertRows(subs: seq<Row>, prevs: seq<Row>, keys: nat -> set<string>,
                      itemKeys: (nat, nat) -> set<string>): seq<Row>
    requires |subs| == |prevs| && forall i: nat :: i < |subs| ==> |subs[i].items| == |prevs[i].items|
  {
    seq(|subs|, i requires 0 <= i < |subs| && |subs[i].items| == |prevs[i].items| =>
          RevertRow(subs[i], prevs[i], keys(i), (j: nat) => itemKeys(i, j)))
  }

  /** Taking back any choice of keys, in any rows and line items, leaves a valid submission
      valid, except where a kept upgrade loses its counterparty. */
  lemma RevertingKeepsValidity(rules: Rules, subs: seq<Row>, prevs: seq<Row>,
                               keys: nat -> set<string>, itemKeys: (nat, nat) -> set<string>)
    requires |subs| == |prevs| && Valid(rules, subs, prevs)
    ensures forall i: nat :: i < |subs| ==> |subs[i].items| == |prevs[i].items|
    ensures var subs' := RevertRows(subs, prevs, keys, itemKeys);
      Valid(rules, subs', prevs) <==> forall i: nat :: i < |subs| ==> UpgradeOk(rules, subs'[i], prevs[i])
  {
    ValidExactly(rules, subs, prevs);
    forall i: nat | i < |subs| ensures |subs[i].items| == |prevs[i].items| {
      assert RowClean(rules, i, subs[i], prevs[i]);
    }
    var subs' := RevertRows(subs, prevs, keys, itemKeys);
    forall i: nat | i < |subs| ensures DiffersLess(rules, i, subs'[i], subs[i], prevs[i]) {
      RevertDiffersLess(rules, i, subs[i], prevs[i], keys(i), (j: nat) => itemKeys(i, j));
    }
    LegalEditsAreIndependent(rules, subs', subs, prevs);
  }

  /** A key's verdict does not look at the submitted value: two submissions in which it
      differs get it accepted both or neither. */
  lemma VerdictIgnoresTheSubmittedValue(rules: Rules, subs: seq<Row>, subs': seq<Row>, prevs: seq<Row>, i: nat,
                                        k: string)
    requires i < |subs| == |subs'| == |prevs|
    requires k in DiffKeys(OfInvoice(rules, i, subs[i], prevs[i]))
    requires k in DiffKeys(OfInvoice(rules, i, subs'[i], prevs[i]))
    ensures ChangeAt(OfInvoice(rules, i, subs[i], prevs[i]), k) in AllChanges(rules, subs, prevs, |subs|)
            <==> ChangeAt(OfInvoice(rules, i, subs'[i], prevs[i]), k) in AllChanges(rules, subs', prevs, |subs'|)
  {
    var c, c' := OfInvoice(rules, i, subs[i], prevs[i]), OfInvoice(rules, i, subs'[i], prevs[i]);
    ChangeIsLocal(rules, subs, prevs, c, ChangeAt(c, k));
    ChangeIsLocal(rules, subs', prevs, c', ChangeAt(c', k));
    KeyOfChange(c, k);
    KeyOfChange(c', k);
    SameJudge(rules, i, subs'[i], subs[i], prevs[i], k);
  }

  /** The same for the keys of line items. */
  lemma ItemVerdictIgnoresTheSubmittedValue(rules: Rules, subs: seq<Row>, subs': seq<Row>, prevs: seq<Row>,
                                            i: nat, j: nat, k: string)
    requires i < |subs| == |subs'| == |prevs| && j < |subs[i].items| == |subs'[i].items| == |prevs[i].items|
    requires k in DiffKeys(OfItem(rules, i, j, subs[i].items[j], prevs[i].items[j]))
    requires k in DiffKeys(OfItem(rules, i, j, subs'[i].items[j], prevs[i].items[j]))
    ensures ChangeAt(OfItem(rules, i, j, subs[i].items[j], prevs[i].items[j]), k)
            in AllChanges(rules, subs, prevs, |subs|)
            <==> ChangeAt(OfItem(rules, i, j, subs'[i].items[j], prevs[i].items[j]), k)
                 in AllChanges(rules, subs', prevs, |subs'|)
  {
    var c := OfItem(rules, i, j, subs[i].items[j], prevs[i].items[j]);
    var c' := OfItem(rules, i, j, subs'[i].items[j], prevs[i].items[j]);
    ChangeIsLocal(rules, subs, prevs, c, ChangeAt(c, k));
    ChangeIsLocal(rules, subs', prevs, c', ChangeAt(c', k));
    KeyOfChange(c, k);
    KeyOfChange(c', k);
    assert c.judge(k) == c'.judge(k);
  }
}
