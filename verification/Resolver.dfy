/**
 Entity resolution: an exact key, a second exact key, the best of all known names, or a new
 provisional record. Customers and products go through the same steps; only the keys differ
 (TIN and RC number, Helium SKU and customer SKU).
 */
module Resolver {
  import opened Options

  /** A cached record; an absent key or name is the empty text. */
  datatype Known = Known(id: string, key1: string, key2: string, name: string)

  datatype NameVariant = NameVariant(id: string, name: string)

  datatype Query = Query(key1: string, key2: string, name: string)

  datatype Kind = Exact1 | Exact2 | FuzzyName | New

  datatype Resolution = Resolution(id: string, kind: Kind, confidence: real)

  /** Key folding (upper case for RC numbers), name normalisation and similarity are
      parameters; similarity is between 0 and 1. */
  datatype Matching = Matching(fold: string -> string, normalize: string -> string,
                               score: (string, string) -> real, threshold: real)

  ghost predicate ScoresAreShares(m: Matching) {
    forall a, b :: 0.0 <= m.score(a, b) <= 1.0
  }

  // ------------------------------------------------------------------ exact keys

  function FirstWhere(ks: seq<Known>, p: Known -> bool): Option<Known> {
    if ks == [] then None
    else
      var before := FirstWhere(ks[..|ks| - 1], p);
      if before.Some? then before else if p(ks[|ks| - 1]) then Some(ks[|ks| - 1]) else None
  }

  lemma {:induction false} FirstWhereIsFirst(ks: seq<Known>, p: Known -> bool)
    ensures FirstWhere(ks, p).None? <==> forall i :: 0 <= i < |ks| ==> !p(ks[i])
    ensures FirstWhere(ks, p).Some? ==>
              exists k :: 0 <= k < |ks| && FirstWhere(ks, p) == Some(ks[k]) && p(ks[k])
                          && forall i :: 0 <= i < k ==> !p(ks[i])
  {
    if ks != [] {
      var n := |ks| - 1;
      FirstWhereIsFirst(ks[..n], p);
      assert forall i :: 0 <= i < n ==> ks[..n][i] == ks[i];
      if FirstWhere(ks[..n], p).Some? {
        var k :| 0 <= k < n && FirstWhere(ks[..n], p) == Some(ks[..n][k]) && p(ks[..n][k])
                 && forall i :: 0 <= i < k ==> !p(ks[..n][i]);
        assert ks[k] == ks[..n][k] && forall i :: 0 <= i < k ==> !p(ks[i]);
      }
    }
  }

  /** The first record with the property. */
  ghost predicate FirstMatch(ks: seq<Known>, p: Known -> bool, k: int) {
    0 <= k < |ks| && p(ks[k]) && forall i :: 0 <= i < k ==> !p(ks[i])
  }

  lemma FirstMatchFound(ks: seq<Known>, p: Known -> bool)
    ensures FirstWhere(ks, p).Some? ==> exists k :: FirstMatch(ks, p, k) && FirstWhere(ks, p) == Some(ks[k])
  {
    FirstWhereIsFirst(ks, p);
    if FirstWhere(ks, p).Some? {
      var k :| 0 <= k < |ks| && FirstWhere(ks, p) == Some(ks[k]) && p(ks[k]) && forall i :: 0 <= i < k ==> !p(ks[i]);
      assert FirstMatch(ks, p, k);
    }
  }

  function HasKey1(key: string): Known -> bool {
    (c: Known) => c.key1 != "" && c.key1 == key
  }

  function HasKey2(key: string, fold: string -> string): Known -> bool {
    (c: Known) => c.key2 != "" && fold(c.key2) == fold(key)
  }

  function HasId(id: string): Known -> bool {
    (c: Known) => c.id == id
  }

  // ------------------------------------------------------------------ best name

  /** A name to compare with and the record it stands for, if that is cached. */
  datatype Entry = Entry(name: string, owner: Option<Known>)

  function Canonical(ks: seq<Known>): seq<Entry> {
    seq(|ks|, i requires 0 <= i < |ks| => Entry(ks[i].name, Some(ks[i])))
  }

  function VariantEntries(ks: seq<Known>, vs: seq<NameVariant>): seq<Entry> {
    seq(|vs|, i requires 0 <= i < |vs| => Entry(vs[i].name, FirstWhere(ks, HasId(vs[i].id))))
  }

  /** Canonical names first, then variants. */
  function Entries(ks: seq<Known>, vs: seq<NameVariant>): seq<Entry> {
    Canonical(ks) + VariantEntries(ks, vs)
  }

  datatype Best = Best(score: real, match_: Option<Known>)

  /** One turn of the loop: a variant without a cached record raises the score, but leaves
      the match where it was. */
  function Better(m: Matching, q: string, b: Best, e: Entry): Best {
    if e.name != "" && m.score(q, e.name) > b.score
    then Best(m.score(q, e.name), if e.owner.Some? then e.owner else b.match_)
    else b
  }

  function BestOf(m: Matching, q: string, es: seq<Entry>): Best {
    if es == [] then Best(0.0, None) else Better(m, q, BestOf(m, q, es[..|es| - 1]), es[|es| - 1])
  }

  /** The first entry with the highest score. */
  ghost predicate IsFirstMax(m: Matching, q: string, es: seq<Entry>, p: nat) {
    && p < |es| && es[p].name != "" && m.score(q, es[p].name) > 0.0
    && (forall k :: 0 <= k < |es| && es[k].name != "" ==> m.score(q, es[k].name) <= m.score(q, es[p].name))
    && (forall k :: 0 <= k < p && es[k].name != "" ==> m.score(q, es[k].name) < m.score(q, es[p].name))
  }

  ghost predicate NoneScores(m: Matching, q: string, es: seq<Entry>) {
    forall k :: 0 <= k < |es| && es[k].name != "" ==> m.score(q, es[k].name) <= 0.0
  }

  /** The loop's best is the first maximum, and its match that entry's record whenever the
      record is cached. */
  lemma {:induction false} BestIsTheFirstMax(m: Matching, q: string, es: seq<Entry>)
    ensures NoneScores(m, q, es) ==> BestOf(m, q, es) == Best(0.0, None)
    ensures !NoneScores(m, q, es) ==>
              exists p: nat :: IsFirstMax(m, q, es, p) && BestOf(m, q, es).score == m.score(q, es[p].name)
                               && (es[p].owner.Some? ==> BestOf(m, q, es).match_ == es[p].owner)
  {
    if es != [] {
      var n := |es| - 1;
      var before := es[..n];
      BestIsTheFirstMax(m, q, before);
      if NoneScores(m, q, before) {
        if !NoneScores(m, q, es) { assert IsFirstMax(m, q, es, n); }
      } else {
        var p: nat :| IsFirstMax(m, q, before, p) && BestOf(m, q, before).score == m.score(q, before[p].name)
                      && (before[p].owner.Some? ==> BestOf(m, q, before).match_ == before[p].owner);
        MaxAfterOneMore(m, q, es, p);
      }
    }
  }

  lemma MaxAfterOneMore(m: Matching, q: string, es: seq<Entry>, p: nat)
    requires es != [] && IsFirstMax(m, q, es[..|es| - 1], p)
    ensures !NoneScores(m, q, es)
    ensures var n := |es| - 1;
      if es[n].name != "" && m.score(q, es[n].name) > m.score(q, es[p].name)
      then IsFirstMax(m, q, es, n) else IsFirstMax(m, q, es, p)
  {
    var n := |es| - 1;
    assert forall k :: 0 <= k < n ==> es[..n][k] == es[k];
  }

  /** The entry beats all before it. */
  ghost predicate IsRecord(m: Matching, q: string, es: seq<Entry>, k: nat) {
    && k < |es| && es[k].name != "" && m.score(q, es[k].name) > 0.0
    && forall i :: 0 <= i < k && es[i].name != "" ==> m.score(q, es[i].name) < m.score(q, es[k].name)
  }

  ghost predicate OwnedRecord(m: Matching, q: string, es: seq<Entry>) {
    exists k: nat :: IsRecord(m, q, es, k) && es[k].owner.Some?
  }

  lemma LastIsRecord(m: Matching, q: string, es: seq<Entry>)
    requires es != []
    ensures var n := |es| - 1;
      IsRecord(m, q, es, n) <==> es[n].name != "" && m.score(q, es[n].name) > BestOf(m, q, es[..n]).score
  {
    var n := |es| - 1;
    var before := es[..n];
    assert forall k :: 0 <= k < n ==> before[k] == es[k];
    BestIsTheFirstMax(m, q, before);
    if !NoneScores(m, q, before) {
      var p: nat :| IsFirstMax(m, q, before, p) && BestOf(m, q, before).score == m.score(q, before[p].name);
      assert before[p] == es[p];
    }
  }

  lemma {:induction false} MatchedByAnOwnedRecord(m: Matching, q: string, es: seq<Entry>)
    ensures BestOf(m, q, es).match_.Some? <==> OwnedRecord(m, q, es)
  {
    if es != [] {
      var n := |es| - 1;
      var before := es[..n];
      assert forall k :: 0 <= k < n ==> before[k] == es[k];
      MatchedByAnOwnedRecord(m, q, before);
      LastIsRecord(m, q, es);
      if k: nat :| IsRecord(m, q, before, k) && before[k].owner.Some? {
        assert IsRecord(m, q, es, k) && es[k].owner.Some?;
      }
      if k: nat :| IsRecord(m, q, es, k) && es[k].owner.Some? {
        if k < n { assert IsRecord(m, q, before, k) && before[k].owner.Some?; }
      }
    }
  }

  /** The match is the record behind the best name exactly when that record is cached, or no
      cached record's name was ever ahead. */
  lemma MatchIsTheArgmaxExactly(m: Matching, q: string, es: seq<Entry>, p: nat)
    requires IsFirstMax(m, q, es, p)
    ensures BestOf(m, q, es).match_ == es[p].owner <==> es[p].owner.Some? || !OwnedRecord(m, q, es)
  {
    BestIsTheFirstMax(m, q, es);
    var p': nat :| IsFirstMax(m, q, es, p') && (es[p'].owner.Some? ==> BestOf(m, q, es).match_ == es[p'].owner);
    FirstMaxIsUnique(m, q, es, p, p');
    MatchedByAnOwnedRecord(m, q, es);
  }

  // ------------------------------------------------------------------ one query

  function Fuzzy(m: Matching, q: Query, ks: seq<Known>, vs: seq<NameVariant>): Option<Resolution> {
    var b := BestOf(m, m.normalize(q.name), Entries(ks, vs));
    if q.name != "" && b.match_.Some? && b.score >= m.threshold
    then Some(Resolution(b.match_.value.id, FuzzyName, b.score)) else None
  }

  function Resolve(m: Matching, q: Query, ks: seq<Known>, vs: seq<NameVariant>, newId: string): Resolution {
    var a, b := FirstWhere(ks, HasKey1(q.key1)), FirstWhere(ks, HasKey2(q.key2, m.fold));
    if q.key1 != "" && a.Some? then Resolution(a.value.id, Exact1, 1.0)
    else if q.key2 != "" && b.Some? then Resolution(b.value.id, Exact2, 1.0)
    else match Fuzzy(m, q, ks, vs)
      case Some(r) => r
      case None => Resolution(newId, New, 0.0)
  }

  ghost predicate MatchesExactly1(q: Query, ks: seq<Known>) {
    exists k :: 0 <= k < |ks| && q.key1 != "" && ks[k].key1 == q.key1
  }

  ghost predicate MatchesExactly2(m: Matching, q: Query, ks: seq<Known>) {
    exists k :: 0 <= k < |ks| && q.key2 != "" && ks[k].key2 != "" && m.fold(ks[k].key2) == m.fold(q.key2)
  }

  /** Every variant belongs to a cached record. */
  ghost predicate NoOrphans(ks: seq<Known>, vs: seq<NameVariant>) {
    forall i :: 0 <= i < |vs| ==> FirstWhere(ks, HasId(vs[i].id)).Some?
  }

  /** Some name reaches the threshold and says more than nothing. */
  ghost predicate SomeNameReaches(m: Matching, q: Query, ks: seq<Known>, vs: seq<NameVariant>) {
    exists p: nat :: IsFirstMax(m, m.normalize(q.name), Entries(ks, vs), p)
                     && m.score(m.normalize(q.name), Entries(ks, vs)[p].name) >= m.threshold
  }

  lemma KeysDecide(m: Matching, q: Query, ks: seq<Known>)
    ensures q.key1 != "" && FirstWhere(ks, HasKey1(q.key1)).Some? <==> MatchesExactly1(q, ks)
    ensures q.key2 != "" && FirstWhere(ks, HasKey2(q.key2, m.fold)).Some? <==> MatchesExactly2(m, q, ks)
  {
    FirstWhereIsFirst(ks, HasKey1(q.key1));
    FirstWhereIsFirst(ks, HasKey2(q.key2, m.fold));
  }

  /** The first exact key beats the second, and both beat the name; the name decides exactly
      when one reaches the threshold, and is otherwise the first of the highest scores. */
  lemma ResolutionHasPrecedence(m: Matching, q: Query, ks: seq<Known>, vs: seq<NameVariant>, newId: string)
    requires NoOrphans(ks, vs)
    ensures var r := Resolve(m, q, ks, vs, newId);
      && (r.kind.Exact1? <==> MatchesExactly1(q, ks))
      && (r.kind.Exact2? <==> !MatchesExactly1(q, ks) && MatchesExactly2(m, q, ks))
      && (r.kind.FuzzyName? <==> !MatchesExactly1(q, ks) && !MatchesExactly2(m, q, ks)
                                 && q.name != "" && SomeNameReaches(m, q, ks, vs))
      && (r.kind.FuzzyName? ==>
            exists p: nat :: && IsFirstMax(m, m.normalize(q.name), Entries(ks, vs), p)
                             && Entries(ks, vs)[p].owner.Some? && r.id == Entries(ks, vs)[p].owner.value.id
                             && r.confidence == m.score(m.normalize(q.name), Entries(ks, vs)[p].name))
      && (r.kind.New? ==> r == Resolution(newId, New, 0.0))
      && (r.kind.Exact1? ==>
            exists k :: FirstMatch(ks, HasKey1(q.key1), k) && r == Resolution(ks[k].id, Exact1, 1.0))
      && (r.kind.Exact2? ==>
            exists k :: FirstMatch(ks, HasKey2(q.key2, m.fold), k) && r == Resolution(ks[k].id, Exact2, 1.0))
  {
    KeysDecide(m, q, ks);
    FirstMatchFound(ks, HasKey1(q.key1));
    FirstMatchFound(ks, HasKey2(q.key2, m.fold));
    FuzzyDecides(m, q, ks, vs);
  }

  lemma FirstMaxIsUnique(m: Matching, q: string, es: seq<Entry>, p: nat, p': nat)
    requires IsFirstMax(m, q, es, p) && IsFirstMax(m, q, es, p')
    ensures p == p'
  {
  }

  lemma FuzzyDecides(m: Matching, q: Query, ks: seq<Known>, vs: seq<NameVariant>)
    requires NoOrphans(ks, vs)
    ensures Fuzzy(m, q, ks, vs).Some? <==> q.name != "" && SomeNameReaches(m, q, ks, vs)
    ensures Fuzzy(m, q, ks, vs).Some? ==>
              var r, es := Fuzzy(m, q, ks, vs).value, Entries(ks, vs);
              && r.kind == FuzzyName
              && exists p: nat :: && IsFirstMax(m, m.normalize(q.name), es, p)
                                  && es[p].owner.Some? && r.id == es[p].owner.value.id
                                  && r.confidence == m.score(m.normalize(q.name), es[p].name)
  {
    var es, n := Entries(ks, vs), m.normalize(q.name);
    BestIsTheFirstMax(m, n, es);
    if !NoneScores(m, n, es) {
      var p: nat :| IsFirstMax(m, n, es, p) && BestOf(m, n, es).score == m.score(n, es[p].name)
                    && (es[p].owner.Some? ==> BestOf(m, n, es).match_ == es[p].owner);
      assert es[p].owner.Some?;
      if SomeNameReaches(m, q, ks, vs) {
        var p': nat :| IsFirstMax(m, n, es, p') && m.score(n, es[p'].name) >= m.threshold;
        FirstMaxIsUnique(m, n, es, p, p');
      }
    }
  }

  // ------------------------------------------------------ the same in plain words

  /** The first record with this first key; an empty key matches nothing. */
  ghost predicate FirstWithKey1(ks: seq<Known>, key: string, k: nat) {
    k < |ks| && key != "" && ks[k].key1 == key && forall i :: 0 <= i < k ==> ks[i].key1 != key
  }

  ghost predicate FirstWithKey2(m: Matching, ks: seq<Known>, key: string, k: nat) {
    && k < |ks| && key != "" && ks[k].key2 != "" && m.fold(ks[k].key2) == m.fold(key)
    && forall i :: 0 <= i < k ==> ks[i].key2 == "" || m.fold(ks[i].key2) != m.fold(key)
  }

  /** All names known: the records' own, then the variants, each with the id of its record. */
  ghost function NameAt(ks: seq<Known>, vs: seq<NameVariant>, p: nat): string
    requires p < |ks| + |vs|
  {
    if p < |ks| then ks[p].name else vs[p - |ks|].name
  }

  ghost function IdAt(ks: seq<Known>, vs: seq<NameVariant>, p: nat): string
    requires p < |ks| + |vs|
  {
    if p < |ks| then ks[p].id else vs[p - |ks|].id
  }

  /** The first name with the highest score, and that score is more than nothing. */
  ghost predicate BestName(m: Matching, query: string, ks: seq<Known>, vs: seq<NameVariant>, p: nat) {
    && p < |ks| + |vs| && NameAt(ks, vs, p) != "" && m.score(query, NameAt(ks, vs, p)) > 0.0
    && (forall i: nat :: i < |ks| + |vs| && NameAt(ks, vs, i) != "" ==>
          m.score(query, NameAt(ks, vs, i)) <= m.score(query, NameAt(ks, vs, p)))
    && (forall i: nat :: i < p && NameAt(ks, vs, i) != "" ==>
          m.score(query, NameAt(ks, vs, i)) < m.score(query, NameAt(ks, vs, p)))
  }

  ghost predicate VariantsHaveRecords(ks: seq<Known>, vs: seq<NameVariant>) {
    forall i :: 0 <= i < |vs| ==> Cached(ks, vs[i].id)
  }

  lemma FoundIfCached(ks: seq<Known>, id: string)
    ensures FirstWhere(ks, HasId(id)).Some? <==> Cached(ks, id)
    ensures FirstWhere(ks, HasId(id)).Some? ==> FirstWhere(ks, HasId(id)).value.id == id
  {
    FirstWhereIsFirst(ks, HasId(id));
    if Cached(ks, id) {
      var k :| 0 <= k < |ks| && ks[k].id == id;
      assert HasId(id)(ks[k]);
    }
  }

  lemma NoOrphansIs(ks: seq<Known>, vs: seq<NameVariant>)
    ensures NoOrphans(ks, vs) <==> VariantsHaveRecords(ks, vs)
  {
    forall i | 0 <= i < |vs| ensures FirstWhere(ks, HasId(vs[i].id)).Some? <==> Cached(ks, vs[i].id) {
      FoundIfCached(ks, vs[i].id);
    }
  }

  lemma EntryIs(ks: seq<Known>, vs: seq<NameVariant>, p: nat)
    requires p < |ks| + |vs| && NoOrphans(ks, vs)
    ensures |Entries(ks, vs)| == |ks| + |vs| && Entries(ks, vs)[p].name == NameAt(ks, vs, p)
    ensures Entries(ks, vs)[p].owner.Some? && Entries(ks, vs)[p].owner.value.id == IdAt(ks, vs, p)
  {
    if p >= |ks| {
      assert FirstWhere(ks, HasId(vs[p - |ks|].id)).Some?;
      FoundIfCached(ks, vs[p - |ks|].id);
    }
  }

  lemma BestNameIs(m: Matching, query: string, ks: seq<Known>, vs: seq<NameVariant>, p: nat)
    requires NoOrphans(ks, vs)
    ensures IsFirstMax(m, query, Entries(ks, vs), p) <==> BestName(m, query, ks, vs, p)
  {
    forall i: nat | i < |ks| + |vs| ensures Entries(ks, vs)[i].name == NameAt(ks, vs, i) { EntryIs(ks, vs, i); }
  }

  lemma Key1Decides(q: Query, ks: seq<Known>, k: nat)
    requires FirstWithKey1(ks, q.key1, k)
    ensures FirstWhere(ks, HasKey1(q.key1)) == Some(ks[k])
  {
    FirstWhereAt(ks, HasKey1(q.key1), k);
  }

  lemma Key2Decides(m: Matching, q: Query, ks: seq<Known>, k: nat)
    requires FirstWithKey2(m, ks, q.key2, k)
    ensures FirstWhere(ks, HasKey2(q.key2, m.fold)) == Some(ks[k])
  {
    FirstWhereAt(ks, HasKey2(q.key2, m.fold), k);
  }

  lemma NoKeyDecides(m: Matching, q: Query, ks: seq<Known>)
    ensures MatchesExactly1(q, ks) ==> exists k: nat :: FirstWithKey1(ks, q.key1, k)
    ensures MatchesExactly2(m, q, ks) ==> exists k: nat :: FirstWithKey2(m, ks, q.key2, k)
  {
    KeysDecide(m, q, ks);
    FirstMatchFound(ks, HasKey1(q.key1));
    FirstMatchFound(ks, HasKey2(q.key2, m.fold));
    if MatchesExactly1(q, ks) {
      var k: nat :| FirstMatch(ks, HasKey1(q.key1), k);
      assert FirstWithKey1(ks, q.key1, k);
    }
    if MatchesExactly2(m, q, ks) {
      var k: nat :| FirstMatch(ks, HasKey2(q.key2, m.fold), k);
      assert FirstWithKey2(m, ks, q.key2, k);
    }
  }

  ghost predicate NoKeyMatches(m: Matching, q: Query, ks: seq<Known>) {
    && (forall k: nat :: !FirstWithKey1(ks, q.key1, k))
    && (forall k: nat :: !FirstWithKey2(m, ks, q.key2, k))
  }

  /** The exact keys: the first record with the first key, else the first with the second. */
  lemma KeysInWords(m: Matching, q: Query, ks: seq<Known>, vs: seq<NameVariant>, newId: string, k: nat)
    ensures FirstWithKey1(ks, q.key1, k) ==> Resolve(m, q, ks, vs, newId) == Resolution(ks[k].id, Exact1, 1.0)
    ensures FirstWithKey2(m, ks, q.key2, k) && (forall i: nat :: !FirstWithKey1(ks, q.key1, i)) ==>
              Resolve(m, q, ks, vs, newId) == Resolution(ks[k].id, Exact2, 1.0)
  {
    NoKeyDecides(m, q, ks);
    KeysDecide(m, q, ks);
    if FirstWithKey1(ks, q.key1, k) { Key1Decides(q, ks, k); }
    if FirstWithKey2(m, ks, q.key2, k) { Key2Decides(m, q, ks, k); }
  }

  /** Without a key that matches, and with a record for every variant: the record behind the
      first best name, if that reaches the threshold, and otherwise a new one. */
  lemma NamesInWords(m: Matching, q: Query, ks: seq<Known>, vs: seq<NameVariant>, newId: string)
    requires VariantsHaveRecords(ks, vs) && NoKeyMatches(m, q, ks)
    ensures var r, query := Resolve(m, q, ks, vs, newId), m.normalize(q.name);
      if q.name != "" && exists p: nat :: && BestName(m, query, ks, vs, p)
                                          && m.score(query, NameAt(ks, vs, p)) >= m.threshold
      then exists p: nat :: BestName(m, query, ks, vs, p)
                            && r == Resolution(IdAt(ks, vs, p), FuzzyName, m.score(query, NameAt(ks, vs, p)))
      else r == Resolution(newId, New, 0.0)
  {
    var r, query, es := Resolve(m, q, ks, vs, newId), m.normalize(q.name), Entries(ks, vs);
    NoOrphansIs(ks, vs);
    NoKeyDecides(m, q, ks);
    ResolutionHasPrecedence(m, q, ks, vs, newId);
    forall p: nat | p < |ks| + |vs|
      ensures es[p].name == NameAt(ks, vs, p)
      ensures es[p].owner.Some? && es[p].owner.value.id == IdAt(ks, vs, p)
      ensures IsFirstMax(m, query, es, p) <==> BestName(m, query, ks, vs, p)
    {
      EntryIs(ks, vs, p);
      BestNameIs(m, query, ks, vs, p);
    }
  }

  function Halves(): Matching {
    Matching((s: string) => s, (s: string) => s, (a: string, b: string) => if a == b then 1.0 else 0.5, 0.85)
  }

  /** A variant whose record is not cached lends its score to another record: one that by
      its own name would not reach the threshold is returned, at full score. */
  lemma OrphansMisattribute()
    ensures var ks, vs := [Known("c1", "", "", "ACME")], [NameVariant("gone", "ZENITH")];
      && Resolve(Halves(), Query("", "", "ZENITH"), ks, vs, "n") == Resolution("c1", FuzzyName, 1.0)
      && Resolve(Halves(), Query("", "", "ZENITH"), ks, [], "n") == Resolution("n", New, 0.0)
  {
    var m := Halves();
    var c := Known("c1", "", "", "ACME");
    var ks, vs := [c], [NameVariant("gone", "ZENITH")];
    assert |"ACME"| == 4 && |"ZENITH"| == 6 && |"c1"| == 2 && |"gone"| == 4;
    FirstWhereIsFirst(ks, HasId("gone"));
    var e, f := Entry("ACME", Some(c)), Entry("ZENITH", None);
    assert Entries(ks, []) == [e];
    assert Entries(ks, vs) == [e, f];
    assert [e][..0] == [];
    assert [e, f][..1] == [e];
    assert BestOf(m, "ZENITH", [e]) == Best(0.5, Some(c));
  }

  // ------------------------------------------------------------------ a whole batch

  datatype Invoice = Invoice(buyer: Query, items: seq<Query>, confidence: real)

  /** What one run has found: dictionaries by id and counters. */
  datatype Found = Found(resolved: map<string, Resolution>, matched: nat, created: nat)

  predicate Provisional(r: Resolution) {
    r.kind.New?
  }

  function NewIds(resolved: map<string, Resolution>): set<string> {
    set id | id in resolved && Provisional(resolved[id])
  }

  function Record(f: Found, r: Resolution): Found {
    Found(f.resolved[r.id := r], f.matched + (if Provisional(r) then 0 else 1),
        f.created + (if Provisional(r) then 1 else 0))
  }

  /** The counters and the dictionary after these resolutions. */
  function RecordAll(f: Found, rs: seq<Resolution>): Found {
    if rs == [] then f else Record(RecordAll(f, rs[..|rs| - 1]), rs[|rs| - 1])
  }

  const NOTHING := Found(map[], 0, 0)

  /** The ids for provisional records are all different, and new to the cache. */
  ghost predicate FreshIds(ids: nat -> string, ks: seq<Known>) {
    && (forall i: nat, j: nat :: i < j ==> ids(i) != ids(j))
    && (forall i: nat :: !Cached(ks, ids(i)))
  }

  predicate Cached(ks: seq<Known>, id: string) {
    exists k :: 0 <= k < |ks| && ks[k].id == id
  }

  lemma ResolvedIsKnownOrNew(m: Matching, q: Query, ks: seq<Known>, vs: seq<NameVariant>, newId: string)
    ensures var r := Resolve(m, q, ks, vs, newId);
      if r.kind.New? then r.id == newId else Cached(ks, r.id)
  {
    FirstWhereIsFirst(ks, HasKey1(q.key1));
    FirstWhereIsFirst(ks, HasKey2(q.key2, m.fold));
    MatchIsKnown(m, m.normalize(q.name), ks, vs, Entries(ks, vs));
  }

  lemma {:induction false} MatchIsKnown(m: Matching, q: string, ks: seq<Known>, vs: seq<NameVariant>, es: seq<Entry>)
    requires es <= Entries(ks, vs)
    ensures BestOf(m, q, es).match_.Some? ==> exists k :: 0 <= k < |ks| && ks[k] == BestOf(m, q, es).match_.value
  {
    if es != [] {
      var n := |es| - 1;
      MatchIsKnown(m, q, ks, vs, es[..n]);
      assert es[n] == Entries(ks, vs)[n];
      if n >= |ks| { FirstWhereIsFirst(ks, HasId(vs[n - |ks|].id)); }
    }
  }

  lemma NewIdsAfter(resolved: map<string, Resolution>, r: Resolution)
    requires Provisional(r) ==> r.id !in resolved
    requires !Provisional(r) ==> !(r.id in resolved && Provisional(resolved[r.id]))
    ensures |NewIds(resolved[r.id := r])| == |NewIds(resolved)| + if Provisional(r) then 1 else 0
  {
    if Provisional(r) {
      assert NewIds(resolved[r.id := r]) == NewIds(resolved) + {r.id};
    } else {
      assert NewIds(resolved[r.id := r]) == NewIds(resolved);
    }
  }

  lemma {:induction false} RecordConcat(f: Found, a: seq<Resolution>, b: seq<Resolution>)
    ensures RecordAll(f, a + b) == RecordAll(RecordAll(f, a), b)
  {
    if b == [] {
      assert a + b == a;
    } else {
      RecordConcat(f, a, b[..|b| - 1]);
      assert (a + b)[..|a + b| - 1] == a + b[..|b| - 1];
    }
  }

  lemma RecordSnoc(f: Found, rs: seq<Resolution>, r: Resolution)
    ensures RecordAll(f, rs + [r]) == Record(RecordAll(f, rs), r)
  {
    assert (rs + [r])[..|rs|] == rs;
  }

  function NewCount(rs: seq<Resolution>): nat {
    if rs == [] then 0 else NewCount(rs[..|rs| - 1]) + if Provisional(rs[|rs| - 1]) then 1 else 0
  }

  /** The last resolution under this id. */
  ghost predicate LastUnder(rs: seq<Resolution>, id: string, r: Resolution) {
    exists k :: 0 <= k < |rs| && rs[k] == r && r.id == id && forall l :: k < l < |rs| ==> rs[l].id != id
  }

  /** The counters count these resolutions, and the dictionary holds each under its id, the
      last one if several have it, and nothing else. */
  ghost predicate Tallied(f: Found, rs: seq<Resolution>) {
    && f.created == NewCount(rs) && f.matched + f.created == |rs|
    && (forall k :: 0 <= k < |rs| ==> rs[k].id in f.resolved)
    && (forall id :: id in f.resolved ==> LastUnder(rs, id, f.resolved[id]))
  }

  lemma TallyOneMore(f: Found, rs: seq<Resolution>, r: Resolution)
    requires Tallied(f, rs)
    ensures Tallied(Record(f, r), rs + [r])
  {
    var g, all := Record(f, r), rs + [r];
    assert all[..|rs|] == rs;
    forall id | id in g.resolved ensures LastUnder(all, id, g.resolved[id]) {
      if id == r.id {
        assert all[|rs|] == r;
      } else {
        var k :| 0 <= k < |rs| && rs[k] == f.resolved[id] && rs[k].id == id
                 && forall l :: k < l < |rs| ==> rs[l].id != id;
        assert all[k] == rs[k];
      }
    }
  }

  lemma {:induction false} RecordAllTallies(rs: seq<Resolution>)
    ensures Tallied(RecordAll(NOTHING, rs), rs)
  {
    if rs != [] {
      var n := |rs| - 1;
      RecordAllTallies(rs[..n]);
      TallyOneMore(RecordAll(NOTHING, rs[..n]), rs[..n], rs[n]);
      assert rs[..n] + [rs[n]] == rs;
    }
  }

  /** A new record shares its id with no other resolution and with no cached record; all
      others are cached. */
  ghost predicate NewApart(rs: seq<Resolution>, ks: seq<Known>) {
    && (forall i, j :: 0 <= i < |rs| && 0 <= j < |rs| && i != j && Provisional(rs[i]) ==> rs[j].id != rs[i].id)
    && (forall i :: 0 <= i < |rs| ==> (Provisional(rs[i]) <==> !Cached(ks, rs[i].id)))
  }

  /** So the dictionary holds as many new records as were created. */
  lemma {:induction false} CreatedAreInTheDictionary(rs: seq<Resolution>, ks: seq<Known>)
    requires NewApart(rs, ks)
    ensures var f := RecordAll(NOTHING, rs); |NewIds(f.resolved)| == f.created
  {
    if rs == [] {
      assert NewIds(map[]) == {};
    } else {
      var n := |rs| - 1;
      assert forall i :: 0 <= i < n ==> rs[..n][i] == rs[i];
      CreatedAreInTheDictionary(rs[..n], ks);
      var f := RecordAll(NOTHING, rs[..n]);
      RecordAllTallies(rs[..n]);
      if rs[n].id in f.resolved {
        var k :| 0 <= k < n && rs[..n][k] == f.resolved[rs[n].id] && rs[..n][k].id == rs[n].id;
      }
      NewIdsAfter(f.resolved, rs[n]);
    }
  }

  /** Query number ns[k] has led to rs[k]: a new record under the id drawn for that query, or
      a cached one. */
  ghost predicate Drawn(rs: seq<Resolution>, ns: seq<nat>, ids: nat -> string, ks: seq<Known>) {
    && |ns| == |rs|
    && forall k :: 0 <= k < |rs| ==>
         if Provisional(rs[k]) then rs[k].id == ids(ns[k]) else Cached(ks, rs[k].id)
  }

  predicate Rising(ns: seq<nat>, below: nat) {
    && (forall i, j :: 0 <= i < j < |ns| ==> ns[i] < ns[j])
    && (forall i :: 0 <= i < |ns| ==> ns[i] < below)
  }

  lemma DrawnAreApart(rs: seq<Resolution>, ns: seq<nat>, below: nat, ids: nat -> string, ks: seq<Known>)
    requires Drawn(rs, ns, ids, ks) && Rising(ns, below) && FreshIds(ids, ks)
    ensures NewApart(rs, ks)
  {
    forall i, j | 0 <= i < |rs| && 0 <= j < |rs| && i != j && Provisional(rs[i]) ensures rs[j].id != rs[i].id {
      assert !Cached(ks, ids(ns[i]));
      if i < j { assert ids(ns[i]) != ids(ns[j]); } else { assert ids(ns[j]) != ids(ns[i]); }
    }
  }

  // ------------------------------------------------------------ overall confidence

  function SumOf(xs: seq<real>): real {
    if xs == [] then 0.0 else SumOf(xs[..|xs| - 1]) + xs[|xs| - 1]
  }

  /** `round(x, 4)`: to the nearest, and from the middle to the even one. */
  function Round4(x: real): real {
    var f := (x * 10000.0).Floor;
    var d := x * 10000.0 - f as real;
    (if d < 0.5 || (d == 0.5 && f % 2 == 0) then f else f + 1) as real / 10000.0
  }

  function Overall(partial: real, scores: seq<real>): real
    requires scores != []
  {
    var total := partial + SumOf(scores) / |scores| as real * 0.15;
    Round4(if total < 1.0 then total else 1.0)
  }

  lemma {:induction false} SumOfShares(xs: seq<real>)
    requires forall i :: 0 <= i < |xs| ==> 0.0 <= xs[i] <= 1.0
    ensures 0.0 <= SumOf(xs) <= |xs| as real
  {
    if xs != [] { SumOfShares(xs[..|xs| - 1]); }
  }

  lemma AverageOfShares(xs: seq<real>)
    requires xs != [] && forall i :: 0 <= i < |xs| ==> 0.0 <= xs[i] <= 1.0
    ensures 0.0 <= SumOf(xs) / |xs| as real <= 1.0
  {
    SumOfShares(xs);
    var n := |xs| as real;
    assert SumOf(xs) / n <= n / n;
  }

  /** Rounding goes to the nearest ten-thousandth, and from the middle to the even one. */
  lemma Round4Exactly(x: real) returns (n: int)
    ensures Round4(x) == n as real / 10000.0
    ensures var d := x * 10000.0 - n as real; -0.5 < d < 0.5 || ((d == 0.5 || d == -0.5) && n % 2 == 0)
  {
    var f := (x * 10000.0).Floor;
    var d := x * 10000.0 - f as real;
    n := if d < 0.5 || (d == 0.5 && f % 2 == 0) then f else f + 1;
  }

  lemma Round4IsNear(x: real)
    ensures -0.00005 <= Round4(x) - x <= 0.00005
    ensures 0.0 <= x <= 1.0 ==> 0.0 <= Round4(x) <= 1.0
  {
    var y := x * 10000.0;
    var f := y.Floor;
    assert f as real <= y < (f + 1) as real;
    var r := Round4(x) * 10000.0;
    assert y - 0.5 <= r <= y + 0.5;
  }

  /** Overall confidence is a share for any partial confidence from zero up; with the partial
      confidence phase 4 can give, the cap never binds and only rounding separates the result
      from partial confidence plus fifteen hundredths of the average match. */
  lemma OverallIsAShare(partial: real, scores: seq<real>)
    requires 0.0 <= partial && scores != [] && forall i :: 0 <= i < |scores| ==> 0.0 <= scores[i] <= 1.0
    ensures 0.0 <= Overall(partial, scores) <= 1.0
    ensures partial <= 0.85 ==>
              var exact := partial + SumOf(scores) / |scores| as real * 0.15;
              exact <= 1.0 && -0.00005 <= Overall(partial, scores) - exact <= 0.00005
  {
    AverageOfShares(scores);
    var total := partial + SumOf(scores) / |scores| as real * 0.15;
    Round4IsNear(if total < 1.0 then total else 1.0);
  }

  lemma ConfidenceIsAShare(m: Matching, q: Query, ks: seq<Known>, vs: seq<NameVariant>, newId: string)
    requires ScoresAreShares(m)
    ensures 0.0 <= Resolve(m, q, ks, vs, newId).confidence <= 1.0
  {
    var es := Entries(ks, vs);
    BestIsTheFirstMax(m, m.normalize(q.name), es);
  }

  // ------------------------------------------------------------------ the resolver

  datatype ResolvedInvoice = ResolvedInvoice(buyer: Resolution, items: seq<Resolution>, overall: real)

  datatype Caches = Caches(customers: seq<Known>, customerVariants: seq<NameVariant>,
                           products: seq<Known>, productVariants: seq<NameVariant>)

  function Confidences(rs: seq<Resolution>): seq<real> {
    seq(|rs|, i requires 0 <= i < |rs| => rs[i].confidence)
  }

  lemma BestSnoc(m: Matching, q: string, es: seq<Entry>, i: nat)
    requires i < |es|
    ensures BestOf(m, q, es[..i + 1]) == Better(m, q, BestOf(m, q, es[..i]), es[i])
  {
    assert es[..i + 1][..i] == es[..i];
  }

  /** The first n items are resolved, one by one; query j would draw the id number from + j. */
  ghost predicate ItemsResolved(m: Matching, ks: seq<Known>, vs: seq<NameVariant>, items: seq<Query>, n: nat,
                                ids: nat -> string, from: nat, rs: seq<Resolution>)
    requires n <= |items|
  {
    |rs| == n && forall j :: 0 <= j < n ==> rs[j] == Resolve(m, items[j], ks, vs, ids(from + j))
  }

  lemma ItemOneMore(m: Matching, ks: seq<Known>, vs: seq<NameVariant>, items: seq<Query>, n: nat, ids: nat -> string,
                    from: nat, rs: seq<Resolution>)
    requires n < |items| && ItemsResolved(m, ks, vs, items, n, ids, from, rs)
    ensures ItemsResolved(m, ks, vs, items, n + 1, ids, from, rs + [Resolve(m, items[n], ks, vs, ids(from + n))])
  {
  }

  /** An invoice is resolved by what its buyer and its line items resolve to. */
  ghost predicate InvoiceResolved(cm: Matching, pm: Matching, c: Caches, inv: Invoice, ids: nat -> string, from: nat,
                                  r: ResolvedInvoice) {
    && r.buyer == Resolve(cm, inv.buyer, c.customers, c.customerVariants, ids(from))
    && ItemsResolved(pm, c.products, c.productVariants, inv.items, |inv.items|, ids, from + 1, r.items)
    && r.overall == Overall(inv.confidence, [r.buyer.confidence] + Confidences(r.items))
  }

  function ItemTotal(invoices: seq<Invoice>, n: nat): nat
    requires n <= |invoices|
  {
    if n == 0 then 0 else ItemTotal(invoices, n - 1) + |invoices[n - 1].items|
  }

  /** How many queries come before those of invoice n. */
  function Start(invoices: seq<Invoice>, n: nat): nat
    requires n <= |invoices|
  {
    n + ItemTotal(invoices, n)
  }

  /** The first n invoices are resolved, one by one. */
  ghost predicate BatchResolved(cm: Matching, pm: Matching, c: Caches, invoices: seq<Invoice>, n: nat,
                                ids: nat -> string, rs: seq<ResolvedInvoice>)
    requires n <= |invoices|
  {
    |rs| == n && forall i :: 0 <= i < n ==> InvoiceResolved(cm, pm, c, invoices[i], ids, Start(invoices, i), rs[i])
  }

  lemma BatchOneMore(cm: Matching, pm: Matching, c: Caches, invoices: seq<Invoice>, n: nat, ids: nat -> string,
                     rs: seq<ResolvedInvoice>, r: ResolvedInvoice)
    requires n < |invoices| && BatchResolved(cm, pm, c, invoices, n, ids, rs)
    requires InvoiceResolved(cm, pm, c, invoices[n], ids, Start(invoices, n), r)
    ensures BatchResolved(cm, pm, c, invoices, n + 1, ids, rs + [r])
  {
  }

  function Buyers(rs: seq<ResolvedInvoice>): seq<Resolution> {
    seq(|rs|, i requires 0 <= i < |rs| => rs[i].buyer)
  }

  /** The items of all invoices, one invoice after the other. */
  function ItemsOf(rs: seq<ResolvedInvoice>): seq<Resolution> {
    if rs == [] then [] else ItemsOf(rs[..|rs| - 1]) + rs[|rs| - 1].items
  }

  lemma OneMoreInvoice(rs: seq<ResolvedInvoice>, r: ResolvedInvoice)
    ensures Buyers(rs + [r]) == Buyers(rs) + [r.buyer] && ItemsOf(rs + [r]) == ItemsOf(rs) + r.items
  {
    assert (rs + [r])[..|rs|] == rs;
  }

  lemma RecordInvoice(rs: seq<ResolvedInvoice>, r: ResolvedInvoice)
    ensures RecordAll(NOTHING, Buyers(rs + [r])) == Record(RecordAll(NOTHING, Buyers(rs)), r.buyer)
    ensures RecordAll(NOTHING, ItemsOf(rs + [r])) == RecordAll(RecordAll(NOTHING, ItemsOf(rs)), r.items)
  {
    OneMoreInvoice(rs, r);
    RecordSnoc(NOTHING, Buyers(rs), r.buyer);
    RecordConcat(NOTHING, ItemsOf(rs), r.items);
  }

  function From(from: nat, n: nat): seq<nat> {
    seq(n, j requires j >= 0 => from + j)
  }

  lemma ItemsAreDrawn(m: Matching, ks: seq<Known>, vs: seq<NameVariant>, qs: seq<Query>, ids: nat -> string, from: nat,
                      rs: seq<Resolution>)
    requires ItemsResolved(m, ks, vs, qs, |qs|, ids, from, rs)
    ensures Drawn(rs, From(from, |qs|), ids, ks)
  {
    forall j | 0 <= j < |qs| { ResolvedIsKnownOrNew(m, qs[j], ks, vs, ids(from + j)); }
  }

  lemma DrawnConcat(a: seq<Resolution>, ns: seq<nat>, below: nat, b: seq<Resolution>, from: nat, all: seq<Resolution>,
                    ids: nat -> string, ks: seq<Known>) returns (ms: seq<nat>)
    requires Drawn(a, ns, ids, ks) && Rising(ns, below) && below <= from && Drawn(b, From(from, |b|), ids, ks)
    requires all == a + b
    ensures Drawn(all, ms, ids, ks) && Rising(ms, from + |b|)
  {
    ms := ns + From(from, |b|);
  }

  lemma {:induction false} StartsRise(invoices: seq<Invoice>, i: nat, n: nat)
    requires i < n <= |invoices|
    ensures Start(invoices, i) < Start(invoices, n)
  {
    if i < n - 1 { StartsRise(invoices, i, n - 1); }
  }

  lemma BuyersAreDrawn(cm: Matching, pm: Matching, c: Caches, invoices: seq<Invoice>, ids: nat -> string,
                       rs: seq<ResolvedInvoice>) returns (ns: seq<nat>)
    requires BatchResolved(cm, pm, c, invoices, |invoices|, ids, rs)
    ensures Drawn(Buyers(rs), ns, ids, c.customers) && Rising(ns, Start(invoices, |invoices|))
  {
    ns := seq(|invoices|, i requires 0 <= i < |invoices| => Start(invoices, i));
    forall i, j | 0 <= i < j < |ns| ensures ns[i] < ns[j] { StartsRise(invoices, i, j); }
    forall i | 0 <= i < |ns| ensures ns[i] < Start(invoices, |invoices|) { StartsRise(invoices, i, |invoices|); }
    forall i | 0 <= i < |rs|
      ensures if Provisional(rs[i].buyer) then rs[i].buyer.id == ids(ns[i]) else Cached(c.customers, rs[i].buyer.id)
    {
      assert InvoiceResolved(cm, pm, c, invoices[i], ids, Start(invoices, i), rs[i]);
      ResolvedIsKnownOrNew(cm, invoices[i].buyer, c.customers, c.customerVariants, ids(ns[i]));
    }
  }

  lemma InvoiceIsDrawn(cm: Matching, pm: Matching, c: Caches, inv: Invoice, ids: nat -> string, from: nat,
                       r: ResolvedInvoice)
    requires InvoiceResolved(cm, pm, c, inv, ids, from, r)
    ensures |r.items| == |inv.items| && Drawn(r.items, From(from + 1, |r.items|), ids, c.products)
  {
    ItemsAreDrawn(pm, c.products, c.productVariants, inv.items, ids, from + 1, r.items);
  }

  /** The first n invoices draw for their items in order. */
  ghost predicate DrawnInOrder(rs: seq<ResolvedInvoice>, invoices: seq<Invoice>, n: nat, ids: nat -> string,
                               ks: seq<Known>)
    requires n <= |invoices|
  {
    && |rs| == n
    && forall i :: 0 <= i < n ==>
         && |rs[i].items| == |invoices[i].items|
         && Drawn(rs[i].items, From(Start(invoices, i) + 1, |rs[i].items|), ids, ks)
  }

  lemma AllButTheLast(rs: seq<ResolvedInvoice>, invoices: seq<Invoice>, n: nat, ids: nat -> string, ks: seq<Known>)
    requires 0 < n <= |invoices| && DrawnInOrder(rs, invoices, n, ids, ks)
    ensures DrawnInOrder(rs[..n - 1], invoices, n - 1, ids, ks)
    ensures Drawn(rs[n - 1].items, From(Start(invoices, n - 1) + 1, |rs[n - 1].items|), ids, ks)
    ensures Start(invoices, n - 1) + 1 + |rs[n - 1].items| == Start(invoices, n)
    ensures ItemsOf(rs) == ItemsOf(rs[..n - 1]) + rs[n - 1].items
  {
  }

  lemma ItemsOneMore(rs: seq<ResolvedInvoice>, invoices: seq<Invoice>, n: nat, ids: nat -> string, ks: seq<Known>,
                     earlier: seq<nat>) returns (ns: seq<nat>)
    requires 0 < n <= |invoices| && DrawnInOrder(rs, invoices, n, ids, ks)
    requires Drawn(ItemsOf(rs[..n - 1]), earlier, ids, ks) && Rising(earlier, Start(invoices, n - 1))
    ensures Drawn(ItemsOf(rs), ns, ids, ks) && Rising(ns, Start(invoices, n))
  {
    var from := Start(invoices, n - 1);
    AllButTheLast(rs, invoices, n, ids, ks);
    ns := DrawnConcat(ItemsOf(rs[..n - 1]), earlier, from, rs[n - 1].items, from + 1, ItemsOf(rs), ids, ks);
  }

  lemma {:induction false} ItemsOfAreDrawn(rs: seq<ResolvedInvoice>, invoices: seq<Invoice>, n: nat,
                                           ids: nat -> string, ks: seq<Known>) returns (ns: seq<nat>)
    requires n <= |invoices| && DrawnInOrder(rs, invoices, n, ids, ks)
    ensures Drawn(ItemsOf(rs), ns, ids, ks) && Rising(ns, Start(invoices, n))
  {
    if n == 0 {
      ns := [];
    } else {
      var earlier := ItemsOfAreDrawn(rs[..n - 1], invoices, n - 1, ids, ks);
      ns := ItemsOneMore(rs, invoices, n, ids, ks, earlier);
    }
  }

  lemma BatchIsDrawn(cm: Matching, pm: Matching, c: Caches, invoices: seq<Invoice>, ids: nat -> string,
                     rs: seq<ResolvedInvoice>)
    requires BatchResolved(cm, pm, c, invoices, |invoices|, ids, rs)
    ensures DrawnInOrder(rs, invoices, |invoices|, ids, c.products)
  {
    forall i | 0 <= i < |rs| { InvoiceIsDrawn(cm, pm, c, invoices[i], ids, Start(invoices, i), rs[i]); }
  }

  lemma {:induction false} ItemsAddUp(rs: seq<ResolvedInvoice>, invoices: seq<Invoice>, n: nat)
    requires |rs| == n <= |invoices| && forall i :: 0 <= i < n ==> |rs[i].items| == |invoices[i].items|
    ensures |ItemsOf(rs)| == ItemTotal(invoices, n)
  {
    if n > 0 { ItemsAddUp(rs[..n - 1], invoices, n - 1); }
  }

  /** Over a whole batch every new record has an id of its own, for customers and products. */
  lemma NewRecordsAreApart(cm: Matching, pm: Matching, c: Caches, invoices: seq<Invoice>, ids: nat -> string,
                           rs: seq<ResolvedInvoice>)
    requires FreshIds(ids, c.customers) && FreshIds(ids, c.products)
    requires BatchResolved(cm, pm, c, invoices, |invoices|, ids, rs)
    ensures NewApart(Buyers(rs), c.customers) && NewApart(ItemsOf(rs), c.products)
    ensures |Buyers(rs)| == |invoices| && |ItemsOf(rs)| == ItemTotal(invoices, |invoices|)
  {
    var bs := BuyersAreDrawn(cm, pm, c, invoices, ids, rs);
    DrawnAreApart(Buyers(rs), bs, Start(invoices, |invoices|), ids, c.customers);
    BatchIsDrawn(cm, pm, c, invoices, ids, rs);
    var ps := ItemsOfAreDrawn(rs, invoices, |invoices|, ids, c.products);
    DrawnAreApart(ItemsOf(rs), ps, Start(invoices, |invoices|), ids, c.products);
    ItemsAddUp(rs, invoices, |rs|);
  }

  /** The best after all canonical names and the first n variants. */
  function BestVariants(m: Matching, q: string, ks: seq<Known>, vs: seq<NameVariant>, n: nat): Best
    requires n <= |vs|
  {
    if n == 0 then BestOf(m, q, Canonical(ks))
    else Better(m, q, BestVariants(m, q, ks, vs, n - 1), Entry(vs[n - 1].name, FirstWhere(ks, HasId(vs[n - 1].id))))
  }

  lemma VariantAt(ks: seq<Known>, vs: seq<NameVariant>, i: nat)
    requires i < |vs|
    ensures |Entries(ks, vs)| == |ks| + |vs|
    ensures Entries(ks, vs)[|ks| + i] == Entry(vs[i].name, FirstWhere(ks, HasId(vs[i].id)))
  {
  }

  lemma CanonicalFirst(ks: seq<Known>, vs: seq<NameVariant>)
    ensures |Entries(ks, vs)| == |ks| + |vs| && Entries(ks, vs)[..|ks|] == Canonical(ks)
  {
  }

  lemma {:induction false} VariantsFollow(m: Matching, q: string, ks: seq<Known>, vs: seq<NameVariant>,
                                          es: seq<Entry>, n: nat)
    requires n <= |vs| && |es| == |ks| + |vs| && es[..|ks|] == Canonical(ks)
    requires forall k :: |ks| <= k < |es| ==>
               es[k] == Entry(vs[k - |ks|].name, FirstWhere(ks, HasId(vs[k - |ks|].id)))
    ensures BestVariants(m, q, ks, vs, n) == BestOf(m, q, es[..|ks| + n])
  {
    if n > 0 {
      var k := |ks| + (n - 1);
      VariantsFollow(m, q, ks, vs, es, n - 1);
      BestSnoc(m, q, es, k);
      assert BestVariants(m, q, ks, vs, n) == Better(m, q, BestVariants(m, q, ks, vs, n - 1), es[k]) by {
        assert es[k] == Entry(vs[n - 1].name, FirstWhere(ks, HasId(vs[n - 1].id)));
      }
      assert es[..k + 1] == es[..|ks| + n];
    }
  }

  lemma VariantsComeAfter(m: Matching, q: string, ks: seq<Known>, vs: seq<NameVariant>)
    ensures BestVariants(m, q, ks, vs, |vs|) == BestOf(m, q, Entries(ks, vs))
  {
    var es := Entries(ks, vs);
    CanonicalFirst(ks, vs);
    forall k | |ks| <= k < |es|
      ensures es[k] == Entry(vs[k - |ks|].name, FirstWhere(ks, HasId(vs[k - |ks|].id)))
    {
      VariantAt(ks, vs, k - |ks|);
    }
    VariantsFollow(m, q, ks, vs, es, |vs|);
    assert es[..|ks| + |vs|] == es;
  }

  lemma FirstWhereAt(ks: seq<Known>, p: Known -> bool, i: nat)
    requires i < |ks| && p(ks[i]) && forall k :: 0 <= k < i ==> !p(ks[k])
    ensures FirstWhere(ks, p) == Some(ks[i])
  {
    FirstWhereIsFirst(ks, p);
  }

  class Resolver {
    const customerMatching: Matching
    const productMatching: Matching
    var caches: Caches

    constructor (customerMatching: Matching, productMatching: Matching)
      ensures this.customerMatching == customerMatching && this.productMatching == productMatching
    {
      this.customerMatching, this.productMatching := customerMatching, productMatching;
      caches := Caches([], [], [], []);
    }

    method FindFirst(ks: seq<Known>, p: Known -> bool) returns (r: Option<Known>)
      ensures r == FirstWhere(ks, p)
    {
      var i := 0;
      while i < |ks|
        invariant 0 <= i <= |ks| && forall k :: 0 <= k < i ==> !p(ks[k])
      {
        if p(ks[i]) {
          FirstWhereAt(ks, p, i);
          return Some(ks[i]);
        }
        i := i + 1;
      }
      FirstWhereIsFirst(ks, p);
      return None;
    }

    method BestCanonical(m: Matching, q: string, ks: seq<Known>) returns (score: real, match_: Option<Known>)
      ensures Best(score, match_) == BestOf(m, q, Canonical(ks))
    {
      ghost var es := Canonical(ks);
      score, match_ := 0.0, None;
      var i := 0;
      while i < |ks|
        invariant 0 <= i <= |ks| && Best(score, match_) == BestOf(m, q, es[..i])
      {
        BestSnoc(m, q, es, i);
        if ks[i].name != "" {
          var s := m.score(q, ks[i].name);
          if s > score {
            score, match_ := s, Some(ks[i]);
          }
        }
        i := i + 1;
      }
      assert es[..i] == es;
    }

    /** Canonical names, then variants, each raising the best so far. */
    method FindBest(m: Matching, q: string, ks: seq<Known>, vs: seq<NameVariant>)
      returns (score: real, match_: Option<Known>)
      ensures Best(score, match_) == BestOf(m, q, Entries(ks, vs))
    {
      score, match_ := BestCanonical(m, q, ks);
      var i := 0;
      while i < |vs|
        invariant 0 <= i <= |vs| && Best(score, match_) == BestVariants(m, q, ks, vs, i)
      {
        if vs[i].name != "" {
          var s := m.score(q, vs[i].name);
          if s > score {
            score := s;
            var owner := FindFirst(ks, HasId(vs[i].id));
            if owner.Some? {
              match_ := owner;
            }
          }
        }
        i := i + 1;
      }
      VariantsComeAfter(m, q, ks, vs);
      assert Entries(ks, vs)[..|ks| + |vs|] == Entries(ks, vs);
    }

    method ResolveOne(m: Matching, q: Query, ks: seq<Known>, vs: seq<NameVariant>, newId: string)
      returns (r: Resolution)
      ensures r == Resolve(m, q, ks, vs, newId)
    {
      if q.key1 != "" {
        var c := FindFirst(ks, HasKey1(q.key1));
        if c.Some? {
          return Resolution(c.value.id, Exact1, 1.0);
        }
      }
      if q.key2 != "" {
        var c := FindFirst(ks, HasKey2(q.key2, m.fold));
        if c.Some? {
          return Resolution(c.value.id, Exact2, 1.0);
        }
      }
      if q.name != "" {
        var score, match_ := FindBest(m, m.normalize(q.name), ks, vs);
        if match_.Some? && score >= m.threshold {
          return Resolution(match_.value.id, FuzzyName, score);
        }
      }
      return Resolution(newId, New, 0.0);
    }

    method ResolveItems(items: seq<Query>, ids: nat -> string, from: nat, found: Found)
      returns (resolved: seq<Resolution>, found': Found)
      ensures ItemsResolved(productMatching, caches.products, caches.productVariants, items, |items|, ids, from,
                            resolved)
      ensures found' == RecordAll(found, resolved)
    {
      resolved, found' := [], found;
      var j := 0;
      while j < |items|
        invariant 0 <= j <= |items| && found' == RecordAll(found, resolved)
        invariant ItemsResolved(productMatching, caches.products, caches.productVariants, items, j, ids, from,
                                resolved)
      {
        var r := ResolveOne(productMatching, items[j], caches.products, caches.productVariants, ids(from + j));
        RecordSnoc(found, resolved, r);
        ItemOneMore(productMatching, caches.products, caches.productVariants, items, j, ids, from, resolved);
        resolved, found' := resolved + [r], Record(found', r);
        j := j + 1;
      }
    }

    method ResolveInvoice(inv: Invoice, ids: nat -> string, from: nat, customers: Found, products: Found)
      returns (r: ResolvedInvoice, customers': Found, products': Found)
      ensures InvoiceResolved(customerMatching, productMatching, caches, inv, ids, from, r)
      ensures customers' == Record(customers, r.buyer) && products' == RecordAll(products, r.items)
    {
      var buyer := ResolveOne(customerMatching, inv.buyer, caches.customers, caches.customerVariants, ids(from));
      customers' := Record(customers, buyer);
      var items;
      items, products' := ResolveItems(inv.items, ids, from + 1, products);
      r := ResolvedInvoice(buyer, items, Overall(inv.confidence, [buyer.confidence] + Confidences(items)));
    }

    /** The loop over the invoices. */
    method ResolveEach(invoices: seq<Invoice>, ids: nat -> string)
      returns (resolved: seq<ResolvedInvoice>, customers: Found, products: Found)
      ensures BatchResolved(customerMatching, productMatching, caches, invoices, |invoices|, ids, resolved)
      ensures customers == RecordAll(NOTHING, Buyers(resolved)) && products == RecordAll(NOTHING, ItemsOf(resolved))
    {
      resolved, customers, products := [], NOTHING, NOTHING;
      var drawn: nat := 0;
      var i := 0;
      while i < |invoices|
        invariant 0 <= i <= |invoices| && drawn == Start(invoices, i)
        invariant BatchResolved(customerMatching, productMatching, caches, invoices, i, ids, resolved)
        invariant customers == RecordAll(NOTHING, Buyers(resolved)) && products == RecordAll(NOTHING, ItemsOf(resolved))
      {
        var r;
        r, customers, products := ResolveInvoice(invoices[i], ids, drawn, customers, products);
        BatchOneMore(customerMatching, productMatching, caches, invoices, i, ids, resolved, r);
        RecordInvoice(resolved, r);
        resolved, drawn := resolved + [r], drawn + 1 + |invoices[i].items|;
        i := i + 1;
      }
    }

    /** A whole batch: every invoice is matched or created, counters and dictionary are those
        of the resolutions, and every new record has an id of its own. The same for products
        over all line items. */
    method ResolveAll(loaded: Caches, invoices: seq<Invoice>, ids: nat -> string)
      returns (resolved: seq<ResolvedInvoice>, customers: Found, products: Found)
      requires FreshIds(ids, loaded.customers) && FreshIds(ids, loaded.products)
      modifies this
      ensures caches == loaded
      ensures BatchResolved(customerMatching, productMatching, loaded, invoices, |invoices|, ids, resolved)
      ensures Tallied(customers, Buyers(resolved)) && Tallied(products, ItemsOf(resolved))
      ensures NewApart(Buyers(resolved), loaded.customers) && NewApart(ItemsOf(resolved), loaded.products)
      ensures customers.matched + customers.created == |invoices|
      ensures products.matched + products.created == ItemTotal(invoices, |invoices|)
      ensures |NewIds(customers.resolved)| == customers.created && |NewIds(products.resolved)| == products.created
    {
      caches := loaded;
      resolved, customers, products := ResolveEach(invoices, ids);
      NewRecordsAreApart(customerMatching, productMatching, loaded, invoices, ids, resolved);
      RecordAllTallies(Buyers(resolved));
      RecordAllTallies(ItemsOf(resolved));
      CreatedAreInTheDictionary(Buyers(resolved), loaded.customers);
      CreatedAreInTheDictionary(ItemsOf(resolved), loaded.products);
    }
  }
}
