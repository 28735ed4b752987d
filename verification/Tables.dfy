/**
 Three kinds of insert on conflict, each as a step on a table and as what a whole run of
 them leaves behind.
 */
module Tables {
  import opened EditValidator

  // ------------------------------------------------------ ON CONFLICT DO NOTHING

  datatype Insertion = Insertion(key: Value, columns: Fields)

  type Table = map<Value, Fields>

  function Insert(t: Table, x: Insertion): Table {
    if x.key in t then t else t[x.key := x.columns]
  }

  function InsertAll(t: Table, xs: seq<Insertion>): Table {
    if xs == [] then t else Insert(InsertAll(t, xs[..|xs| - 1]), xs[|xs| - 1])
  }

  ghost predicate IsFirst(xs: seq<Insertion>, k: nat) {
    k < |xs| && forall i :: 0 <= i < k ==> xs[i].key != xs[k].key
  }

  /** Old rows stay as they were; a new row is the first one inserted under its key. */
  lemma {:induction false} InsertsKeepTheFirst(t: Table, xs: seq<Insertion>, key: Value)
    ensures key in t ==> key in InsertAll(t, xs) && InsertAll(t, xs)[key] == t[key]
    ensures key in InsertAll(t, xs) && key !in t ==>
              exists k: nat :: IsFirst(xs, k) && xs[k].key == key && InsertAll(t, xs)[key] == xs[k].columns
    ensures forall k :: 0 <= k < |xs| ==> xs[k].key in InsertAll(t, xs)
  {
    if xs != [] {
      var n := |xs| - 1;
      InsertsKeepTheFirst(t, xs[..n], key);
      forall k | 0 <= k < |xs| ensures xs[k].key in InsertAll(t, xs) {
        if k < n { assert xs[..n][k].key in InsertAll(t, xs[..n]); }
      }
      if key in InsertAll(t, xs[..n]) && key !in t {
        var k: nat :| IsFirst(xs[..n], k) && xs[..n][k].key == key && InsertAll(t, xs[..n])[key] == xs[..n][k].columns;
        assert IsFirst(xs, k);
      } else if key !in t && xs[n].key == key {
        forall i | 0 <= i < n ensures xs[i].key != key {
          assert xs[..n][i].key in InsertAll(t, xs[..n]);
        }
        assert IsFirst(xs, n);
      }
    }
  }

  lemma {:induction false} InsertAllConcat(t: Table, a: seq<Insertion>, b: seq<Insertion>)
    ensures InsertAll(t, a + b) == InsertAll(InsertAll(t, a), b)
  {
    if b == [] {
      assert a + b == a;
    } else {
      InsertAllConcat(t, a, b[..|b| - 1]);
      assert (a + b)[..|a + b| - 1] == a + b[..|b| - 1];
    }
  }

  // -------------------------------------------------------- ON CONFLICT DO UPDATE

  /** An upsert: columns set only on insert, columns under COALESCE, columns overwritten. */
  datatype Supply = Supply(key: Value, fixed: Fields, merged: Fields, latest: Fields)

  datatype Entry = Entry(fixed: Fields, merged: Fields, latest: Fields, updates: nat)

  type Upserted = map<Value, Entry>

  /** `COALESCE(EXCLUDED.c, table.c)` per column. */
  function Coalesce(new_: Fields, old_: Fields): Fields {
    map c | c in old_ :: if Get(new_, c).Null? then old_[c] else Get(new_, c)
  }

  function Upsert(t: Upserted, s: Supply): Upserted {
    t[s.key := if s.key in t
               then Entry(t[s.key].fixed, Coalesce(s.merged, t[s.key].merged), s.latest, t[s.key].updates + 1)
               else Entry(s.fixed, s.merged, s.latest, 0)]
  }

  function UpsertAll(t: Upserted, ss: seq<Supply>): Upserted {
    if ss == [] then t else Upsert(UpsertAll(t, ss[..|ss| - 1]), ss[|ss| - 1])
  }

  function Supplies(ss: seq<Supply>, key: Value): seq<Supply> {
    if ss == [] then []
    else Supplies(ss[..|ss| - 1], key) + if ss[|ss| - 1].key == key then [ss[|ss| - 1]] else []
  }

  /** Only the supplies under a key decide what is stored under it. */
  lemma {:induction false} OnlyItsOwnSupplies(t: Upserted, ss: seq<Supply>, key: Value)
    ensures key in UpsertAll(t, ss) <==> key in t || Supplies(ss, key) != []
    ensures key in UpsertAll(t, ss) ==>
              UpsertAll(t, ss)[key] == EntryAfter(key in t, if key in t then t[key] else NOTHING, Supplies(ss, key))
  {
    if ss != [] {
      OnlyItsOwnSupplies(t, ss[..|ss| - 1], key);
      var s := ss[|ss| - 1];
      if s.key == key {
        assert Supplies(ss, key)[..|Supplies(ss, key)| - 1] == Supplies(ss[..|ss| - 1], key);
      } else {
        assert Supplies(ss, key) == Supplies(ss[..|ss| - 1], key);
      }
    }
  }

  const NOTHING: Entry := Entry(map[], map[], map[], 0)

  /** The entry a run of supplies under one key leaves. */
  function EntryAfter(was: bool, e: Entry, ss: seq<Supply>): Entry
    decreases |ss|
  {
    if ss == [] then e
    else
      var s := ss[|ss| - 1];
      if !was && |ss| == 1 then Entry(s.fixed, s.merged, s.latest, 0)
      else
        var b := EntryAfter(was, e, ss[..|ss| - 1]);
        Entry(b.fixed, Coalesce(s.merged, b.merged), s.latest, b.updates + 1)
  }

  /** The last non-null value among those supplied for a column, or what was there. */
  ghost predicate LastNonNull(ss: seq<Supply>, c: string, was: Value, v: Value) {
    || (exists k :: 0 <= k < |ss| && v == Get(ss[k].merged, c) && !v.Null?
                    && forall i :: k < i < |ss| ==> Get(ss[i].merged, c).Null?)
    || (v == was && forall i :: 0 <= i < |ss| ==> Get(ss[i].merged, c).Null?)
  }

  lemma LastNonNullSnoc(ss: seq<Supply>, c: string, was: Value, v: Value, s: Supply)
    requires LastNonNull(ss, c, was, v)
    ensures LastNonNull(ss + [s], c, was, if Get(s.merged, c).Null? then v else Get(s.merged, c))
  {
    var all := ss + [s];
    if !Get(s.merged, c).Null? {
      assert Get(all[|ss|].merged, c) == Get(s.merged, c);
    } else if k :| 0 <= k < |ss| && v == Get(ss[k].merged, c) && !v.Null?
                   && forall i :: k < i < |ss| ==> Get(ss[i].merged, c).Null? {
      assert all[k] == ss[k];
      assert forall i :: k < i < |all| ==> Get(all[i].merged, c).Null?;
    } else {
      assert forall i :: 0 <= i < |all| ==> Get(all[i].merged, c).Null?;
    }
  }

  ghost predicate SameColumns(ss: seq<Supply>, columns: set<string>) {
    forall k :: 0 <= k < |ss| ==> ss[k].merged.Keys == columns
  }

  lemma {:induction false} EntryAfterColumns(was: bool, e: Entry, ss: seq<Supply>, columns: set<string>)
    requires SameColumns(ss, columns) && (was || ss != [])
    requires was ==> e.merged.Keys == columns
    ensures EntryAfter(was, e, ss).merged.Keys == columns
    ensures EntryAfter(was, e, ss).fixed == if was then e.fixed else ss[0].fixed
    ensures EntryAfter(was, e, ss).updates == if was then e.updates + |ss| else |ss| - 1
  {
    if ss != [] && (was || |ss| > 1) {
      EntryAfterColumns(was, e, ss[..|ss| - 1], columns);
    }
  }

  lemma {:induction false} EntryAfterMerges(was: bool, e: Entry, ss: seq<Supply>, columns: set<string>, c: string)
    requires SameColumns(ss, columns) && c in columns && (was || ss != [])
    requires was ==> e.merged.Keys == columns
    ensures LastNonNull(ss, c, if was then Get(e.merged, c) else Null, Get(EntryAfter(was, e, ss).merged, c))
  {
    var v0 := if was then Get(e.merged, c) else Null;
    if ss == [] {
    } else if !was && |ss| == 1 {
      assert Get(ss[0].merged, c) == Get(EntryAfter(was, e, ss).merged, c);
    } else {
      var n := |ss| - 1;
      EntryAfterMerges(was, e, ss[..n], columns, c);
      EntryAfterColumns(was, e, ss[..n], columns);
      LastNonNullSnoc(ss[..n], c, v0, Get(EntryAfter(was, e, ss[..n]).merged, c), ss[n]);
      assert ss == ss[..n] + [ss[n]];
    }
  }

  ghost predicate HasColumns(t: Upserted, columns: set<string>) {
    forall k :: k in t ==> t[k].merged.Keys == columns
  }

  lemma {:induction false} UpsertsKeepColumns(t: Upserted, ss: seq<Supply>, columns: set<string>)
    requires HasColumns(t, columns) && SameColumns(ss, columns)
    ensures HasColumns(UpsertAll(t, ss), columns)
  {
    if ss != [] { UpsertsKeepColumns(t, ss[..|ss| - 1], columns); }
  }

  /** Upserts are a fold: the insert-only columns are those of the first supply, a COALESCEd
      column is the last non-null one supplied, the others are the last ones, and the update
      counter misses exactly the insert. */
  lemma UpsertsAreAFold(t: Upserted, ss: seq<Supply>, key: Value, columns: set<string>, c: string)
    requires SameColumns(Supplies(ss, key), columns) && c in columns
    requires key in t ==> t[key].merged.Keys == columns
    ensures var own := Supplies(ss, key);
      && (key in UpsertAll(t, ss) <==> key in t || own != [])
      && (key in t ==>
            var r := UpsertAll(t, ss)[key];
            && r.fixed == t[key].fixed && r.updates == t[key].updates + |own|
            && LastNonNull(own, c, Get(t[key].merged, c), Get(r.merged, c)))
      && (key !in t && own != [] ==>
            var r := UpsertAll(t, ss)[key];
            && r.fixed == own[0].fixed && r.updates == |own| - 1
            && LastNonNull(own, c, Null, Get(r.merged, c)))
      && (own != [] ==> UpsertAll(t, ss)[key].latest == own[|own| - 1].latest)
  {
    OnlyItsOwnSupplies(t, ss, key);
    if key in t {
      EntryAfterColumns(true, t[key], Supplies(ss, key), columns);
      EntryAfterMerges(true, t[key], Supplies(ss, key), columns, c);
    } else if Supplies(ss, key) != [] {
      EntryAfterColumns(false, NOTHING, Supplies(ss, key), columns);
      EntryAfterMerges(false, NOTHING, Supplies(ss, key), columns, c);
    }
  }

  lemma {:induction false} UpsertAllConcat(t: Upserted, a: seq<Supply>, b: seq<Supply>)
    ensures UpsertAll(t, a + b) == UpsertAll(UpsertAll(t, a), b)
  {
    if b == [] {
      assert a + b == a;
    } else {
      UpsertAllConcat(t, a, b[..|b| - 1]);
      assert (a + b)[..|a + b| - 1] == a + b[..|b| - 1];
    }
  }

  // ------------------------------------------------- a counter per product and name

  type Variant = (Value, string)

  type Counters = map<Variant, nat>

  function Bump(t: Counters, v: Variant): Counters {
    t[v := if v in t then t[v] + 1 else 1]
  }

  function BumpAll(t: Counters, vs: seq<Variant>): Counters {
    if vs == [] then t else Bump(BumpAll(t, vs[..|vs| - 1]), vs[|vs| - 1])
  }

  lemma {:induction false} BumpAllConcat(t: Counters, a: seq<Variant>, b: seq<Variant>)
    ensures BumpAll(t, a + b) == BumpAll(BumpAll(t, a), b)
  {
    if b == [] {
      assert a + b == a;
    } else {
      BumpAllConcat(t, a, b[..|b| - 1]);
      assert (a + b)[..|a + b| - 1] == a + b[..|b| - 1];
    }
  }

  function Weight(v: Variant, n: nat, product: Value): nat {
    if v.0 == product then n else 0
  }

  /** The occurrence counts of a product, over all its names. */
  ghost function Occurrences(t: Counters, product: Value): nat {
    if t == map[] then 0
    else
      var v :| v in t;
      Weight(v, t[v], product) + Occurrences(t - {v}, product)
  }

  lemma {:induction false} OccurrencesWithout(t: Counters, v: Variant, product: Value)
    requires v in t
    ensures Occurrences(t, product) == Weight(v, t[v], product) + Occurrences(t - {v}, product)
  {
    var w :| w in t && Occurrences(t, product) == Weight(w, t[w], product) + Occurrences(t - {w}, product);
    if w != v {
      OccurrencesWithout(t - {w}, v, product);
      OccurrencesWithout(t - {v}, w, product);
      assert t - {w} - {v} == t - {v} - {w};
    }
  }

  lemma BumpAddsOne(t: Counters, v: Variant, product: Value)
    ensures Occurrences(Bump(t, v), product) == Occurrences(t, product) + Weight(v, 1, product)
  {
    OccurrencesWithout(Bump(t, v), v, product);
    assert Bump(t, v) - {v} == t - {v};
    if v in t { OccurrencesWithout(t, v, product); } else { assert t - {v} == t; }
  }

  function Times(vs: seq<Variant>, product: Value): nat {
    if vs == [] then 0 else Times(vs[..|vs| - 1], product) + Weight(vs[|vs| - 1], 1, product)
  }

  lemma {:induction false} TimesConcat(a: seq<Variant>, b: seq<Variant>, product: Value)
    ensures Times(a + b, product) == Times(a, product) + Times(b, product)
  {
    if b == [] {
      assert a + b == a;
    } else {
      TimesConcat(a, b[..|b| - 1], product);
      assert (a + b)[..|a + b| - 1] == a + b[..|b| - 1];
    }
  }

  lemma {:induction false} OccurrencesCountBumps(t: Counters, vs: seq<Variant>, product: Value)
    ensures Occurrences(BumpAll(t, vs), product) == Occurrences(t, product) + Times(vs, product)
  {
    if vs != [] {
      OccurrencesCountBumps(t, vs[..|vs| - 1], product);
      BumpAddsOne(BumpAll(t, vs[..|vs| - 1]), vs[|vs| - 1], product);
    }
  }
}
