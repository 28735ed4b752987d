/**
 User edits of stored entities with a log row per changed field, soft deletion with a
 recovery window, and the purge after it.
 */
module Entities {
  import opened Options
  import opened EditValidator
  import EditRules
  import Filters

  datatype Kind = InvoiceKind | CustomerKind | InventoryKind

  type Key = (Kind, string)

  datatype Record = Record(fields: Fields, deletedAt: Option<int>)

  type Records = map<Key, Record>

  datatype LogRow = LogRow(key: Key, field: string, old_: Option<string>, new_: Option<string>)

  /** 24 hours in seconds. */
  const RECOVERY_WINDOW: int := 86400

  /** `str(v)`, and null as null. */
  function View(v: Value): Option<string> {
    if v.Null? then None else Some(Shown(v))
  }

  /** What a column keeps of a value written to it, the allowlists and the further checks. */
  datatype Policy = Policy(editable: map<Kind, set<string>>, allowed: (Kind, string, Value) -> bool,
                           stored: (string, Value) -> Value)

  predicate FieldsAllowed(p: Policy, kind: Kind, updates: Fields) {
    forall f :: f in updates ==> kind in p.editable && f in p.editable[kind] && p.allowed(kind, f, updates[f])
  }

  function Written(p: Policy, fields: Fields, updates: Fields): Fields {
    map f | f in fields.Keys + updates.Keys :: if f in updates then p.stored(f, updates[f]) else fields[f]
  }

  function ChangedFields(fields: Fields, updates: Fields): set<string> {
    set f | f in updates && View(updates[f]) != View(Get(fields, f))
  }

  // ------------------------------------------------------------- in plain words

  /** What the log shows of a value: its text, and nothing for null. */
  ghost predicate Shows(v: Value, shown: Option<string>) {
    if v.Null? then shown == None else shown == Some(EditRules.AsText(v))
  }

  /** A field counts as changed exactly if null is replaced, or by null, or the text differs. */
  lemma ChangedExactly(fields: Fields, updates: Fields, f: string)
    ensures f in ChangedFields(fields, updates)
            <==> f in updates && ((updates[f] == Null) != (Get(fields, f) == Null)
                                  || EditRules.AsText(updates[f]) != EditRules.AsText(Get(fields, f)))
  {
  }

  /** An edit writes what the column makes of each given value and leaves the other fields. */
  lemma WrittenExactly(p: Policy, fields: Fields, updates: Fields, f: string)
    ensures f in Written(p, fields, updates) <==> f in fields || f in updates
    ensures f in updates ==> Written(p, fields, updates)[f] == p.stored(f, updates[f])
    ensures f in fields && f !in updates ==> Written(p, fields, updates)[f] == fields[f]
  {
  }

  // --------------------------------------------------------------------- the log

  /** The log of a field runs from one view to another: each row's old value is the new value
      of the row before, and the last new value is where it ends. */
  predicate Chained(log: seq<LogRow>, key: Key, field: string, from: Option<string>, to: Option<string>) {
    if log == [] then from == to
    else
      var last, before := log[|log| - 1], log[..|log| - 1];
      if last.key == key && last.field == field
      then last.new_ == to && last.old_ != last.new_ && Chained(before, key, field, from, last.old_)
      else Chained(before, key, field, from, to)
  }

  lemma ChainedSnoc(log: seq<LogRow>, row: LogRow, key: Key, field: string, from: Option<string>, to: Option<string>)
    ensures Chained(log + [row], key, field, from, to)
            <==> if row.key == key && row.field == field
                 then row.new_ == to && row.old_ != row.new_ && Chained(log, key, field, from, row.old_)
                 else Chained(log, key, field, from, to)
  {
    assert (log + [row])[..|log|] == log;
  }

  lemma {:induction false} ChainEndsOnce(log: seq<LogRow>, key: Key, field: string, from: Option<string>,
                                         to: Option<string>, to': Option<string>)
    requires Chained(log, key, field, from, to) && Chained(log, key, field, from, to')
    ensures to == to'
  {
    if log != [] && !(log[|log| - 1].key == key && log[|log| - 1].field == field) {
      ChainEndsOnce(log[..|log| - 1], key, field, from, to, to');
    }
  }

  /** The rows are one for each done field of one record, with its old and new view. */
  ghost predicate Logged(rows: seq<LogRow>, key: Key, fields: Fields, updates: Fields, done: set<string>) {
    && (forall i :: 0 <= i < |rows| ==>
          && rows[i].field in done && rows[i].field in updates && rows[i].old_ != rows[i].new_
          && rows[i] == LogRow(key, rows[i].field, View(Get(fields, rows[i].field)), View(updates[rows[i].field])))
    && (forall f :: f in done ==> exists i :: 0 <= i < |rows| && rows[i].field == f)
    && (forall i, j :: 0 <= i < j < |rows| ==> rows[i].field != rows[j].field)
  }

  lemma {:induction false} RowsOfOthers(log: seq<LogRow>, rows: seq<LogRow>, k: Key, f: string,
                                        from: Option<string>, to: Option<string>)
    requires forall i :: 0 <= i < |rows| ==> rows[i].key != k || rows[i].field != f
    requires Chained(log, k, f, from, to)
    ensures Chained(log + rows, k, f, from, to)
  {
    if rows == [] {
      assert log + rows == log;
    } else {
      var n := |rows| - 1;
      RowsOfOthers(log, rows[..n], k, f, from, to);
      ChainedSnoc(log + rows[..n], rows[n], k, f, from, to);
      assert log + rows == log + rows[..n] + [rows[n]];
    }
  }

  lemma {:induction false} OneRowMoves(log: seq<LogRow>, rows: seq<LogRow>, i: nat, k: Key, f: string,
                                       from: Option<string>)
    requires i < |rows| && rows[i].key == k && rows[i].field == f && rows[i].old_ != rows[i].new_
    requires forall j :: 0 <= j < |rows| && j != i ==> rows[j].key != k || rows[j].field != f
    requires Chained(log, k, f, from, rows[i].old_)
    ensures Chained(log + rows, k, f, from, rows[i].new_)
  {
    var n := |rows| - 1;
    var before := rows[..n];
    if i == n {
      RowsOfOthers(log, before, k, f, from, rows[i].old_);
    } else {
      OneRowMoves(log, before, i, k, f, from);
    }
    ChainedSnoc(log + before, rows[n], k, f, from, rows[i].new_);
    assert log + rows == log + before + [rows[n]];
  }

  /** A batch of rows moves the chain of each logged field to the value written, and leaves
      the other fields where they were. */
  lemma LoggedChains(log: seq<LogRow>, rows: seq<LogRow>, key: Key, fields: Fields, updates: Fields, done: set<string>,
                     f: string, from: Option<string>)
    requires Logged(rows, key, fields, updates, done) && done <= updates.Keys
    requires Chained(log, key, f, from, View(Get(fields, f)))
    ensures Chained(log + rows, key, f, from, if f in done then View(updates[f]) else View(Get(fields, f)))
  {
    if f in done {
      var i :| 0 <= i < |rows| && rows[i].field == f;
      OneRowMoves(log, rows, i, key, f, from);
    } else {
      RowsOfOthers(log, rows, key, f, from, View(Get(fields, f)));
    }
  }

  lemma LogOneMore(rows: seq<LogRow>, key: Key, fields: Fields, updates: Fields, done: set<string>, f: string)
    requires Logged(rows, key, fields, updates, done) && f !in done && f in ChangedFields(fields, updates)
    ensures Logged(rows + [LogRow(key, f, View(Get(fields, f)), View(updates[f]))], key, fields, updates, done + {f})
  {
    var all := rows + [LogRow(key, f, View(Get(fields, f)), View(updates[f]))];
    assert all[|rows|].field == f;
    forall g | g in done + {f} ensures exists i :: 0 <= i < |all| && all[i].field == g {
      if g != f {
        var i :| 0 <= i < |rows| && rows[i].field == g;
        assert all[i].field == g;
      }
    }
  }

  // ------------------------------------------------------------------- the chains

  /** Every field of every record is where its log, begun at the record's first version, ends. */
  ghost predicate Chains(initial: Records, records: Records, log: seq<LogRow>) {
    && records.Keys <= initial.Keys
    && forall key, f :: key in records ==>
         Chained(log, key, f, View(Get(initial[key].fields, f)), View(Get(records[key].fields, f)))
  }

  /** The column reads back as it was written. */
  predicate Faithful(p: Policy, f: string, v: Value) {
    View(p.stored(f, v)) == View(v)
  }

  /** After an edit the log of a written field ends at its current view exactly when the
      column reads back as written. */
  lemma ChainHoldsExactly(p: Policy, log: seq<LogRow>, rows: seq<LogRow>, key: Key, fields: Fields, updates: Fields,
                          f: string, from: Option<string>)
    requires Logged(rows, key, fields, updates, ChangedFields(fields, updates)) && f in updates
    requires Chained(log, key, f, from, View(Get(fields, f)))
    ensures Chained(log + rows, key, f, from, View(Get(Written(p, fields, updates), f))) <==> Faithful(p, f, updates[f])
  {
    LoggedChains(log, rows, key, fields, updates, ChangedFields(fields, updates), f, from);
    assert Chained(log + rows, key, f, from, View(updates[f]));
    if Chained(log + rows, key, f, from, View(p.stored(f, updates[f]))) {
      ChainEndsOnce(log + rows, key, f, from, View(updates[f]), View(p.stored(f, updates[f])));
    }
  }

  lemma EditKeepsChains(p: Policy, initial: Records, records: Records, log: seq<LogRow>, rows: seq<LogRow>, key: Key,
                        updates: Fields)
    requires Chains(initial, records, log) && key in records
    requires Logged(rows, key, records[key].fields, updates, ChangedFields(records[key].fields, updates))
    requires forall f :: f in updates ==> Faithful(p, f, updates[f])
    ensures Chains(initial, records[key := records[key].(fields := Written(p, records[key].fields, updates))],
            log + rows)
  {
    var fields := records[key].fields;
    var records' := records[key := records[key].(fields := Written(p, fields, updates))];
    forall k, f | k in records'
      ensures Chained(log + rows, k, f, View(Get(initial[k].fields, f)), View(Get(records'[k].fields, f)))
    {
      var from := View(Get(initial[k].fields, f));
      if k != key {
        RowsOfOthers(log, rows, k, f, from, View(Get(records[k].fields, f)));
      } else if f in updates {
        ChainHoldsExactly(p, log, rows, key, fields, updates, f, from);
      } else {
        LoggedChains(log, rows, key, fields, updates, ChangedFields(fields, updates), f, from);
      }
    }
  }

  // -------------------------------------------------------------- deletion windows

  /** `_handle_recovery` lets it back. */
  predicate Recoverable(r: Record, now: int) {
    r.deletedAt.Some? && now <= r.deletedAt.value + RECOVERY_WINDOW
  }

  /** The purge takes it. */
  predicate Purgeable(r: Record, now: int) {
    r.deletedAt.Some? && r.deletedAt.value < now - RECOVERY_WINDOW
  }

  /** The two windows, written in two places, meet: a deleted record is at each instant
      recoverable or purgeable and never both, and what is purgeable stays so. */
  lemma WindowsMeet(r: Record)
    ensures r.deletedAt.Some? ==> forall now :: Recoverable(r, now) <==> !Purgeable(r, now)
    ensures forall now, later :: now <= later && Purgeable(r, now) ==> Purgeable(r, later)
  {
  }

  function Without(log: seq<LogRow>, gone: set<Key>): seq<LogRow> {
    if log == [] then []
    else Without(log[..|log| - 1], gone) + if log[|log| - 1].key in gone then [] else [log[|log| - 1]]
  }

  function Kept(records: Records, gone: set<Key>): Records {
    map key | key in records && key !in gone :: records[key]
  }

  function PurgedOf(records: Records, kind: Kind, now: int): set<Key> {
    set key | key in records && key.0 == kind && Purgeable(records[key], now)
  }

  function Purged(records: Records, now: int): set<Key> {
    set key | key in records && Purgeable(records[key], now)
  }

  /** A deleted record can be recovered for a day, to the second, and is purgeable after it. */
  lemma WindowIsOneDay(r: Record, now: int)
    ensures Recoverable(r, now) <==> r.deletedAt.Some? && now - r.deletedAt.value <= 24 * 60 * 60
    ensures Purgeable(r, now) <==> r.deletedAt.Some? && now - r.deletedAt.value > 24 * 60 * 60
  {
  }

  /** One kind's purge takes the records of that kind deleted more than a day ago. */
  lemma PurgeOfOneKind(records: Records, kind: Kind, now: int, key: Key)
    ensures key in Kept(records, PurgedOf(records, kind, now))
            <==> && key in records
                 && !(key.0 == kind && records[key].deletedAt.Some?
                      && now - records[key].deletedAt.value > 24 * 60 * 60)
  {
  }

  /** A purge takes the records deleted more than a day ago, of every kind, and of the log
      exactly their rows. */
  lemma PurgeTakesExactly(records: Records, log: seq<LogRow>, now: int, key: Key)
    ensures var gone := Purged(records, now);
      && (key in Kept(records, gone)
          <==> key in records && !(records[key].deletedAt.Some? && now - records[key].deletedAt.value > 24 * 60 * 60))
      && (key in Kept(records, gone) ==> Kept(records, gone)[key] == records[key])
      && Without(log, gone) == Filters.Filtered(log, (row: LogRow) => row.key !in gone)
  {
    WithoutFilters(log, Purged(records, now));
  }

  lemma {:induction false} WithoutFilters(log: seq<LogRow>, gone: set<Key>)
    ensures Without(log, gone) == Filters.Filtered(log, (row: LogRow) => row.key !in gone)
  {
    if log != [] { WithoutFilters(log[..|log| - 1], gone); }
  }

  lemma {:induction false} WithoutTwice(log: seq<LogRow>, a: set<Key>, b: set<Key>)
    ensures Without(Without(log, a), b) == Without(log, a + b)
  {
    if log != [] {
      var n := |log| - 1;
      WithoutTwice(log[..n], a, b);
      var left := Without(log[..n], a);
      if log[n].key in a {
        assert Without(log, a) == left;
      } else {
        assert (left + [log[n]])[..|left|] == left;
      }
    }
  }

  /** One table after the other is all of them. */
  lemma KindsMakeAll(records: Records, rest: Records, rest': Records, now: int)
    requires rest == Kept(records, PurgedOf(records, InvoiceKind, now))
    requires rest' == Kept(rest, PurgedOf(rest, CustomerKind, now))
    ensures Kept(rest', PurgedOf(rest', InventoryKind, now)) == Kept(records, Purged(records, now))
    ensures PurgedOf(records, InvoiceKind, now) + PurgedOf(rest, CustomerKind, now)
            + PurgedOf(rest', InventoryKind, now)
            == Purged(records, now)
  {
  }

  lemma {:induction false} WithoutKeepsOthers(log: seq<LogRow>, gone: set<Key>, key: Key, f: string,
                                              from: Option<string>, to: Option<string>)
    requires key !in gone
    ensures Chained(Without(log, gone), key, f, from, to) <==> Chained(log, key, f, from, to)
  {
    if log != [] {
      var before, row := log[..|log| - 1], log[|log| - 1];
      WithoutKeepsOthers(before, gone, key, f, from, to);
      WithoutKeepsOthers(before, gone, key, f, from, row.old_);
      if row.key !in gone {
        ChainedSnoc(Without(before, gone), row, key, f, from, to);
      } else {
        assert Without(log, gone) == Without(before, gone);
      }
    }
  }

  lemma PurgeKeepsChains(initial: Records, was: Records, log: seq<LogRow>, now: Records, gone: set<Key>)
    requires Chains(initial, was, log) && now == Kept(was, gone)
    ensures Chains(initial, now, Without(log, gone))
  {
    forall key, f | key in now
      ensures Chained(Without(log, gone), key, f, View(Get(initial[key].fields, f)), View(Get(now[key].fields, f)))
    {
      WithoutKeepsOthers(log, gone, key, f, View(Get(initial[key].fields, f)), View(Get(now[key].fields, f)));
    }
  }

  lemma SizesAfter(was: Records, now: Records, gone: set<Key>)
    requires gone <= was.Keys && now.Keys == was.Keys - gone
    ensures |was| == |now| + |gone|
  {
    assert was.Keys == now.Keys + gone;
  }

  // ------------------------------------------------------------------ the service

  datatype Reply =
    | NotFound | Rejected | Unchanged | Updated(fields: seq<string>)
    | AlreadyDeleted(until: int) | Deleted(until: int) | NotDeleted | Expired | Recovered

  class EntityService {
    const policy: Policy
    var records: Records
    var log: seq<LogRow>
    ghost var initial: Records

    ghost predicate Valid()
      reads this
    {
      Chains(initial, records, log)
    }

    constructor (policy: Policy, records: Records)
      ensures Valid() && this.policy == policy && this.records == records && log == []
    {
      this.policy, this.records, this.log, this.initial := policy, records, [], records;
    }

    /** One log row per changed field, in whatever order the update lists them. */
    method WriteFieldChanges(key: Key, current: Fields, updates: Fields) returns (changed: seq<string>)
      modifies this`log
      ensures old(log) <= log && Logged(log[|old(log)|..], key, current, updates, ChangedFields(current, updates))
      ensures forall i :: |old(log)| <= i < |log| ==>
                && log[i].key == key && log[i].field in updates
                && Shows(Get(current, log[i].field), log[i].old_) && Shows(updates[log[i].field], log[i].new_)
      ensures forall f :: f in changed <==> f in ChangedFields(current, updates)
      ensures changed == [] ==> log == old(log)
    {
      changed := [];
      var todo := updates.Keys;
      ghost var done: set<string>, rows: seq<LogRow> := {}, [];
      while todo != {}
        invariant todo <= updates.Keys && done == ChangedFields(current, updates) - todo
        invariant log == old(log) + rows && Logged(rows, key, current, updates, done)
        invariant forall f :: f in changed <==> f in done
        invariant changed == [] ==> log == old(log)
        decreases todo
      {
        var f :| f in todo;
        todo := todo - {f};
        var was, now := View(Get(current, f)), View(updates[f]);
        if was != now {
          changed := changed + [f];
          LogOneMore(rows, key, current, updates, done, f);
          log := log + [LogRow(key, f, was, now)];
          done, rows := done + {f}, rows + [LogRow(key, f, was, now)];
        }
      }
      assert done == ChangedFields(current, updates) && log[|old(log)|..] == rows;
      forall i | |old(log)| <= i < |log| ensures log[i] == rows[i - |old(log)|] { }
    }

    /** An edit logs exactly its changed fields and writes all it was given, or does nothing. */
    method UpdateEntity(key: Key, updates: Fields) returns (reply: Reply)
      requires Valid()
      modifies this
      ensures initial == old(initial)
      ensures (forall f :: f in updates ==> Faithful(policy, f, updates[f])) ==> Valid()
      ensures key !in old(records) <==> reply.NotFound?
      ensures key in old(records) ==>
                var fields := old(records)[key].fields;
                && (reply.Rejected? <==> !FieldsAllowed(policy, key.0, updates))
                && (reply.Rejected? <==>
                      exists f :: f in updates && !(&& key.0 in policy.editable && f in policy.editable[key.0]
                                                    && policy.allowed(key.0, f, updates[f])))
                && (reply.Updated? <==> FieldsAllowed(policy, key.0, updates) && ChangedFields(fields, updates) != {})
                && (reply.Updated? ==>
                      && records == old(records)[key := old(records)[key].(fields := Written(policy, fields, updates))]
                      && old(log) <= log
                      && Logged(log[|old(log)|..], key, fields, updates, ChangedFields(fields, updates))
                      && (forall f :: f in reply.fields <==> f in ChangedFields(fields, updates)))
      ensures !reply.Updated? ==> records == old(records) && log == old(log)
    {
      if key !in records {
        return NotFound;
      }
      if updates == map[] {
        return Unchanged;
      }
      if !FieldsAllowed(policy, key.0, updates) {
        return Rejected;
      }
      var changed := WriteFieldChanges(key, records[key].fields, updates);
      if changed == [] {
        return Unchanged;
      }
      assert changed[0] in changed;
      if forall f :: f in updates ==> Faithful(policy, f, updates[f]) {
        EditKeepsChains(policy, initial, records, old(log), log[|old(log)|..], key, updates);
        assert old(log) + log[|old(log)|..] == log;
      }
      records := records[key := records[key].(fields := Written(policy, records[key].fields, updates))];
      return Updated(changed);
    }

    method DeleteEntity(key: Key, now: int) returns (reply: Reply)
      requires Valid()
      modifies this`records
      ensures Valid()
      ensures key !in old(records) <==> reply.NotFound?
      ensures key in old(records) && old(records)[key].deletedAt.Some? ==>
                reply == AlreadyDeleted(old(records)[key].deletedAt.value + RECOVERY_WINDOW) && records == old(records)
      ensures key in old(records) && old(records)[key].deletedAt.None? ==>
                && reply == Deleted(now + RECOVERY_WINDOW)
                && records == old(records)[key := old(records)[key].(deletedAt := Some(now))]
                && Recoverable(records[key], now)
    {
      if key !in records {
        return NotFound;
      }
      if records[key].deletedAt.Some? {
        return AlreadyDeleted(records[key].deletedAt.value + RECOVERY_WINDOW);
      }
      records := records[key := records[key].(deletedAt := Some(now))];
      return Deleted(now + RECOVERY_WINDOW);
    }

    /** Recovery succeeds exactly on what is deleted and not yet purgeable. */
    method Recover(key: Key, now: int) returns (reply: Reply)
      requires Valid()
      modifies this`records
      ensures Valid()
      ensures key !in old(records) <==> reply.NotFound?
      ensures key in old(records) ==>
                && (reply.NotDeleted? <==> old(records)[key].deletedAt.None?)
                && (reply.Expired? <==> Purgeable(old(records)[key], now))
                && (reply.Recovered? <==> old(records)[key].deletedAt.Some? && !Purgeable(old(records)[key], now))
      ensures records
              == if reply.Recovered? then old(records)[key := old(records)[key].(deletedAt := None)] else old(records)
    {
      if key !in records {
        return NotFound;
      }
      if records[key].deletedAt.None? {
        return NotDeleted;
      }
      if now > records[key].deletedAt.value + RECOVERY_WINDOW {
        return Expired;
      }
      records := records[key := records[key].(deletedAt := None)];
      return Recovered;
    }

    method PurgeKind(kind: Kind, now: int) returns (count: nat)
      requires Valid()
      modifies this
      ensures Valid() && initial == old(initial)
      ensures records == Kept(old(records), PurgedOf(old(records), kind, now))
      ensures |old(records)| == |records| + count
      ensures log == Without(old(log), PurgedOf(old(records), kind, now))
    {
      var gone := PurgedOf(records, kind, now);
      ghost var log', records' := log, records;
      records := Kept(records, gone);
      log := Without(log, gone);
      count := |gone|;
      PurgeKeepsChains(initial, records', log', records, gone);
      SizesAfter(records', records, gone);
    }

    /** The purge removes exactly the purgeable records, with their logs, and counts them. */
    method CleanupExpired(now: int) returns (total: nat)
      requires Valid()
      modifies this
      ensures Valid() && initial == old(initial)
      ensures records == Kept(old(records), Purged(old(records), now))
      ensures |old(records)| == |records| + total
      ensures log == Without(old(log), Purged(old(records), now))
    {
      total := PurgeKind(InvoiceKind, now);
      ghost var rest := records;
      var count := PurgeKind(CustomerKind, now);
      total := total + count;
      ghost var rest' := records;
      count := PurgeKind(InventoryKind, now);
      total := total + count;
      KindsMakeAll(old(records), rest, rest', now);
      WithoutTwice(old(log), PurgedOf(old(records), InvoiceKind, now), PurgedOf(rest, CustomerKind, now));
      WithoutTwice(old(log), PurgedOf(old(records), InvoiceKind, now) + PurgedOf(rest, CustomerKind, now),
                   PurgedOf(rest', InventoryKind, now));
    }
  }
}
