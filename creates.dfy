/**
 * The write phase of a create. Once every payload has been accepted, each
 * validated value is stored as `{ uuid, ...value }` under a fresh id; events
 * and open houses also get an attendee counter `{ uuid, attendees: 0 }` under
 * the same id. Records are written one put at a time, in input order, or,
 * for eateries and buildings, in batch writes of at most 25.
 *
 * Fresh ids come from `gen`: `gen(k)` is what the k-th `UUIDv4()` call of
 * the invocation returns.
 */
module Creates {
  import opened Options
  import opened JsonValues
  import opened Schemas
  import opened DocStore
  import opened Chunking
  import opened AttendeeStore
  import opened Crud
  import opened Slices

  /** The payloads of a create: the body's elements when it is a list, else the body alone. */
  function Payloads(body: Json): seq<Json> {
    if body.JArr? then body.items else [body]
  }

  /**
   * `{ uuid: id, ...value }`: the value's own members win over the key, so
   * the key holds `id` exactly when the value has no member of that name,
   * and then removing the key gives back the value.
   */
  function Stamp(t: Table, id: string, value: Record): (r: Record)
    ensures r.Keys == value.Keys + {KeyName(t)}
    ensures forall m :: m in value ==> r[m] == value[m]
    ensures KeyName(t) !in value ==> Keyed(t, r) && KeyOf(t, r) == id && r - {KeyName(t)} == value
  {
    map[KeyName(t) := JStr(id)] + value
  }

  /** `{ uuid: id, attendees: 0 }`: a new attendee counter. */
  function NewCounter(id: string): (r: Record)
    ensures forall t :: CounterTable(t) ==> Keyed(t, r) && KeyOf(t, r) == id
    ensures r.Keys == {"uuid", ATTENDEES} && r[ATTENDEES] == JNum(0.0) && IsCount(r[ATTENDEES])
  {
    map["uuid" := JStr(id), ATTENDEES := JNum(0.0)]
  }

  /** How a create writes its records. */
  datatype Writes =
    | OneByOne(counter: Option<Table>)  // a put per record, in order, each followed by its counter's put when there is one
    | InBatches                         // one batch write per slice of at most 25 records

  predicate HasCounter(w: Writes) {
    w.OneByOne? && w.counter.Some?
  }

  /** A counter table, apart from the records' own table. */
  predicate Fits(w: Writes, t: Table) {
    HasCounter(w) ==> CounterTable(w.counter.value) && w.counter.value != t
  }

  /** None of the values has a member named as the table's key, as every validated value. */
  predicate Unkeyed(t: Table, values: seq<Record>) {
    forall k :: 0 <= k < |values| ==> KeyName(t) !in values[k]
  }

  /** The records a create stores: the k-th value under the k-th fresh id. */
  function Records(t: Table, gen: nat -> string, values: seq<Record>): (rs: seq<Record>)
    ensures |rs| == |values|
    ensures Unkeyed(t, values) ==> AllKeyed(t, rs) && forall k :: 0 <= k < |rs| ==> KeyOf(t, rs[k]) == gen(k)
  {
    var rs := seq(|values|, k requires 0 <= k < |values| => Stamp(t, gen(k), values[k]));
    assert forall k :: 0 <= k < |rs| ==> rs[k] == Stamp(t, gen(k), values[k]);
    rs
  }

  /** The counters a create stores: a zeroed counter under each fresh id. */
  function Counters(gen: nat -> string, n: nat): (cs: seq<Record>)
    ensures |cs| == n
    ensures forall t :: CounterTable(t) ==> AllKeyed(t, cs) && forall k :: 0 <= k < n ==> KeyOf(t, cs[k]) == gen(k)
  {
    var cs := seq(n, k requires 0 <= k < n => NewCounter(gen(k)));
    assert forall k :: 0 <= k < n ==> cs[k] == NewCounter(gen(k));
    cs
  }

  /** The items the 201 response lists: each record, merged with its counter `{ ...record, ...counter }` when it has one. */
  function Answer(t: Table, w: Writes, gen: nat -> string, values: seq<Record>): (items: seq<Record>)
    ensures |items| == |values|
  {
    if HasCounter(w) then seq(|values|, k requires 0 <= k < |values| => Stamp(t, gen(k), values[k]) + NewCounter(gen(k)))
    else Records(t, gen, values)
  }

  /** Every table once the records, and the counters when there are any, are written in order. */
  function Stored(t: Table, w: Writes, db: Db, records: seq<Record>, counters: seq<Record>): (d: Db)
    requires Complete(db) && Fits(w, t) && AllKeyed(t, records) && (HasCounter(w) ==> AllKeyed(w.counter.value, counters))
    ensures PutsKeyed(t, Puts(records)) && (HasCounter(w) ==> PutsKeyed(w.counter.value, Puts(counters)))
    ensures d.Keys == db.Keys
    ensures d[t] == ApplyWrites(t, db[t], Puts(records))
    ensures HasCounter(w) ==> d[w.counter.value] == ApplyWrites(w.counter.value, db[w.counter.value], Puts(counters))
    ensures forall u :: u in db && u != t && !(HasCounter(w) && u == w.counter.value) ==> d[u] == db[u]
  {
    PutsAreKeyed(t, records);
    var d := db[t := ApplyWrites(t, db[t], Puts(records))];
    if HasCounter(w) then
      PutsAreKeyed(w.counter.value, counters);
      d[w.counter.value := ApplyWrites(w.counter.value, db[w.counter.value], Puts(counters))]
    else d
  }

  /** The puts for one value: its record, then its counter when it has one. */
  function ItemCalls(t: Table, counter: Option<Table>, id: string, value: Record): seq<Call> {
    [PutItem(t, Stamp(t, id, value))] + (if counter.Some? then [PutItem(counter.value, NewCounter(id))] else [])
  }

  /** The puts for all values, in input order. */
  function PutCalls(t: Table, counter: Option<Table>, gen: nat -> string, values: seq<Record>): seq<Call>
    decreases |values|
  {
    if values == [] then []
    else PutCalls(t, counter, gen, values[..|values| - 1]) + ItemCalls(t, counter, gen(|values| - 1), values[|values| - 1])
  }

  /** The k-th item the response lists. */
  lemma AnswerAt(t: Table, w: Writes, gen: nat -> string, values: seq<Record>, k: nat)
    requires k < |values|
    ensures Answer(t, w, gen, values)[k] ==
      if HasCounter(w) then Stamp(t, gen(k), values[k]) + NewCounter(gen(k)) else Stamp(t, gen(k), values[k])
  {
  }

  /** The puts for one value more follow the puts for the values before it. */
  lemma PutCallsStep(t: Table, counter: Option<Table>, gen: nat -> string, values: seq<Record>, k: nat, log: seq<Call>)
    requires k < |values|
    ensures log + PutCalls(t, counter, gen, values[..k + 1]) ==
      log + PutCalls(t, counter, gen, values[..k]) + [PutItem(t, Stamp(t, gen(k), values[k]))] +
      (if counter.Some? then [PutItem(counter.value, NewCounter(gen(k)))] else [])
  {
    assert values[..k + 1][..k] == values[..k];
    LogAppend(log, PutCalls(t, counter, gen, values[..k]), ItemCalls(t, counter, gen(k), values[k]));
    LogAppend(log + PutCalls(t, counter, gen, values[..k]), [PutItem(t, Stamp(t, gen(k), values[k]))],
      if counter.Some? then [PutItem(counter.value, NewCounter(gen(k)))] else []);
  }

  /**
   * The write loop of the events, open houses, areas and older handlers:
   * for each value in order, a fresh id, a put of the record, then a put of
   * its counter when it has one. A down store refuses the first put, and
   * nothing is written.
   */
  method PutEach(store: Store, t: Table, counter: Option<Table>, gen: nat -> string, values: seq<Record>)
    returns (created: seq<Record>, failure: Option<StoreError>)
    requires store.Valid() && Fits(OneByOne(counter), t) && Unkeyed(t, values)
    modifies store
    ensures store.Valid()
    ensures store.fault.None? ==>
      && failure.None? && created == Answer(t, OneByOne(counter), gen, values)
      && store.calls == old(store.calls) + PutCalls(t, counter, gen, values)
      && store.tables == Stored(t, OneByOne(counter), old(store.tables), Records(t, gen, values), Counters(gen, |values|))
    ensures store.fault.Some? ==>
      && failure == (if values == [] then None else store.fault) && created == []
      && store.calls == old(store.calls) + (if values == [] then [] else [PutItem(t, Stamp(t, gen(0), values[0]))])
      && store.tables == old(store.tables)
  {
    if store.fault.Some? {
      // The store refuses every request, so the first put fails and nothing is written.
      created := [];
      failure := None;
      if values != [] {
        var item;
        item, failure := PutOne(store, t, counter, gen(0), values[0]);
      }
    } else {
      created := PutAll(store, t, counter, gen, values);
      failure := None;
    }
  }

  /** The write loop on a store that is up: every value's record and counter are put, in order. */
  method PutAll(store: Store, t: Table, counter: Option<Table>, gen: nat -> string, values: seq<Record>)
    returns (created: seq<Record>)
    requires store.Valid() && store.fault.None? && Fits(OneByOne(counter), t) && Unkeyed(t, values)
    modifies store
    ensures store.Valid()
    ensures created == Answer(t, OneByOne(counter), gen, values)
    ensures store.calls == old(store.calls) + PutCalls(t, counter, gen, values)
    ensures store.tables == Stored(t, OneByOne(counter), old(store.tables), Records(t, gen, values), Counters(gen, |values|))
  {
    ghost var db0, calls0 := store.tables, store.calls;
    created := [];
    var k := 0;
    NothingWritten(db0, calls0, t, counter, gen, values);
    while k < |values|
      invariant 0 <= k <= |values| && store.Valid()
      invariant WrittenSoFar(store.tables, store.calls, created, t, counter, gen, values, k, db0, calls0)
    {
      var item := WriteNext(store, t, counter, gen, values, k, created, db0, calls0);
      created := created + [item];
      k := k + 1;
    }
    AllWritten(store.tables, store.calls, created, t, counter, gen, values, db0, calls0);
  }

  /** What the write loop has done after `k` values: their items listed, their puts made, their records and counters stored. */
  ghost predicate WrittenSoFar(tables: Db, calls: seq<Call>, created: seq<Record>, t: Table, counter: Option<Table>,
                               gen: nat -> string, values: seq<Record>, k: nat, db0: Db, calls0: seq<Call>)
    requires Complete(db0) && Fits(OneByOne(counter), t) && Unkeyed(t, values) && k <= |values|
  {
    && Complete(tables)
    && created == Answer(t, OneByOne(counter), gen, values)[..k]
    && calls == calls0 + PutCalls(t, counter, gen, values[..k])
    && tables[t] == ApplyWrites(t, db0[t], Puts(Records(t, gen, values)[..k]))
    && (counter.Some? ==> tables[counter.value] == ApplyWrites(counter.value, db0[counter.value], Puts(Counters(gen, |values|)[..k])))
    && forall u :: u != t && (counter.None? || u != counter.value) ==> tables[u] == db0[u]
  }

  /** Before the first value, the loop has written nothing. */
  lemma NothingWritten(db0: Db, calls0: seq<Call>, t: Table, counter: Option<Table>, gen: nat -> string, values: seq<Record>)
    requires Complete(db0) && Fits(OneByOne(counter), t) && Unkeyed(t, values)
    ensures WrittenSoFar(db0, calls0, [], t, counter, gen, values, 0, db0, calls0)
  {
  }

  /** Once every value is written, the loop has done what `PutEach` promises. */
  lemma AllWritten(tables: Db, calls: seq<Call>, created: seq<Record>, t: Table, counter: Option<Table>,
                   gen: nat -> string, values: seq<Record>, db0: Db, calls0: seq<Call>)
    requires Complete(db0) && Fits(OneByOne(counter), t) && Unkeyed(t, values)
    requires WrittenSoFar(tables, calls, created, t, counter, gen, values, |values|, db0, calls0)
    ensures created == Answer(t, OneByOne(counter), gen, values)
    ensures calls == calls0 + PutCalls(t, counter, gen, values)
    ensures tables == Stored(t, OneByOne(counter), db0, Records(t, gen, values), Counters(gen, |values|))
  {
    TakeAll(values);
    TakeAll(Answer(t, OneByOne(counter), gen, values));
    TakeAll(Records(t, gen, values));
    TakeAll(Counters(gen, |values|));
    StoredIs(t, OneByOne(counter), db0, Records(t, gen, values), Counters(gen, |values|), tables);
  }

  /** The writes for the k-th value, extending what the loop has done for the values before it. */
  method WriteNext(store: Store, t: Table, counter: Option<Table>, gen: nat -> string, values: seq<Record>, k: nat,
                   ghost created: seq<Record>, ghost db0: Db, ghost calls0: seq<Call>)
    returns (item: Record)
    requires store.Valid() && store.fault.None? && Complete(db0) && Fits(OneByOne(counter), t) && Unkeyed(t, values) && k < |values|
    requires WrittenSoFar(store.tables, store.calls, created, t, counter, gen, values, k, db0, calls0)
    modifies store
    ensures store.Valid()
    ensures WrittenSoFar(store.tables, store.calls, created + [item], t, counter, gen, values, k + 1, db0, calls0)
  {
    ghost var tables, calls := store.tables, store.calls;
    var failure;
    item, failure := PutOne(store, t, counter, gen(k), values[k]);
    Advance(tables, calls, store.tables, store.calls, created, item, t, counter, gen, values, k, db0, calls0);
  }

  /** The k-th value's record and counter, put over what the loop has done so far, extend it by one value. */
  lemma Advance(tables: Db, calls: seq<Call>, tables': Db, calls': seq<Call>, created: seq<Record>, item: Record,
                t: Table, counter: Option<Table>, gen: nat -> string, values: seq<Record>, k: nat, db0: Db, calls0: seq<Call>)
    requires Complete(db0) && Fits(OneByOne(counter), t) && Unkeyed(t, values) && k < |values|
    requires WrittenSoFar(tables, calls, created, t, counter, gen, values, k, db0, calls0)
    requires Complete(tables')
    requires item == (if counter.Some? then Stamp(t, gen(k), values[k]) + NewCounter(gen(k)) else Stamp(t, gen(k), values[k]))
    requires calls' == calls + [PutItem(t, Stamp(t, gen(k), values[k]))] +
      (if counter.Some? then [PutItem(counter.value, NewCounter(gen(k)))] else [])
    requires tables'[t] == tables[t][gen(k) := Stamp(t, gen(k), values[k])]
    requires counter.Some? ==> tables'[counter.value] == tables[counter.value][gen(k) := NewCounter(gen(k))]
    requires forall u :: u != t && (counter.None? || u != counter.value) ==> tables'[u] == tables[u]
    ensures WrittenSoFar(tables', calls', created + [item], t, counter, gen, values, k + 1, db0, calls0)
  {
    AdvanceLog(calls, calls', created, item, t, counter, gen, values, k, calls0);
    AdvanceTables(tables, tables', t, counter, gen, values, k, db0);
  }

  /** The k-th value's item and puts extend the items listed and the requests made so far. */
  lemma AdvanceLog(calls: seq<Call>, calls': seq<Call>, created: seq<Record>, item: Record,
                   t: Table, counter: Option<Table>, gen: nat -> string, values: seq<Record>, k: nat, calls0: seq<Call>)
    requires k < |values|
    requires created == Answer(t, OneByOne(counter), gen, values)[..k]
    requires calls == calls0 + PutCalls(t, counter, gen, values[..k])
    requires item == (if counter.Some? then Stamp(t, gen(k), values[k]) + NewCounter(gen(k)) else Stamp(t, gen(k), values[k]))
    requires calls' == calls + [PutItem(t, Stamp(t, gen(k), values[k]))] +
      (if counter.Some? then [PutItem(counter.value, NewCounter(gen(k)))] else [])
    ensures created + [item] == Answer(t, OneByOne(counter), gen, values)[..k + 1]
    ensures calls' == calls0 + PutCalls(t, counter, gen, values[..k + 1])
  {
    PutCallsStep(t, counter, gen, values, k, calls0);
    AnswerAt(t, OneByOne(counter), gen, values, k);
    TakeSnoc(Answer(t, OneByOne(counter), gen, values), k);
  }

  /** The k-th value's record and counter, put over the tables so far, extend what they hold by one value. */
  lemma AdvanceTables(tables: Db, tables': Db, t: Table, counter: Option<Table>, gen: nat -> string, values: seq<Record>,
                      k: nat, db0: Db)
    requires Complete(db0) && Complete(tables) && Complete(tables') && Fits(OneByOne(counter), t) && Unkeyed(t, values) && k < |values|
    requires tables[t] == ApplyWrites(t, db0[t], Puts(Records(t, gen, values)[..k]))
    requires counter.Some? ==> tables[counter.value] == ApplyWrites(counter.value, db0[counter.value], Puts(Counters(gen, |values|)[..k]))
    requires tables'[t] == tables[t][gen(k) := Stamp(t, gen(k), values[k])]
    requires counter.Some? ==> tables'[counter.value] == tables[counter.value][gen(k) := NewCounter(gen(k))]
    ensures tables'[t] == ApplyWrites(t, db0[t], Puts(Records(t, gen, values)[..k + 1]))
    ensures counter.Some? ==> tables'[counter.value] == ApplyWrites(counter.value, db0[counter.value], Puts(Counters(gen, |values|)[..k + 1]))
  {
    var records, counters := Records(t, gen, values), Counters(gen, |values|);
    PutNext(t, db0[t], records, k, tables[t], tables'[t]);
    if counter.Some? {
      PutNext(counter.value, db0[counter.value], counters, k, tables[counter.value], tables'[counter.value]);
    }
  }

  /** Putting the k-th item over the table the first k puts made is what the first k + 1 puts make. */
  lemma PutNext(t: Table, rows0: Rows, items: seq<Record>, k: nat, before: Rows, after: Rows)
    requires AllKeyed(t, items) && k < |items|
    requires before == ApplyWrites(t, rows0, Puts(items[..k]))
    requires after == before[KeyOf(t, items[k]) := items[k]]
    ensures after == ApplyWrites(t, rows0, Puts(items[..k + 1]))
  {
    TakeTake(items, k);
    PutsSnoc(t, rows0, items[..k + 1]);
  }

  /** One value's writes: its record under `id`, then its counter when it has one. */
  method PutOne(store: Store, t: Table, counter: Option<Table>, id: string, value: Record)
    returns (item: Record, failure: Option<StoreError>)
    requires store.Valid() && Fits(OneByOne(counter), t) && KeyName(t) !in value
    modifies store
    ensures store.Valid() && failure == store.fault
    ensures store.fault.Some? ==>
      store.calls == old(store.calls) + [PutItem(t, Stamp(t, id, value))] && store.tables == old(store.tables)
    ensures store.fault.None? ==>
      && item == (if counter.Some? then Stamp(t, id, value) + NewCounter(id) else Stamp(t, id, value))
      && store.calls == old(store.calls) + [PutItem(t, Stamp(t, id, value))] +
           (if counter.Some? then [PutItem(counter.value, NewCounter(id))] else [])
      && store.tables[t] == old(store.tables)[t][id := Stamp(t, id, value)]
      && (counter.Some? ==> store.tables[counter.value] == old(store.tables)[counter.value][id := NewCounter(id)])
      && forall u :: u != t && (counter.None? || u != counter.value) ==> store.tables[u] == old(store.tables)[u]
  {
    var record := Stamp(t, id, value);
    failure := store.Put(t, record);
    item := record;
    if failure.Some? {
      return;
    }
    if counter.Some? {
      var counterFailure := store.Put(counter.value, NewCounter(id));
      // The record's put succeeded, so the store is up and this one succeeds too.
      if counterFailure.Some? {
        assert false;
      }
      item := record + NewCounter(id);
    }
  }

  /** Tables that hold what `Stored` describes, table by table, are what it returns. */
  lemma StoredIs(t: Table, w: Writes, db: Db, records: seq<Record>, counters: seq<Record>, tables: Db)
    requires Complete(db) && Complete(tables) && Fits(w, t) && AllKeyed(t, records)
    requires HasCounter(w) ==> AllKeyed(w.counter.value, counters)
    requires PutsKeyed(t, Puts(records)) && tables[t] == ApplyWrites(t, db[t], Puts(records))
    requires HasCounter(w) ==>
      && PutsKeyed(w.counter.value, Puts(counters))
      && tables[w.counter.value] == ApplyWrites(w.counter.value, db[w.counter.value], Puts(counters))
    requires forall u :: u != t && !(HasCounter(w) && u == w.counter.value) ==> tables[u] == db[u]
    ensures tables == Stored(t, w, db, records, counters)
  {
    var d := Stored(t, w, db, records, counters);
    assert forall u :: u in d ==> tables[u] == d[u];
  }
}
