/**
 * The document store behind every handler, held in memory: one table of
 * items per entity and per attendee counter, each item stored under the
 * value of its key attribute. The store records every request it receives,
 * in order, so that what a handler asked of it, and what it did not, can be
 * stated. A store that is down refuses every request with the same error.
 */
module DocStore {
  import opened Options
  import opened JsonValues

  datatype Table =
    | Events | EventAttendees | Areas | Buildings | Eateries
    | OpenHouses | OpenHouseAttendees | Departments

  /** The attribute that keys a table's items: `UUID` for departments, `uuid` elsewhere. */
  function KeyName(t: Table): string {
    if t == Departments then "UUID" else "uuid"
  }

  /** A table's contents: each item under its key. */
  type Rows = map<string, Record>

  /** Every table's contents. */
  type Db = map<Table, Rows>

  /** A failed store request: the error's `code` and `message`. */
  datatype StoreError = StoreError(code: string, message: string)

  const CONDITIONAL_CHECK_FAILED := "ConditionalCheckFailedException"

  /** A condition expression that did not hold. */
  const ConditionFailed := StoreError(CONDITIONAL_CHECK_FAILED, "The conditional request failed")

  /** An update expression that reads an attribute the item does not have. */
  const MissingOperand := StoreError("ValidationException", "The provided expression refers to an attribute that does not exist in the item")

  /** An update expression that adds to an attribute that is not a number. */
  const WrongOperandType := StoreError("ValidationException", "An operand in the update expression has an incorrect data type")

  /** A batch write with no requests in it. */
  const EmptyBatch := StoreError("ValidationException", "The batch write request list is empty")

  /** A batch write with more requests than the store accepts in one call. */
  const OversizedBatch := StoreError("ValidationException", "Too many items requested for the BatchWriteItem call")

  /** The most requests one batch write may carry. */
  const MAX_BATCH_REQUESTS := 25

  /** A batch read with no keys in it. */
  const EmptyKeys := StoreError("ValidationException", "The batch get request names no keys")

  /** A batch read with more keys than the store accepts in one call. */
  const OversizedKeys := StoreError("ValidationException", "Too many items requested for the BatchGetItem call")

  /** The most keys one batch read may name. */
  const MAX_BATCH_KEYS := 100

  datatype WriteRequest = PutRequest(item: Record) | DeleteRequest(key: string)

  /** One request a handler sends to the store. */
  datatype Call =
    | GetItem(table: Table, key: string)
    | PutItem(table: Table, item: Record)
    | DeleteItem(table: Table, key: string)
    | ScanTable(table: Table)
    | BatchWriteItem(table: Table, requests: seq<WriteRequest>)
    | BatchGetItem(table: Table, keys: seq<string>)
      /** `SET attribute = attribute + delta`, guarded by `attribute > above` when `above` is given. */
    | AddToNumber(table: Table, key: string, attribute: string, delta: real, above: Option<real>)

  predicate Keyed(t: Table, item: Record) {
    KeyName(t) in item && item[KeyName(t)].JStr?
  }

  function KeyOf(t: Table, item: Record): string
    requires Keyed(t, item)
  {
    item[KeyName(t)].s
  }

  /** Every item is stored under the value of its own key attribute. */
  predicate WellKeyed(t: Table, rows: Rows) {
    forall k :: k in rows ==> Keyed(t, rows[k]) && KeyOf(t, rows[k]) == k
  }

  /** Every table exists and is well keyed. */
  predicate Complete(db: Db) {
    forall t: Table :: t in db && WellKeyed(t, db[t])
  }

  function Lookup(rows: Rows, key: string): Option<Record> {
    if key in rows then Some(rows[key]) else None
  }

  /** `items` lists every item of `rows` once, in some order. */
  predicate IsListing(items: seq<Record>, rows: Rows) {
    && |items| == |rows|
    && (forall i :: 0 <= i < |items| ==> items[i] in rows.Values)
    && (forall k :: k in rows ==> rows[k] in items)
  }

  predicate PutsKeyed(t: Table, requests: seq<WriteRequest>) {
    forall i :: 0 <= i < |requests| ==> requests[i].PutRequest? ==> Keyed(t, requests[i].item)
  }

  function ApplyWrite(t: Table, rows: Rows, w: WriteRequest): Rows
    requires w.PutRequest? ==> Keyed(t, w.item)
  {
    match w
    case PutRequest(item) => rows[KeyOf(t, item) := item]
    case DeleteRequest(key) => rows - {key}
  }

  /** The table after the requests are applied in order. */
  function ApplyWrites(t: Table, rows: Rows, requests: seq<WriteRequest>): Rows
    requires PutsKeyed(t, requests)
    decreases |requests|
  {
    if requests == [] then rows
    else ApplyWrite(t, ApplyWrites(t, rows, requests[..|requests| - 1]), requests[|requests| - 1])
  }

  /** Appending to a request log in two steps is appending once. */
  lemma LogAppend(log: seq<Call>, a: seq<Call>, b: seq<Call>)
    ensures log + a + b == log + (a + b)
  {
  }

  /** Applying `a + b` is applying `a` and then `b`. */
  lemma {:induction false} ApplyWritesAppend(t: Table, rows: Rows, a: seq<WriteRequest>, b: seq<WriteRequest>)
    requires PutsKeyed(t, a) && PutsKeyed(t, b)
    ensures PutsKeyed(t, a + b)
    ensures ApplyWrites(t, rows, a + b) == ApplyWrites(t, ApplyWrites(t, rows, a), b)
    decreases |b|
  {
    assert forall i :: 0 <= i < |a + b| ==> (a + b)[i] == if i < |a| then a[i] else b[i - |a|];
    if b != [] {
      var b' := b[..|b| - 1];
      assert (a + b)[..|a + b| - 1] == a + b';
      ApplyWritesAppend(t, rows, a, b');
    } else {
      assert a + b == a;
    }
  }

  /** Writes that put keyed items keep a table well keyed. */
  lemma {:induction false} ApplyWritesKeepsKeys(t: Table, rows: Rows, requests: seq<WriteRequest>)
    requires PutsKeyed(t, requests) && WellKeyed(t, rows)
    ensures WellKeyed(t, ApplyWrites(t, rows, requests))
    decreases |requests|
  {
    if requests != [] {
      var init := requests[..|requests| - 1];
      assert PutsKeyed(t, init) by {
        assert forall i :: 0 <= i < |init| ==> init[i] == requests[i];
      }
      ApplyWritesKeepsKeys(t, rows, init);
    }
  }

  predicate AllKeyed(t: Table, items: seq<Record>) {
    forall i :: 0 <= i < |items| ==> Keyed(t, items[i])
  }

  /** The keys of `items`, which are all keyed. */
  function KeysOf(t: Table, items: seq<Record>): set<string> {
    set i | 0 <= i < |items| && Keyed(t, items[i]) :: KeyOf(t, items[i])
  }

  /** No two of `items` share a key. */
  predicate DistinctKeys(t: Table, items: seq<Record>)
    requires AllKeyed(t, items)
  {
    forall i, j :: 0 <= i < j < |items| ==> KeyOf(t, items[i]) != KeyOf(t, items[j])
  }

  /** One put request per item, in order. */
  function Puts(items: seq<Record>): seq<WriteRequest> {
    seq(|items|, i requires 0 <= i < |items| => PutRequest(items[i]))
  }

  /** One delete request per key, in order. */
  function Deletes(keys: seq<string>): seq<WriteRequest> {
    seq(|keys|, i requires 0 <= i < |keys| => DeleteRequest(keys[i]))
  }

  lemma PutsAreKeyed(t: Table, items: seq<Record>)
    requires AllKeyed(t, items)
    ensures PutsKeyed(t, Puts(items))
  {
  }

  /** The requests for all but the last item are the put requests of those items. */
  lemma PutsInit(t: Table, items: seq<Record>)
    requires AllKeyed(t, items) && items != []
    ensures PutsKeyed(t, Puts(items)) && AllKeyed(t, items[..|items| - 1])
    ensures Puts(items)[..|items| - 1] == Puts(items[..|items| - 1])
    ensures KeysOf(t, items) == KeysOf(t, items[..|items| - 1]) + {KeyOf(t, items[|items| - 1])}
  {
    var n := |items| - 1;
    assert forall i :: 0 <= i < n ==> items[..n][i] == items[i];
  }

  /** Putting items with distinct keys stores each of them under its key. */
  lemma {:induction false} PutsLand(t: Table, rows: Rows, items: seq<Record>)
    requires AllKeyed(t, items) && DistinctKeys(t, items)
    ensures PutsKeyed(t, Puts(items))
    ensures forall i :: 0 <= i < |items| ==>
      KeyOf(t, items[i]) in ApplyWrites(t, rows, Puts(items)) && ApplyWrites(t, rows, Puts(items))[KeyOf(t, items[i])] == items[i]
    decreases |items|
  {
    PutsAreKeyed(t, items);
    if items != [] {
      var n := |items| - 1;
      PutsInit(t, items);
      PutsLand(t, rows, items[..n]);
      forall i | 0 <= i < n
        ensures KeyOf(t, items[i]) in ApplyWrites(t, rows, Puts(items)) && ApplyWrites(t, rows, Puts(items))[KeyOf(t, items[i])] == items[i]
      {
        assert items[..n][i] == items[i];
      }
    }
  }

  /** Putting one item more is storing it under its key over what the others left. */
  lemma PutsSnoc(t: Table, rows: Rows, items: seq<Record>)
    requires AllKeyed(t, items) && items != []
    ensures PutsKeyed(t, Puts(items)) && AllKeyed(t, items[..|items| - 1]) && PutsKeyed(t, Puts(items[..|items| - 1]))
    ensures ApplyWrites(t, rows, Puts(items)) ==
      ApplyWrites(t, rows, Puts(items[..|items| - 1]))[KeyOf(t, items[|items| - 1]) := items[|items| - 1]]
  {
    PutsInit(t, items);
    PutsAreKeyed(t, items[..|items| - 1]);
  }

  /** Putting items adds exactly their keys and leaves every other item as it was. */
  lemma {:induction false} PutsKeep(t: Table, rows: Rows, items: seq<Record>)
    requires AllKeyed(t, items)
    ensures PutsKeyed(t, Puts(items))
    ensures ApplyWrites(t, rows, Puts(items)).Keys == rows.Keys + KeysOf(t, items)
    ensures forall k :: k in rows && k !in KeysOf(t, items) ==> ApplyWrites(t, rows, Puts(items))[k] == rows[k]
    decreases |items|
  {
    PutsAreKeyed(t, items);
    if items != [] {
      PutsInit(t, items);
      PutsKeep(t, rows, items[..|items| - 1]);
    }
  }

  /** Deleting a list of keys removes exactly those keys. */
  lemma {:induction false} DeletesRemove(t: Table, rows: Rows, keys: seq<string>)
    ensures PutsKeyed(t, Deletes(keys))
    ensures ApplyWrites(t, rows, Deletes(keys)) == rows - (set k | k in keys)
    decreases |keys|
  {
    if keys == [] {
      assert rows - (set k | k in keys) == rows;
    } else {
      var n := |keys| - 1;
      assert Deletes(keys)[..n] == Deletes(keys[..n]);
      DeletesRemove(t, rows, keys[..n]);
      assert (set k | k in keys) == (set k | k in keys[..n]) + {keys[n]} by {
        assert keys == keys[..n] + [keys[n]];
      }
    }
  }

  /** What the store answers to a batch write: success, or why it refuses the whole batch. */
  function BatchFailure(fault: Option<StoreError>, requests: seq<WriteRequest>): Option<StoreError> {
    if fault.Some? then fault
    else if |requests| == 0 then Some(EmptyBatch)
    else if |requests| > MAX_BATCH_REQUESTS then Some(OversizedBatch)
    else None
  }

  /** What the store answers to a batch read: success, or why it refuses the whole request. */
  function BatchGetFailure(fault: Option<StoreError>, keys: seq<string>): Option<StoreError> {
    if fault.Some? then fault
    else if |keys| == 0 then Some(EmptyKeys)
    else if |keys| > MAX_BATCH_KEYS then Some(OversizedKeys)
    else None
  }

  /** The items a batch read finds: those stored under one of the keys it names. */
  function Found(rows: Rows, keys: seq<string>): (r: Rows)
    ensures forall k :: k in r <==> k in rows && k in keys
    ensures forall k :: k in r ==> r[k] == rows[k]
  {
    map k | k in rows && k in keys :: rows[k]
  }

  /** The number held in `attribute` of the item under `key`, when there is one. */
  function NumberAt(rows: Rows, key: string, attribute: string): Option<real> {
    if key in rows && attribute in rows[key] && rows[key][attribute].JNum? then Some(rows[key][attribute].n) else None
  }

  /**
   * The store's evaluation of `SET attribute = attribute + delta` on one item,
   * first checking the condition `attribute > above` when one is given.
   */
  function AddOutcome(rows: Rows, key: string, attribute: string, delta: real, above: Option<real>): Result<Rows, StoreError> {
    if above.Some? && !(NumberAt(rows, key, attribute).Some? && NumberAt(rows, key, attribute).value > above.value) then
      Failure(ConditionFailed)
    else if !(key in rows && attribute in rows[key]) then Failure(MissingOperand)
    else if !rows[key][attribute].JNum? then Failure(WrongOperandType)
    else Success(rows[key := rows[key][attribute := JNum(rows[key][attribute].n + delta)]])
  }

  /** An update of a non-key attribute leaves every item under its own key. */
  lemma AddKeepsKeys(t: Table, rows: Rows, key: string, attribute: string, delta: real, above: Option<real>)
    requires WellKeyed(t, rows) && attribute != KeyName(t) && AddOutcome(rows, key, attribute, delta, above).Success?
    ensures WellKeyed(t, AddOutcome(rows, key, attribute, delta, above).value)
  {
  }

  /** Lists a table's items, each exactly once, in an order the store chooses. */
  method ListRows(rows: Rows) returns (items: seq<Record>)
    ensures IsListing(items, rows)
  {
    var remaining := rows.Keys;
    items := [];
    while remaining != {}
      invariant remaining <= rows.Keys
      invariant |items| + |remaining| == |rows|
      invariant forall i :: 0 <= i < |items| ==> items[i] in rows.Values
      invariant forall k :: k in rows && k !in remaining ==> rows[k] in items
      decreases remaining
    {
      var k :| k in remaining;
      items := items + [rows[k]];
      remaining := remaining - {k};
    }
  }

  class Store {
    /** The contents of every table. */
    var tables: Db
    /** Every request received so far, oldest first. */
    var calls: seq<Call>
    /** When set, the store is down and refuses every request with this error. */
    const fault: Option<StoreError>

    ghost predicate Valid()
      reads this
    {
      Complete(tables)
    }

    constructor (contents: Db, down: Option<StoreError>)
      requires Complete(contents)
      ensures Valid() && tables == contents && fault == down && calls == []
    {
      tables := contents;
      fault := down;
      calls := [];
    }

    /** A point read by key. */
    method Get(t: Table, key: string) returns (r: Result<Option<Record>, StoreError>)
      requires Valid()
      modifies this`calls
      ensures calls == old(calls) + [GetItem(t, key)]
      ensures fault.Some? ==> r == Failure(fault.value)
      ensures fault.None? ==> r == Success(Lookup(tables[t], key))
    {
      calls := calls + [GetItem(t, key)];
      if fault.Some? {
        return Failure(fault.value);
      }
      r := Success(Lookup(tables[t], key));
    }

    /** Stores `item` under its key, replacing whatever was there. */
    method Put(t: Table, item: Record) returns (failure: Option<StoreError>)
      requires Valid() && Keyed(t, item)
      modifies this
      ensures Valid() && calls == old(calls) + [PutItem(t, item)] && failure == fault
      ensures tables == if fault.None? then old(tables)[t := old(tables)[t][KeyOf(t, item) := item]] else old(tables)
    {
      calls := calls + [PutItem(t, item)];
      failure := fault;
      if fault.None? {
        tables := tables[t := tables[t][KeyOf(t, item) := item]];
      }
    }

    /** Removes the item under `key`; removing an absent key succeeds and changes nothing. */
    method Delete(t: Table, key: string) returns (failure: Option<StoreError>)
      requires Valid()
      modifies this
      ensures Valid() && calls == old(calls) + [DeleteItem(t, key)] && failure == fault
      ensures tables == if fault.None? then old(tables)[t := old(tables)[t] - {key}] else old(tables)
    {
      calls := calls + [DeleteItem(t, key)];
      failure := fault;
      if fault.None? {
        tables := tables[t := tables[t] - {key}];
      }
    }

    /** Reads every item of a table. */
    method Scan(t: Table) returns (r: Result<seq<Record>, StoreError>)
      requires Valid()
      modifies this`calls
      ensures calls == old(calls) + [ScanTable(t)]
      ensures fault.Some? ==> r == Failure(fault.value)
      ensures fault.None? ==> r.Success? && IsListing(r.value, tables[t])
    {
      calls := calls + [ScanTable(t)];
      if fault.Some? {
        return Failure(fault.value);
      }
      var items := ListRows(tables[t]);
      r := Success(items);
    }

    /**
     * One batch read: every stored item under one of `keys`, each once, in
     * an order the store chooses, or, when the store refuses the request,
     * its error.
     */
    method BatchGet(t: Table, keys: seq<string>) returns (r: Result<seq<Record>, StoreError>)
      requires Valid()
      modifies this`calls
      ensures calls == old(calls) + [BatchGetItem(t, keys)]
      ensures BatchGetFailure(fault, keys).Some? ==> r == Failure(BatchGetFailure(fault, keys).value)
      ensures BatchGetFailure(fault, keys).None? ==> r.Success? && IsListing(r.value, Found(tables[t], keys))
    {
      calls := calls + [BatchGetItem(t, keys)];
      var failure := BatchGetFailure(fault, keys);
      if failure.Some? {
        return Failure(failure.value);
      }
      var items := ListRows(Found(tables[t], keys));
      r := Success(items);
    }

    /** One batch write: every request is applied, or, when the store refuses the batch, none is. */
    method BatchWrite(t: Table, requests: seq<WriteRequest>) returns (failure: Option<StoreError>)
      requires Valid() && PutsKeyed(t, requests)
      modifies this
      ensures Valid() && calls == old(calls) + [BatchWriteItem(t, requests)]
      ensures failure == BatchFailure(fault, requests)
      ensures tables == if failure.None? then old(tables)[t := ApplyWrites(t, old(tables)[t], requests)] else old(tables)
    {
      calls := calls + [BatchWriteItem(t, requests)];
      failure := BatchFailure(fault, requests);
      if failure.None? {
        ApplyWritesKeepsKeys(t, tables[t], requests);
        tables := tables[t := ApplyWrites(t, tables[t], requests)];
      }
    }

    /** An update `SET attribute = attribute + delta` on one item, optionally conditional on `attribute > above`. */
    method Add(t: Table, key: string, attribute: string, delta: real, above: Option<real>) returns (failure: Option<StoreError>)
      requires Valid() && attribute != KeyName(t)
      modifies this
      ensures Valid() && calls == old(calls) + [AddToNumber(t, key, attribute, delta, above)]
      ensures fault.Some? ==> failure == fault && tables == old(tables)
      ensures fault.None? ==> match AddOutcome(old(tables)[t], key, attribute, delta, above)
        case Failure(e) => failure == Some(e) && tables == old(tables)
        case Success(rows) => failure.None? && tables == old(tables)[t := rows]
    {
      calls := calls + [AddToNumber(t, key, attribute, delta, above)];
      if fault.Some? {
        return fault;
      }
      match AddOutcome(tables[t], key, attribute, delta, above)
      case Failure(e) => failure := Some(e);
      case Success(rows) =>
        AddKeepsKeys(t, tables[t], key, attribute, delta, above);
        failure := None;
        tables := tables[t := rows];
    }
  }
}
