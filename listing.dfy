/**
 * Listing events and open houses with their counts.
 *
 * Events: after the scan, each listed item gets the `attendees` of the
 * counter stored under its `uuid`, one keyed read per item, in listing
 * order. An item whose counter is missing makes the read of
 * `.Item.attendees` throw, and the listing fails there.
 *
 * Open houses: the adapter's `getOpenHouseAttendees` reads the counters of
 * a list of uuids in one batch read, and the handler's tests expect one such
 * read of every listed uuid, none for an empty listing, and each open house
 * to get the count of the counter under its uuid, or no `attendees` at all
 * when it has none. `MergeCounts` is that listing; `AttachAllAsWritten` is
 * the handler's loop as it stands.
 */
module Listing {
  import opened Options
  import opened JsonValues
  import opened DocStore
  import opened AttendeeStore
  import opened Slices

  /** `item.attendees = (await getAttendees(item.uuid)).Item.attendees` for one item. */
  method ReadCounter(store: Store, ct: Table, item: Record) returns (r: Result<Record, string>)
    requires store.Valid()
    modifies store`calls
    ensures store.calls == old(store.calls) + [GetItem(ct, UuidOf(item))]
    ensures r == Attached(item, store.tables[ct], store.fault)
  {
    var counter := store.Get(ct, UuidOf(item));
    if counter.Failure? {
      return Failure(counter.error.message);
    }
    if counter.value.None? {
      return Failure(NO_COUNTER);
    }
    r := Success(WithAttendees(item, counter.value.value));
  }

  /**
   * The message of the `TypeError` thrown when `.attendees` is read from the
   * `Item` of a read that found nothing (as Node.js words it up to version 14).
   */
  const NO_COUNTER := "Cannot read property 'attendees' of undefined"

  /** The `uuid` an item is listed under, as `item.uuid` reads it. */
  function UuidOf(item: Record): string {
    if "uuid" in item && item["uuid"].JStr? then item["uuid"].s else ""
  }

  /**
   * `item.attendees = counter.attendees`: the counter's value, or no member
   * at all when the counter has none, since an `undefined` member is not
   * serialised.
   */
  function WithAttendees(item: Record, counter: Record): (r: Record)
    ensures ATTENDEES in counter ==> r.Keys == item.Keys + {ATTENDEES} && r[ATTENDEES] == counter[ATTENDEES]
    ensures ATTENDEES !in counter ==> r.Keys == item.Keys - {ATTENDEES}
    ensures forall m :: m in item && m != ATTENDEES ==> m in r && r[m] == item[m]
  {
    if ATTENDEES in counter then item[ATTENDEES := counter[ATTENDEES]] else item - {ATTENDEES}
  }

  /** One item with its count: the error message of the read when it fails or finds no counter. */
  function Attached(item: Record, counters: Rows, fault: Option<StoreError>): Result<Record, string> {
    if fault.Some? then Failure(fault.value.message)
    else if UuidOf(item) !in counters then Failure(NO_COUNTER)
    else Success(WithAttendees(item, counters[UuidOf(item)]))
  }

  /** The items with their counts, in order, or the first failure. */
  function AttachAll(items: seq<Record>, counters: Rows, fault: Option<StoreError>): Result<seq<Record>, string>
    decreases |items|
  {
    if items == [] then Success([])
    else
      match AttachAll(items[..|items| - 1], counters, fault)
      case Failure(m) => Failure(m)
      case Success(done) =>
        match Attached(items[|items| - 1], counters, fault)
        case Failure(m) => Failure(m)
        case Success(item) => Success(done + [item])
  }

  /** The counter reads: one per item, up to and including the first that fails. */
  function AttachCalls(ct: Table, items: seq<Record>, counters: Rows, fault: Option<StoreError>): seq<Call>
    decreases |items|
  {
    if items == [] then []
    else if AttachAll(items[..|items| - 1], counters, fault).Failure? then AttachCalls(ct, items[..|items| - 1], counters, fault)
    else AttachCalls(ct, items[..|items| - 1], counters, fault) + [GetItem(ct, UuidOf(items[|items| - 1]))]
  }

  /**
   * Attaching succeeds exactly when every item has a counter and, unless
   * there is no item, the store is up; each item then keeps all its other
   * members and gets its own counter's `attendees`, in listing order.
   */
  lemma {:induction false} AttachSuccess(items: seq<Record>, counters: Rows, fault: Option<StoreError>)
    ensures AttachAll(items, counters, fault).Success? <==>
      forall k :: 0 <= k < |items| ==> Attached(items[k], counters, fault).Success?
    ensures AttachAll(items, counters, fault).Success? ==>
      var merged := AttachAll(items, counters, fault).value;
      && |merged| == |items|
      && forall k :: 0 <= k < |items| ==> merged[k] == WithAttendees(items[k], counters[UuidOf(items[k])])
    decreases |items|
  {
    if items != [] {
      var n := |items| - 1;
      AttachSuccess(items[..n], counters, fault);
      assert forall k :: 0 <= k < n ==> items[..n][k] == items[k];
    }
  }

  /** A failed attach fails with the error of the first item whose read fails or finds no counter. */
  lemma {:induction false} AttachFailure(items: seq<Record>, counters: Rows, fault: Option<StoreError>)
    ensures AttachAll(items, counters, fault).Failure? ==>
      exists i :: 0 <= i < |items| && Attached(items[i], counters, fault) == Failure(AttachAll(items, counters, fault).error) &&
        forall k :: 0 <= k < i ==> Attached(items[k], counters, fault).Success?
    decreases |items|
  {
    if items != [] {
      var n := |items| - 1;
      AttachFailure(items[..n], counters, fault);
      AttachSuccess(items[..n], counters, fault);
      assert forall k :: 0 <= k < n ==> items[..n][k] == items[k];
      if AttachAll(items[..n], counters, fault).Failure? {
        var i :| 0 <= i < n && Attached(items[..n][i], counters, fault) == Failure(AttachAll(items[..n], counters, fault).error) &&
          forall k :: 0 <= k < i ==> Attached(items[..n][k], counters, fault).Success?;
        assert Attached(items[i], counters, fault) == Failure(AttachAll(items, counters, fault).error);
      }
    }
  }

  /** A down store fails the first read, and only that one is made. */
  lemma {:induction false} AttachWhenDown(ct: Table, items: seq<Record>, counters: Rows, error: StoreError)
    requires items != []
    ensures AttachAll(items, counters, Some(error)) == Failure(error.message)
    ensures AttachCalls(ct, items, counters, Some(error)) == [GetItem(ct, UuidOf(items[0]))]
    decreases |items|
  {
    if |items| > 1 {
      var n := |items| - 1;
      AttachWhenDown(ct, items[..n], counters, error);
    }
  }

  /**
   * Attaching one item more, after the ones before it succeeded: one read
   * more, and either the item joins the list or attaching stops there.
   */
  lemma AttachNext(ct: Table, items: seq<Record>, counters: Rows, fault: Option<StoreError>, k: nat, done: seq<Record>)
    requires k < |items| && AttachAll(items[..k], counters, fault) == Success(done)
    ensures AttachCalls(ct, items[..k + 1], counters, fault) == AttachCalls(ct, items[..k], counters, fault) + [GetItem(ct, UuidOf(items[k]))]
    ensures Attached(items[k], counters, fault).Success? ==>
      AttachAll(items[..k + 1], counters, fault) == Success(done + [Attached(items[k], counters, fault).value])
    ensures Attached(items[k], counters, fault).Failure? ==>
      && AttachAll(items, counters, fault) == Failure(Attached(items[k], counters, fault).error)
      && AttachCalls(ct, items, counters, fault) == AttachCalls(ct, items[..k + 1], counters, fault)
  {
    assert items[..k + 1][..k] == items[..k];
    if Attached(items[k], counters, fault).Failure? {
      AttachFailureSticks(ct, items, counters, fault, k + 1);
    }
  }

  /** Once attaching a prefix has failed, attaching the whole list fails the same way, with no further reads. */
  lemma {:induction false} AttachFailureSticks(ct: Table, items: seq<Record>, counters: Rows, fault: Option<StoreError>, n: nat)
    requires n <= |items| && AttachAll(items[..n], counters, fault).Failure?
    ensures AttachAll(items, counters, fault) == AttachAll(items[..n], counters, fault)
    ensures AttachCalls(ct, items, counters, fault) == AttachCalls(ct, items[..n], counters, fault)
    decreases |items| - n
  {
    if n < |items| {
      var m := |items| - 1;
      assert items[..m][..n] == items[..n];
      AttachFailureSticks(ct, items[..m], counters, fault, n);
    } else {
      assert items[..n] == items;
    }
  }

  /** The loop of `getEvents` and `getOpenHouses`: each listed item in turn gets its counter's `attendees`. */
  method AttachAttendees(store: Store, ct: Table, items: seq<Record>) returns (r: Result<seq<Record>, string>)
    requires store.Valid() && CounterTable(ct)
    modifies store`calls
    ensures r == AttachAll(items, store.tables[ct], store.fault)
    ensures store.calls == old(store.calls) + AttachCalls(ct, items, store.tables[ct], store.fault)
  {
    ghost var calls0, rows := store.calls, store.tables[ct];
    var done: seq<Record> := [];
    var i := 0;
    while i < |items|
      invariant 0 <= i <= |items| && store.Valid() && store.tables[ct] == rows
      invariant AttachAll(items[..i], rows, store.fault) == Success(done)
      invariant store.calls == calls0 + AttachCalls(ct, items[..i], rows, store.fault)
    {
      var next := ReadCounter(store, ct, items[i]);
      AttachNext(ct, items, rows, store.fault, i, done);
      LogAppend(calls0, AttachCalls(ct, items[..i], rows, store.fault), [GetItem(ct, UuidOf(items[i]))]);
      if next.Failure? {
        return Failure(next.error);
      }
      done := done + [next.value];
      i := i + 1;
    }
    assert items[..i] == items;
    r := Success(done);
  }

  /**
   * The message of the `TypeError` thrown when `getOpenHouseAttendees`, which
   * expects a list of uuids, calls `map` on the single uuid string it is given.
   */
  const NOT_A_LIST := "uuids.map is not a function"

  /**
   * The open-house listing loop as written: `getOpenHouseAttendees` builds a
   * batch read from `uuids.map(...)`, so the first item's call throws before
   * any request is made, and only a listing with no items gets through.
   */
  function AttachAllAsWritten(items: seq<Record>): (r: Result<seq<Record>, string>)
    ensures r.Success? <==> items == []
    ensures r.Success? ==> r.value == []
    ensures r.Failure? ==> r.error == NOT_A_LIST
  {
    if items == [] then Success([]) else Failure(NOT_A_LIST)
  }

  /**
   * With the store up and at most 100 open houses listed, the batched
   * listing lists them all, each counted, while the loop as written fails on
   * the first one.
   */
  lemma AsWrittenFailsWhereBatchLists(items: seq<Record>, counters: Rows)
    requires items != [] && |items| <= MAX_BATCH_KEYS
    ensures AttachAllAsWritten(items) == Failure(NOT_A_LIST)
    ensures CountAll(items, counters, None).Success? && |CountAll(items, counters, None).value| == |items|
  {
    CountAllSucceeds(items, counters);
  }

  /** A concrete case: one open house whose counter holds 3. */
  lemma OneOpenHouseListingFails()
    ensures var item := map["uuid" := JStr("a")];
      && AttachAllAsWritten([item]) == Failure(NOT_A_LIST)
      && CountAll([item], map["a" := map["uuid" := JStr("a"), ATTENDEES := JNum(3.0)]], None) ==
         Success([map["uuid" := JStr("a"), ATTENDEES := JNum(3.0)]])
  {
    var item: Record := map["uuid" := JStr("a")];
    var counter: Record := map["uuid" := JStr("a"), ATTENDEES := JNum(3.0)];
    var counters: Rows := map["a" := counter];
    assert UuidOf(item) == "a";
    assert WithAttendees(item, counter) == counter;
    assert Counted(item, counters) == counter;
    assert CountAll([item], counters, None).value == [counter];
  }

  /** A stored item of a table keyed by `uuid` is stored under its `uuid`. */
  lemma StoredUnderUuid(t: Table, rows: Rows, item: Record)
    requires KeyName(t) == "uuid" && WellKeyed(t, rows) && item in rows.Values
    ensures UuidOf(item) in rows && rows[UuidOf(item)] == item
  {
    var key :| key in rows && rows[key] == item;
    assert KeyOf(t, rows[key]) == key;
  }

  /**
   * For a listing of a table keyed by `uuid`, with the store up, every
   * item gets its count exactly when every stored key has a counter.
   */
  lemma AttachIffCounted(t: Table, items: seq<Record>, rows: Rows, counters: Rows)
    requires KeyName(t) == "uuid" && WellKeyed(t, rows) && IsListing(items, rows)
    ensures AttachAll(items, counters, None).Success? <==> forall key :: key in rows ==> key in counters
  {
    AttachSuccess(items, counters, None);
    if forall key :: key in rows ==> key in counters {
      forall i | 0 <= i < |items|
        ensures Attached(items[i], counters, None).Success?
      {
        StoredUnderUuid(t, rows, items[i]);
      }
    } else {
      var key :| key in rows && key !in counters;
      assert rows[key] in items;
      var i :| 0 <= i < |items| && items[i] == rows[key];
      assert KeyOf(t, rows[key]) == key;
      assert !Attached(items[i], counters, None).Success?;
    }
  }

  /** The uuids of the listed items, in listing order: `items.map((item) => item.uuid)`. */
  function Uuids(items: seq<Record>): (keys: seq<string>)
    ensures |keys| == |items| && forall i :: 0 <= i < |items| ==> keys[i] == UuidOf(items[i])
  {
    seq(|items|, i requires 0 <= i < |items| => UuidOf(items[i]))
  }

  /** `found.find((counter) => counter.uuid === uuid)`: the first counter under `uuid`. */
  function FindCounter(found: seq<Record>, uuid: string): Option<Record>
    decreases |found|
  {
    if found == [] then None
    else if UuidOf(found[0]) == uuid then Some(found[0])
    else FindCounter(found[1..], uuid)
  }

  /** The search finds a counter exactly when one is under `uuid`, and what it finds is one of them. */
  lemma {:induction false} FindCounterFinds(found: seq<Record>, uuid: string)
    ensures FindCounter(found, uuid).Some? <==> exists j :: 0 <= j < |found| && UuidOf(found[j]) == uuid
    ensures FindCounter(found, uuid).Some? ==>
      FindCounter(found, uuid).value in found && UuidOf(FindCounter(found, uuid).value) == uuid
    decreases |found|
  {
    if found != [] && UuidOf(found[0]) != uuid {
      FindCounterFinds(found[1..], uuid);
      if exists j :: 0 <= j < |found| && UuidOf(found[j]) == uuid {
        var j :| 0 <= j < |found| && UuidOf(found[j]) == uuid;
        assert found[1..][j - 1] == found[j];
      }
    }
  }

  /** One open house merged with the batch read's answer: its counter's count, or unchanged when there is none. */
  function Merged(item: Record, found: seq<Record>): Record {
    match FindCounter(found, UuidOf(item))
    case Some(counter) => WithAttendees(item, counter)
    case None => item
  }

  /** One open house with the count stored under its uuid, or unchanged when no counter is stored there. */
  function Counted(item: Record, counters: Rows): Record {
    if UuidOf(item) in counters then WithAttendees(item, counters[UuidOf(item)]) else item
  }

  /**
   * The listing with its counts: nothing to read for an empty listing, else
   * one batch read of every listed uuid, which fails as the store refuses it
   * or succeeds with every item counted.
   */
  function CountAll(items: seq<Record>, counters: Rows, fault: Option<StoreError>): Result<seq<Record>, string> {
    if items == [] then Success([])
    else if BatchGetFailure(fault, Uuids(items)).Some? then Failure(BatchGetFailure(fault, Uuids(items)).value.message)
    else Success(seq(|items|, i requires 0 <= i < |items| => Counted(items[i], counters)))
  }

  /** The requests of `CountAll`: one batch read of every listed uuid, or none for an empty listing. */
  function CountCalls(ct: Table, items: seq<Record>): seq<Call> {
    if items == [] then [] else [BatchGetItem(ct, Uuids(items))]
  }

  /**
   * Whatever order the batch read returns the counters in, an item whose uuid
   * it named gets exactly the count stored under that uuid.
   */
  lemma MergedIsCounted(ct: Table, counters: Rows, keys: seq<string>, found: seq<Record>, item: Record)
    requires KeyName(ct) == "uuid" && WellKeyed(ct, counters) && IsListing(found, Found(counters, keys))
    requires UuidOf(item) in keys
    ensures Merged(item, found) == Counted(item, counters)
  {
    var u := UuidOf(item);
    var rows := Found(counters, keys);
    FindCounterFinds(found, u);
    if u in counters {
      assert rows[u] in found;
      var j :| 0 <= j < |found| && found[j] == rows[u];
      assert KeyOf(ct, counters[u]) == u;
      assert UuidOf(found[j]) == u;
    }
    if FindCounter(found, u).Some? {
      var c := FindCounter(found, u).value;
      assert c in rows.Values;
      var k :| k in rows && rows[k] == c;
      assert KeyOf(ct, counters[k]) == k;
    }
  }

  /**
   * The open-house listing the handler's tests describe: one batch read of
   * the listed uuids, skipped when nothing is listed, then, for each open
   * house in listing order, the count of the counter found under its uuid.
   */
  method MergeCounts(store: Store, ct: Table, items: seq<Record>) returns (r: Result<seq<Record>, string>)
    requires store.Valid() && CounterTable(ct)
    modifies store`calls
    ensures r == CountAll(items, store.tables[ct], store.fault)
    ensures store.calls == old(store.calls) + CountCalls(ct, items)
  {
    if items == [] {
      return Success([]);
    }
    var keys := Uuids(items);
    var found := store.BatchGet(ct, keys);
    if found.Failure? {
      return Failure(found.error.message);
    }
    var merged := MergeFound(items, found.value);
    MergedCounted(ct, store.tables[ct], items, found.value, merged);
    r := Success(merged);
  }

  /** The open house at `i` merged with the batch read is that open house counted. */
  lemma MergedAt(ct: Table, counters: Rows, items: seq<Record>, found: seq<Record>, i: nat)
    requires KeyName(ct) == "uuid" && WellKeyed(ct, counters) && IsListing(found, Found(counters, Uuids(items)))
    requires i < |items|
    ensures Merged(items[i], found) == Counted(items[i], counters)
  {
    assert Uuids(items)[i] == UuidOf(items[i]);
    MergedIsCounted(ct, counters, Uuids(items), found, items[i]);
  }

  /** Merging every open house with the batch read counts every open house. */
  lemma MergedCounted(ct: Table, counters: Rows, items: seq<Record>, found: seq<Record>, merged: seq<Record>)
    requires KeyName(ct) == "uuid" && WellKeyed(ct, counters) && IsListing(found, Found(counters, Uuids(items)))
    requires |merged| == |items| && forall k :: 0 <= k < |items| ==> merged[k] == Merged(items[k], found)
    ensures merged == seq(|items|, k requires 0 <= k < |items| => Counted(items[k], counters))
  {
    forall k | 0 <= k < |items|
      ensures merged[k] == Counted(items[k], counters)
    {
      MergedAt(ct, counters, items, found, k);
    }
  }

  /** The loop of the batched listing: each open house in turn is merged with the batch read. */
  method MergeFound(items: seq<Record>, found: seq<Record>) returns (merged: seq<Record>)
    ensures |merged| == |items| && forall k :: 0 <= k < |items| ==> merged[k] == Merged(items[k], found)
  {
    merged := [];
    var i := 0;
    while i < |items|
      invariant 0 <= i <= |items| && |merged| == i
      invariant forall k :: 0 <= k < i ==> merged[k] == Merged(items[k], found)
    {
      merged := merged + [Merged(items[i], found)];
      i := i + 1;
    }
  }

  /**
   * With the store up, the batched listing succeeds exactly when it names at
   * most 100 uuids; each open house then keeps its other members and has
   * its own counter's count, or no `attendees` member when it has no counter.
   */
  lemma CountAllSucceeds(items: seq<Record>, counters: Rows)
    ensures CountAll(items, counters, None).Success? <==> |items| <= MAX_BATCH_KEYS
    ensures CountAll(items, counters, None).Success? ==>
      var merged := CountAll(items, counters, None).value;
      && |merged| == |items|
      && forall i :: 0 <= i < |items| ==>
        && (UuidOf(items[i]) in counters ==> merged[i] == WithAttendees(items[i], counters[UuidOf(items[i])]))
        && (UuidOf(items[i]) !in counters ==> merged[i] == items[i])
  {
  }

  /**
   * Where every listed open house has its counter, the store is up and at
   * most 100 are listed, the batched read and the keyed reads of the event
   * listing give the same list.
   */
  lemma BatchedAgreesWithKeyed(items: seq<Record>, counters: Rows)
    requires |items| <= MAX_BATCH_KEYS && forall k :: 0 <= k < |items| ==> UuidOf(items[k]) in counters
    ensures CountAll(items, counters, None) == AttachAll(items, counters, None)
  {
    AttachSuccess(items, counters, None);
    if items != [] {
      var merged := AttachAll(items, counters, None).value;
      assert merged == seq(|items|, k requires 0 <= k < |items| => Counted(items[k], counters));
    }
  }
}
