/**
 * Updating and deleting one stored item by the `uuid` of the request path.
 *
 * An update first reads the item, and answers "does not exist" when there
 * is none, before the payload is even looked at; it then checks the payload
 * as a create checks one (schema, then references), and finally replaces
 * the item with `{ uuid, ...payload }`. A delete removes the item, then its
 * attendee counter when the entity has one.
 */
module Updates {
  import opened Options
  import opened JsonValues
  import opened Schemas
  import opened DocStore
  import opened AttendeeStore
  import opened Crud
  import opened Creates

  /** How an update ends. */
  datatype Revised =
    | Replaced                   // the item is replaced: a 200
    | NotFound                   // no item under the uuid: a 404
    | Invalid(message: string)   // the payload is refused: a 400
    | StoreFailed(error: StoreError)

  /** What an update answers, given the tables and the store's state when it starts. */
  function ReviseOf(e: Entity, uuid: string, body: Json, db: Db, fault: Option<StoreError>): Revised
    requires Complete(db)
  {
    if fault.Some? then StoreFailed(fault.value)
    else if uuid !in db[Home(e)] then NotFound
    else
      var v := CheckOf(e, body, db, fault);
      if v.Refused? then Invalid(v.message)
      else if v.Broken? then StoreFailed(v.error)
      else Replaced
  }

  /** The requests an update makes: the read of the item, the payload's lookups, and the put when all is well. */
  function ReviseCalls(e: Entity, uuid: string, body: Json, db: Db, fault: Option<StoreError>): seq<Call>
    requires Complete(db)
  {
    [GetItem(Home(e), uuid)] + if fault.Some? || uuid !in db[Home(e)] then [] else CheckedCalls(e, uuid, body, db, fault)
  }

  /** The requests after the item is found: the payload's lookups, then the put when it is accepted. */
  function CheckedCalls(e: Entity, uuid: string, body: Json, db: Db, fault: Option<StoreError>): seq<Call>
    requires Complete(db)
  {
    var v := CheckOf(e, body, db, fault);
    CheckCalls(e, body, db, fault) + if v.Accepted? then [PutItem(Home(e), Stamp(Home(e), uuid, v.value))] else []
  }

  /** The tables once an update is over: the item replaced when the update succeeds, else as they were. */
  function RevisedTables(e: Entity, uuid: string, body: Json, db: Db, fault: Option<StoreError>): Db
    requires Complete(db)
  {
    if ReviseOf(e, uuid, body, db, fault) == Replaced then
      var t := Home(e);
      db[t := db[t][uuid := Stamp(t, uuid, CheckOf(e, body, db, fault).value)]]
    else db
  }

  /** An update: read the item, and when it exists, check the payload and replace the item. */
  method Revise(store: Store, e: Entity, uuid: string, body: Json) returns (r: Revised)
    requires store.Valid()
    modifies store
    ensures store.Valid()
    ensures r == ReviseOf(e, uuid, body, old(store.tables), store.fault)
    ensures store.calls == old(store.calls) + ReviseCalls(e, uuid, body, old(store.tables), store.fault)
    ensures store.tables == RevisedTables(e, uuid, body, old(store.tables), store.fault)
  {
    var existing := store.Get(Home(e), uuid);
    if existing.Failure? {
      return StoreFailed(existing.error);
    }
    if existing.value.None? {
      return NotFound;
    }
    ghost var read := store.calls;
    r := ReplaceChecked(store, e, uuid, body);
    LogAppend(old(store.calls), [GetItem(Home(e), uuid)], CheckedCalls(e, uuid, body, old(store.tables), store.fault));
  }

  /** The rest of an update once the item is found: check the payload, then replace the item. */
  method ReplaceChecked(store: Store, e: Entity, uuid: string, body: Json) returns (r: Revised)
    requires store.Valid() && store.fault.None? && uuid in store.tables[Home(e)]
    modifies store
    ensures store.Valid()
    ensures r == ReviseOf(e, uuid, body, old(store.tables), store.fault)
    ensures store.calls == old(store.calls) + CheckedCalls(e, uuid, body, old(store.tables), store.fault)
    ensures store.tables == RevisedTables(e, uuid, body, old(store.tables), store.fault)
  {
    var t := Home(e);
    ghost var db := store.tables;
    var v := CheckItem(store, e, body);
    if !v.Accepted? {
      return if v.Refused? then Invalid(v.message) else StoreFailed(v.error);
    }
    AcceptedReplaces(e, uuid, body, db);
    var _ := store.Put(t, Stamp(t, uuid, v.value));
    r := Replaced;
  }

  /** Once the item is found and the payload accepted, the update puts the stamped payload over it. */
  lemma AcceptedReplaces(e: Entity, uuid: string, body: Json, db: Db)
    requires Complete(db) && uuid in db[Home(e)] && CheckOf(e, body, db, None).Accepted?
    ensures var t, value := Home(e), CheckOf(e, body, db, None).value;
      && Keyed(t, Stamp(t, uuid, value)) && KeyOf(t, Stamp(t, uuid, value)) == uuid
      && ReviseOf(e, uuid, body, db, None) == Replaced
      && CheckedCalls(e, uuid, body, db, None) == CheckCalls(e, body, db, None) + [PutItem(t, Stamp(t, uuid, value))]
      && RevisedTables(e, uuid, body, db, None) == db[t := db[t][uuid := Stamp(t, uuid, value)]]
  {
    CheckAccepted(e, body, db, None);
    ValidatedHasNoKey(e, body);
  }

  /**
   * With the store up, an update on a uuid that has no item answers "does
   * not exist" after that one read, before any check of the payload, and
   * writes nothing.
   */
  lemma NotFoundBeforeValidation(e: Entity, uuid: string, body: Json, db: Db)
    requires Complete(db)
    ensures uuid !in db[Home(e)] <==> ReviseOf(e, uuid, body, db, None) == NotFound
    ensures uuid !in db[Home(e)] ==>
      ReviseCalls(e, uuid, body, db, None) == [GetItem(Home(e), uuid)] && RevisedTables(e, uuid, body, db, None) == db
  {
  }

  /**
   * An update succeeds exactly when the store is up, the item exists and
   * the payload is accepted; otherwise no table changes.
   */
  lemma ReplacedExactlyWhenAccepted(e: Entity, uuid: string, body: Json, db: Db, fault: Option<StoreError>)
    requires Complete(db)
    ensures ReviseOf(e, uuid, body, db, fault) == Replaced <==>
      fault.None? && uuid in db[Home(e)] && CheckOf(e, body, db, fault).Accepted?
    ensures ReviseOf(e, uuid, body, db, fault) != Replaced ==> RevisedTables(e, uuid, body, db, fault) == db
  {
  }

  /**
   * After a successful update the item under the uuid is the validated
   * payload with the uuid as its key; every other item of the table, and
   * every other table, is as it was.
   */
  lemma ReplacedItem(e: Entity, uuid: string, body: Json, db: Db, fault: Option<StoreError>)
    requires Complete(db) && ReviseOf(e, uuid, body, db, fault) == Replaced
    ensures var d, t := RevisedTables(e, uuid, body, db, fault), Home(e);
      && ValidateEntity(e, body).Success?
      && uuid in d[t] && Keyed(t, d[t][uuid]) && KeyOf(t, d[t][uuid]) == uuid
      && d[t][uuid] - {KeyName(t)} == ValidateEntity(e, body).value
      && d[t].Keys == db[t].Keys
      && (forall key :: key in db[t] && key != uuid ==> d[t][key] == db[t][key])
      && forall u :: u in db && u != t ==> d[u] == db[u]
  {
    CheckAccepted(e, body, db, fault);
    ValidatedHasNoKey(e, body);
    var t, value := Home(e), ValidateEntity(e, body).value;
    assert RevisedTables(e, uuid, body, db, fault) == db[t := db[t][uuid := Stamp(t, uuid, value)]];
    ReplaceOne(t, db, uuid, value);
  }

  /** Replacing one item with a stamped value. */
  lemma ReplaceOne(t: Table, db: Db, uuid: string, value: Record)
    requires Complete(db) && uuid in db[t] && KeyName(t) !in value
    ensures var d := db[t := db[t][uuid := Stamp(t, uuid, value)]];
      && uuid in d[t] && Keyed(t, d[t][uuid]) && KeyOf(t, d[t][uuid]) == uuid
      && d[t][uuid] - {KeyName(t)} == value
      && d[t].Keys == db[t].Keys
      && (forall key :: key in db[t] && key != uuid ==> d[t][key] == db[t][key])
      && forall u :: u in db && u != t ==> d[u] == db[u]
  {
  }

  /** An update fails only when the store is down, and then with the store's error. */
  lemma RevisionFailsOnlyWhenDown(e: Entity, uuid: string, body: Json, db: Db, fault: Option<StoreError>)
    requires Complete(db)
    ensures ReviseOf(e, uuid, body, db, fault).StoreFailed? ==>
      fault.Some? && ReviseOf(e, uuid, body, db, fault).error == fault.value
  {
    if fault.None? && uuid in db[Home(e)] && ValidateEntity(e, body).Success? {
      BrokenOnlyWhenDown(References(e), ValidateEntity(e, body).value, db, fault);
    }
  }

  /** An update that is refused, or finds no item, only reads. */
  lemma RefusedUpdateOnlyReads(e: Entity, uuid: string, body: Json, db: Db, fault: Option<StoreError>)
    requires Complete(db) && ReviseOf(e, uuid, body, db, fault) != Replaced
    ensures forall c :: c in ReviseCalls(e, uuid, body, db, fault) ==> c.GetItem?
  {
    if fault.None? && uuid in db[Home(e)] {
      match ValidateEntity(e, body)
      case Failure(_) =>
      case Success(value) =>
        LookupsOnlyRead(References(e), value, db, fault);
    }
  }

  /** The requests of a delete: the item's, then, when that succeeds and there is one, its counter's. */
  function RemoveCalls(t: Table, counter: Option<Table>, uuid: string, fault: Option<StoreError>): seq<Call> {
    [DeleteItem(t, uuid)] + if fault.None? && counter.Some? then [DeleteItem(counter.value, uuid)] else []
  }

  /** The tables once a delete is over. */
  function RemovedTables(t: Table, counter: Option<Table>, uuid: string, db: Db, fault: Option<StoreError>): Db
    requires Complete(db)
  {
    if fault.Some? then db
    else if counter.Some? then db[t := db[t] - {uuid}][counter.value := db[counter.value] - {uuid}]
    else db[t := db[t] - {uuid}]
  }

  /**
   * A delete: remove the item under `uuid`, then, when the entity has a
   * counter table, the counter under the same uuid. Removing what is not
   * there succeeds.
   */
  method Remove(store: Store, t: Table, counter: Option<Table>, uuid: string) returns (failure: Option<StoreError>)
    requires store.Valid() && (counter.Some? ==> counter.value != t)
    modifies store
    ensures store.Valid()
    ensures failure == store.fault
    ensures store.calls == old(store.calls) + RemoveCalls(t, counter, uuid, store.fault)
    ensures store.tables == RemovedTables(t, counter, uuid, old(store.tables), store.fault)
  {
    failure := store.Delete(t, uuid);
    if failure.Some? {
      return;
    }
    if counter.Some? {
      var counterFailure := store.Delete(counter.value, uuid);
      // The item's delete succeeded, so the store is up and this one succeeds too.
      if counterFailure.Some? {
        assert false;
      }
    }
  }

  /**
   * A delete with the store up removes the item and, when there is one, its
   * counter, and nothing else: the uuid is in neither table afterwards, and
   * every other item and table is as it was. A delete with the store down
   * changes nothing.
   */
  lemma RemovesItemAndCounter(t: Table, counter: Option<Table>, uuid: string, db: Db, fault: Option<StoreError>)
    requires Complete(db) && (counter.Some? ==> counter.value != t)
    ensures var d := RemovedTables(t, counter, uuid, db, fault);
      && Complete(d)
      && (fault.Some? ==> d == db)
      && (fault.None? ==>
        && d[t].Keys == db[t].Keys - {uuid}
        && (forall k :: k in d[t] ==> d[t][k] == db[t][k])
        && (counter.Some? ==> d[counter.value].Keys == db[counter.value].Keys - {uuid}
                              && forall k :: k in d[counter.value] ==> d[counter.value][k] == db[counter.value][k])
        && forall u :: u != t && (counter.None? || u != counter.value) ==> d[u] == db[u])
  {
  }
}
