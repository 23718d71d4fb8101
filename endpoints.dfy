/**
 * The CRUD handlers, one module each: the settings that make the shared
 * dispatcher into that handler, the handler itself, and what holds of it
 * alone.
 */

/** functions/events/handler.js: events, each created with a zeroed attendee counter. */
module EventsHandler {
  import opened Options
  import opened DocStore
  import opened Schemas
  import opened Creates
  import opened Http
  import opened Handlers

  const API := Api(Event, OneByOne(Some(EventAttendees)), Some(EventAttendees), PerItem, Respond500, Collection, "Event does not exist")

  /** Every request is answered with a response: a thrown error becomes a 500. */
  method Handle(store: Store, gen: nat -> string, req: Request) returns (response: Response)
    requires store.Valid()
    modifies store
    ensures store.Valid() && old(store.calls) <= store.calls
    ensures Served(API, gen, req, old(store.tables), store.fault, store.calls[|old(store.calls)|..], store.tables, Reply(response))
  {
    var out := Serve(store, API, gen, req);
    AlwaysResponds(API, gen, req, old(store.tables), store.fault, store.calls[|old(store.calls)|..], store.tables, out);
    response := out.response;
  }
}

/** functions/eateries/handler.js: eateries, created in batches. */
module EateriesHandler {
  import opened Options
  import opened DocStore
  import opened Schemas
  import opened Creates
  import opened Http
  import opened Handlers

  const API := Api(Eatery, InBatches, None, PerItem, Respond500, Collection, "Eatery does not exist")

  /** Every request is answered with a response: a thrown error becomes a 500. */
  method Handle(store: Store, gen: nat -> string, req: Request) returns (response: Response)
    requires store.Valid()
    modifies store
    ensures store.Valid() && old(store.calls) <= store.calls
    ensures Served(API, gen, req, old(store.tables), store.fault, store.calls[|old(store.calls)|..], store.tables, Reply(response))
  {
    var out := Serve(store, API, gen, req);
    AlwaysResponds(API, gen, req, old(store.tables), store.fault, store.calls[|old(store.calls)|..], store.tables, out);
    response := out.response;
  }
}

/**
 * functions/buildings/handler.js: buildings, created in batches of at most
 * 25 (the single batch of `createBuildings` is a finding of this model).
 */
module BuildingsHandler {
  import opened Options
  import opened DocStore
  import opened Schemas
  import opened Creates
  import opened Http
  import opened Handlers

  const API := Api(Building, InBatches, None, PerItem, Respond500, Collection, "Building does not exist")

  /** Every request is answered with a response: a thrown error becomes a 500. */
  method Handle(store: Store, gen: nat -> string, req: Request) returns (response: Response)
    requires store.Valid()
    modifies store
    ensures store.Valid() && old(store.calls) <= store.calls
    ensures Served(API, gen, req, old(store.tables), store.fault, store.calls[|old(store.calls)|..], store.tables, Reply(response))
  {
    var out := Serve(store, API, gen, req);
    AlwaysResponds(API, gen, req, old(store.tables), store.fault, store.calls[|old(store.calls)|..], store.tables, out);
    response := out.response;
  }

  /** Deleting a building removes that building alone: the eateries and events that name it stay. */
  lemma DeleteDoesNotCascade(gen: nat -> string, req: Request, db: Db, log: seq<Call>, db': Db, out: Outcome, uuid: string)
    requires Complete(db) && Served(API, gen, req, db, None, log, db', out)
    requires RouteOf(req, true) == Remove(uuid)
    ensures log == [DeleteItem(Buildings, uuid)]
    ensures db'[Buildings].Keys == db[Buildings].Keys - {uuid}
    ensures forall t :: t != Buildings ==> db'[t] == db[t]
  {
    DeleteRemovesItemAndCounter(API, gen, req, db, log, db', out, uuid);
  }
}

/** functions/areas/handler.js: areas, each put on its own; errors are returned, not answered. */
module AreasHandler {
  import opened Options
  import opened DocStore
  import opened Schemas
  import opened Creates
  import opened Http
  import opened Handlers

  const API := Api(Area, OneByOne(None), None, PerItem, ReturnError, Collection, "Area does not exist")

  method Handle(store: Store, gen: nat -> string, req: Request) returns (out: Outcome)
    requires store.Valid()
    modifies store
    ensures store.Valid() && old(store.calls) <= store.calls
    ensures Served(API, gen, req, old(store.tables), store.fault, store.calls[|old(store.calls)|..], store.tables, out)
  {
    out := Serve(store, API, gen, req);
  }
}

/** functions/openhouses/handler.js: open houses, each created with a zeroed attendee counter. */
module OpenHousesHandler {
  import opened Options
  import opened JsonValues
  import opened DocStore
  import opened Schemas
  import opened Creates
  import opened Http
  import opened Handlers
  import opened Listing

  const API := Api(OpenHouse, OneByOne(Some(OpenHouseAttendees)), Some(OpenHouseAttendees), OneBatch, Respond500, Collection, "Open House does not exist")

  /** Every request is answered with a response: a thrown error becomes a 500. */
  method Handle(store: Store, gen: nat -> string, req: Request) returns (response: Response)
    requires store.Valid()
    modifies store
    ensures store.Valid() && old(store.calls) <= store.calls
    ensures Served(API, gen, req, old(store.tables), store.fault, store.calls[|old(store.calls)|..], store.tables, Reply(response))
  {
    var out := Serve(store, API, gen, req);
    AlwaysResponds(API, gen, req, old(store.tables), store.fault, store.calls[|old(store.calls)|..], store.tables, out);
    response := out.response;
  }

  /** An update replaces the open house and leaves every attendee count as it was. */
  lemma UpdateKeepsCounts(gen: nat -> string, req: Request, db: Db, fault: Option<StoreError>,
                          log: seq<Call>, db': Db, out: Outcome, uuid: string, body: Json)
    requires Complete(db) && Served(API, gen, req, db, fault, log, db', out)
    requires RouteOf(req, true) == Update(uuid, Parsed(body))
    ensures db'[OpenHouseAttendees] == db[OpenHouseAttendees]
  {
    UpdateReplacesItem(API, gen, req, db, fault, log, db', out, uuid, body);
  }

  /**
   * The listing as written: the scan succeeds, the first open house's
   * counter read throws, and the catch answers 500 with that error's
   * message, while the batched read lists up to 100 open houses with 200.
   */
  lemma ListingAsWrittenIs500(items: seq<Record>, db: Db)
    requires Complete(db) && items != []
    ensures AttachAllAsWritten(items).Failure?
    ensures var out := Thrown(API, AttachAllAsWritten(items).error);
      && out.Reply? && out.response.statusCode == INTERNAL_SERVER_ERROR
      && out.response.body == Some(ErrorBody(NOT_A_LIST))
    ensures |items| <= MAX_BATCH_KEYS ==>
      var out := ListOf(API, items, db, None);
      && out.Reply? && out.response.statusCode == OK
      && out.response.body == Some(ListBody(API, CountAll(items, db[OpenHouseAttendees], None).value))
  {
    CountAllSucceeds(items, db[OpenHouseAttendees]);
  }
}

/** events/handler.js: the earlier events handler; no counters, errors returned. */
module LegacyEventsHandler {
  import opened Options
  import opened DocStore
  import opened Schemas
  import opened Creates
  import opened Http
  import opened Handlers

  const API := Api(Event, OneByOne(None), None, PerItem, ReturnError, Collection, "Event does not exist")

  method Handle(store: Store, gen: nat -> string, req: Request) returns (out: Outcome)
    requires store.Valid()
    modifies store
    ensures store.Valid() && old(store.calls) <= store.calls
    ensures Served(API, gen, req, old(store.tables), store.fault, store.calls[|old(store.calls)|..], store.tables, out)
  {
    out := Serve(store, API, gen, req);
  }

  /** Unlike the newer handler, a delete leaves the event's attendee counter in place. */
  lemma DeleteLeavesCounter(gen: nat -> string, req: Request, db: Db, log: seq<Call>, db': Db, out: Outcome, uuid: string)
    requires Complete(db) && Served(API, gen, req, db, None, log, db', out)
    requires RouteOf(req, true) == Remove(uuid)
    ensures db'[EventAttendees] == db[EventAttendees]
    ensures uuid !in db'[Events]
  {
    DeleteRemovesItemAndCounter(API, gen, req, db, log, db', out, uuid);
  }
}

/** buildings/handler.js: the earlier buildings handler; each building put on its own, errors returned. */
module LegacyBuildingsHandler {
  import opened Options
  import opened DocStore
  import opened Schemas
  import opened Creates
  import opened Http
  import opened Handlers

  const API := Api(Building, OneByOne(None), None, PerItem, ReturnError, Collection, "Building does not exist")

  method Handle(store: Store, gen: nat -> string, req: Request) returns (out: Outcome)
    requires store.Valid()
    modifies store
    ensures store.Valid() && old(store.calls) <= store.calls
    ensures Served(API, gen, req, old(store.tables), store.fault, store.calls[|old(store.calls)|..], store.tables, out)
  {
    out := Serve(store, API, gen, req);
  }
}

/**
 * departments/index.js: departments keyed by `UUID`, one per request; a
 * create is answered 201 with no body, a listing is wrapped in
 * `{ departments }`, and no response carries the CORS header.
 */
module DepartmentsHandler {
  import opened Options
  import opened JsonValues
  import opened DocStore
  import opened Schemas
  import opened Creates
  import opened CreateFlow
  import opened Http
  import opened Handlers

  const API := Api(Department, OneByOne(None), None, PerItem, ReturnError, Single, "Department does not exist")

  method Handle(store: Store, gen: nat -> string, req: Request) returns (out: Outcome)
    requires store.Valid()
    modifies store
    ensures store.Valid() && old(store.calls) <= store.calls
    ensures Served(API, gen, req, old(store.tables), store.fault, store.calls[|old(store.calls)|..], store.tables, out)
  {
    out := Serve(store, API, gen, req);
  }

  /** A create stores the one payload under the `UUID` key and answers 201 with no body; a body that is a list is one payload. */
  lemma CreateIsSingle(gen: nat -> string, req: Request, db: Db, fault: Option<StoreError>,
                       log: seq<Call>, db': Db, out: Outcome, body: Json)
    requires Complete(db) && Served(API, gen, req, db, fault, log, db', out)
    requires RouteOf(req, false) == Create(Parsed(body))
    ensures out.Reply? && out.response.statusCode == CREATED ==> out.response == Response(CREATED, None, false)
    ensures out.Reply? ==> !out.response.cors
  {
  }
}
