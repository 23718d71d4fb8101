/**
 * What the CRUD handlers share: each routes a request on its method
 * (GET lists, POST creates, PUT updates, DELETE deletes), and answers with
 * the response its route builds. They differ in the entity they serve, how
 * a create writes, whether the entity has an attendee counter, what happens
 * to an error, and the shape of their requests and responses; `Api` names
 * these, and each handler module fixes one.
 *
 * `Served` states, as a relation over the tables and the store's state
 * before a request, the response, the requests made and the tables after
 * it; `Serve` is proved to do exactly that, and the lemmas below state what
 * follows for every handler.
 */
module Handlers {
  import opened Options
  import opened JsonValues
  import opened Schemas
  import opened DocStore
  import opened AttendeeStore
  import opened Http
  import opened Crud
  import opened Creates
  import opened CreateFlow
  import opened Updates
  import opened Listing

  /** What becomes of an error thrown inside a route. */
  datatype Catch =
    | Respond500   // the route is awaited under a catch that answers 500 `{ error: err.message }`
    | ReturnError  // the route catches and returns the error object; a throw in the dispatcher reaches a `console.err` call

  /** The request and response shapes. */
  datatype Style =
    | Collection   // a body may hold a list; 400s name the index; a 201 lists what was made; every response has the CORS header
    | Single       // one payload per request; a 201 has no body; a listing is wrapped in `{ departments }`; no CORS header

  /** How a listing reads the counts of the items it lists. */
  datatype CountReads =
    | PerItem   // one keyed read of each item's counter, in listing order
    | OneBatch  // one batch read of every listed item's counter

  datatype Api = Api(entity: Entity, writes: Writes, counter: Option<Table>, counting: CountReads, catch: Catch, style: Style, missing: string)

  /** The combinations the handlers use: a counter is an attendee table, and a create that writes counters writes that one. */
  predicate Sound(api: Api) {
    && Fits(api.writes, Home(api.entity))
    && (api.writes.InBatches? ==> api.entity == Eatery || api.entity == Building)
    && (api.counter.Some? ==> CounterTable(api.counter.value))
    && (HasCounter(api.writes) ==> api.counter == api.writes.counter && (api.entity == Event || api.entity == OpenHouse))
  }

  /** Whether responses carry `Access-Control-Allow-Origin: *`. */
  predicate Cors(api: Api) {
    api.style.Collection?
  }

  /** The outcome of an error thrown inside a route. */
  function Thrown(api: Api, message: string): Outcome {
    if api.catch.Respond500? then Reply(ServerError(message)) else Errored(message)
  }

  /**
   * The outcome of `JSON.parse` throwing in the dispatcher: a 500 under the
   * catch of the handlers under `functions/`; elsewhere the dispatcher's
   * catch throws again when it calls `console.err`.
   */
  function Unparsed(api: Api, message: string): Outcome {
    if api.catch.Respond500? then Reply(ServerError(message)) else Errored(CONSOLE_ERR_MISSING)
  }

  /** The records as JSON objects, in order. */
  function Objects(items: seq<Record>): (js: seq<Json>)
    ensures |js| == |items| && forall k :: 0 <= k < |items| ==> js[k] == JObj(items[k])
  {
    seq(|items|, k requires 0 <= k < |items| => JObj(items[k]))
  }

  /** The payloads of a create. */
  function PayloadsOf(api: Api, body: Json): seq<Json> {
    if api.style.Collection? then Payloads(body) else [body]
  }

  /** The 201 body: the list when the request held a list, else the single item (nothing when there is none). */
  function MadeBody(body: Json, items: seq<Record>): Option<Json> {
    if body.JArr? then Some(JArr(Objects(items)))
    else if items == [] then None
    else Some(JObj(items[0]))
  }

  /** The answer to a create. */
  function CreatedReply(api: Api, body: Json, c: Created): Outcome {
    match c
    case Made(items) =>
      if api.style.Collection? then Reply(Response(CREATED, MadeBody(body, items), true))
      else Reply(Response(CREATED, None, false))
    case Rejected(i, reason) =>
      Reply(ErrorReply(BAD_REQUEST, if api.style.Collection? then IndexedMessage(reason, api.entity, i) else reason, Cors(api)))
    case Failed(error) => Thrown(api, error.message)
  }

  /** The answer to an update. */
  function RevisedReply(api: Api, r: Revised): Outcome {
    match r
    case Replaced => Reply(Response(OK, None, Cors(api)))
    case NotFound => Reply(ErrorReply(NOT_FOUND, api.missing, Cors(api)))
    case Invalid(message) => Reply(ErrorReply(BAD_REQUEST, message, Cors(api)))
    case StoreFailed(error) => Thrown(api, error.message)
  }

  /** The answer to a delete. */
  function RemovedReply(api: Api, fault: Option<StoreError>): Outcome {
    if fault.Some? then Thrown(api, fault.value.message) else Reply(Response(OK, None, Cors(api)))
  }

  /** The body of a listing. */
  function ListBody(api: Api, items: seq<Record>): Json {
    if api.style.Collection? then JArr(Objects(items))
    else JObj(map["departments" := JArr(Objects(items))])
  }

  /** The listed items with their counts, read as the handler reads them. */
  function Counts(api: Api, items: seq<Record>, counters: Rows, fault: Option<StoreError>): Result<seq<Record>, string> {
    if api.counting.PerItem? then AttachAll(items, counters, fault) else CountAll(items, counters, fault)
  }

  /** The answer to a listing whose scan gave `items`: each with its count when the entity has counters. */
  function ListOf(api: Api, items: seq<Record>, db: Db, fault: Option<StoreError>): Outcome
    requires Complete(db)
  {
    if fault.Some? then Thrown(api, fault.value.message)
    else if api.counter.None? then Reply(Response(OK, Some(ListBody(api, items)), Cors(api)))
    else
      match Counts(api, items, db[api.counter.value], fault)
      case Failure(message) => Thrown(api, message)
      case Success(merged) => Reply(Response(OK, Some(ListBody(api, merged)), Cors(api)))
  }

  /** The counter reads after a scan that gave `items`: none when the entity has no counters or the store is down. */
  function CountReadCalls(api: Api, items: seq<Record>, db: Db, fault: Option<StoreError>): seq<Call>
    requires Complete(db)
  {
    if fault.Some? || api.counter.None? then []
    else if api.counting.PerItem? then AttachCalls(api.counter.value, items, db[api.counter.value], fault)
    else CountCalls(api.counter.value, items)
  }

  /** The requests of a listing: the scan, then the counter reads when the entity has counters. */
  function ListCalls(api: Api, items: seq<Record>, db: Db, fault: Option<StoreError>): seq<Call>
    requires Complete(db)
  {
    [ScanTable(Home(api.entity))] + CountReadCalls(api, items, db, fault)
  }

  /**
   * `out` is what the handler answers to `req`, `log` the requests it makes
   * and `db'` the tables after it, when the tables are `db` and the store's
   * state is `fault` before it; `gen(k)` is the k-th fresh uuid. A listing
   * may come back in any order the store picks.
   */
  ghost predicate Served(api: Api, gen: nat -> string, req: Request, db: Db, fault: Option<StoreError>,
                         log: seq<Call>, db': Db, out: Outcome)
    requires Complete(db) && Sound(api)
  {
    var e, t := api.entity, Home(api.entity);
    match RouteOf(req, Cors(api))
    case Refuse(response) => out == Reply(response) && log == [] && db' == db
    case List =>
      && db' == db
      && exists items :: IsListing(items, db[t]) && out == ListOf(api, items, db, fault) && log == ListCalls(api, items, db, fault)
    case Create(Unparsable(message)) => out == Unparsed(api, message) && log == [] && db' == db
    case Create(Parsed(body)) =>
      var payloads := PayloadsOf(api, body);
      && out == CreatedReply(api, body, CreateOf(e, api.writes, gen, payloads, db, fault))
      && log == CreateCalls(e, api.writes, gen, payloads, db, fault)
      && db' == CreateStored(e, api.writes, gen, payloads, db, fault)
    case Update(_, Unparsable(message)) => out == Unparsed(api, message) && log == [] && db' == db
    case Update(uuid, Parsed(body)) =>
      && out == RevisedReply(api, ReviseOf(e, uuid, body, db, fault))
      && log == ReviseCalls(e, uuid, body, db, fault)
      && db' == RevisedTables(e, uuid, body, db, fault)
    case Remove(uuid) =>
      && out == RemovedReply(api, fault)
      && log == RemoveCalls(t, api.counter, uuid, fault)
      && db' == RemovedTables(t, api.counter, uuid, db, fault)
  }

  /** A handler invocation: route the request, then run the route. */
  method Serve(store: Store, api: Api, gen: nat -> string, req: Request) returns (out: Outcome)
    requires store.Valid() && Sound(api)
    modifies store
    ensures store.Valid() && old(store.calls) <= store.calls
    ensures Served(api, gen, req, old(store.tables), store.fault, store.calls[|old(store.calls)|..], store.tables, out)
  {
    ghost var calls0 := store.calls;
    match RouteOf(req, Cors(api))
    case Refuse(response) =>
      out := Reply(response);
    case List =>
      out := ServeList(store, api);
    case Create(Unparsable(message)) =>
      out := Unparsed(api, message);
    case Create(Parsed(body)) =>
      out := ServeCreate(store, api, gen, body);
    case Update(_, Unparsable(message)) =>
      out := Unparsed(api, message);
    case Update(uuid, Parsed(body)) =>
      out := ServeUpdate(store, api, uuid, body);
    case Remove(uuid) =>
      var failure := Updates.Remove(store, Home(api.entity), api.counter, uuid);
      out := if failure.Some? then Thrown(api, failure.value.message) else Reply(Response(OK, None, Cors(api)));
  }

  /** GET: scan the table, then attach the counts when the entity has counters. */
  method ServeList(store: Store, api: Api) returns (out: Outcome)
    requires store.Valid() && Sound(api)
    modifies store`calls
    ensures exists items ::
      && IsListing(items, store.tables[Home(api.entity)])
      && out == ListOf(api, items, store.tables, store.fault)
      && store.calls == old(store.calls) + ListCalls(api, items, store.tables, store.fault)
  {
    var t := Home(api.entity);
    var scanned := store.Scan(t);
    if scanned.Failure? {
      var items := ListRows(store.tables[t]);
      out := Thrown(api, scanned.error.message);
      assert out == ListOf(api, items, store.tables, store.fault);
      return;
    }
    var items := scanned.value;
    out := ListScanned(store, api, items);
    LogAppend(old(store.calls), [ScanTable(t)], CountReadCalls(api, items, store.tables, store.fault));
  }

  /** The answer to a listing once the scan, with the store up, gave `items`. */
  method ListScanned(store: Store, api: Api, items: seq<Record>) returns (out: Outcome)
    requires store.Valid() && Sound(api) && store.fault.None?
    modifies store`calls
    ensures out == ListOf(api, items, store.tables, store.fault)
    ensures store.calls == old(store.calls) + CountReadCalls(api, items, store.tables, store.fault)
  {
    if api.counter.None? {
      out := Reply(Response(OK, Some(ListBody(api, items)), Cors(api)));
    } else {
      var merged := ReadCounts(store, api, items);
      out := match merged
        case Failure(message) => Thrown(api, message)
        case Success(all) => Reply(Response(OK, Some(ListBody(api, all)), Cors(api)));
    }
  }

  /** The counts of a scanned listing, read as the handler reads them. */
  method ReadCounts(store: Store, api: Api, items: seq<Record>) returns (r: Result<seq<Record>, string>)
    requires store.Valid() && Sound(api) && api.counter.Some?
    modifies store`calls
    ensures r == Counts(api, items, store.tables[api.counter.value], store.fault)
    ensures store.calls == old(store.calls) +
      if api.counting.PerItem? then AttachCalls(api.counter.value, items, store.tables[api.counter.value], store.fault)
      else CountCalls(api.counter.value, items)
  {
    if api.counting.PerItem? {
      r := AttachAttendees(store, api.counter.value, items);
    } else {
      r := MergeCounts(store, api.counter.value, items);
    }
  }

  /** POST: create the payloads. */
  method ServeCreate(store: Store, api: Api, gen: nat -> string, body: Json) returns (out: Outcome)
    requires store.Valid() && Sound(api)
    modifies store
    ensures store.Valid()
    ensures out == CreatedReply(api, body, CreateOf(api.entity, api.writes, gen, PayloadsOf(api, body), old(store.tables), store.fault))
    ensures store.calls == old(store.calls) + CreateCalls(api.entity, api.writes, gen, PayloadsOf(api, body), old(store.tables), store.fault)
    ensures store.tables == CreateStored(api.entity, api.writes, gen, PayloadsOf(api, body), old(store.tables), store.fault)
  {
    var created := CreateFlow.Create(store, api.entity, api.writes, gen, PayloadsOf(api, body));
    out := CreatedReply(api, body, created);
  }

  /** PUT: update the item under the path's uuid. */
  method ServeUpdate(store: Store, api: Api, uuid: string, body: Json) returns (out: Outcome)
    requires store.Valid() && Sound(api)
    modifies store
    ensures store.Valid()
    ensures out == RevisedReply(api, ReviseOf(api.entity, uuid, body, old(store.tables), store.fault))
    ensures store.calls == old(store.calls) + ReviseCalls(api.entity, uuid, body, old(store.tables), store.fault)
    ensures store.tables == RevisedTables(api.entity, uuid, body, old(store.tables), store.fault)
  {
    var revised := Revise(store, api.entity, uuid, body);
    out := RevisedReply(api, revised);
  }

  /**
   * A PUT or DELETE without a uuid in the path is answered 400 "Missing UUID
   * in URL path", and a method other than GET, POST, PUT and DELETE 405 with
   * no body; neither makes a store request or changes a table.
   */
  lemma RefusedRequestsTouchNothing(api: Api, gen: nat -> string, req: Request, db: Db, fault: Option<StoreError>,
                                    log: seq<Call>, db': Db, out: Outcome)
    requires Complete(db) && Sound(api) && Served(api, gen, req, db, fault, log, db', out)
    ensures req.httpMethod in {"PUT", "DELETE"} && !HasUuid(req) ==>
      out == Reply(ErrorReply(BAD_REQUEST, MISSING_UUID, Cors(api))) && log == [] && db' == db
    ensures req.httpMethod !in {"GET", "POST", "PUT", "DELETE"} ==>
      out == Reply(Response(METHOD_NOT_ALLOWED, None, Cors(api))) && log == [] && db' == db
  {
  }

  /** Under a catch that answers 500, every request is answered with a response, never an error. */
  lemma AlwaysResponds(api: Api, gen: nat -> string, req: Request, db: Db, fault: Option<StoreError>,
                       log: seq<Call>, db': Db, out: Outcome)
    requires Complete(db) && Sound(api) && api.catch.Respond500? && Served(api, gen, req, db, fault, log, db', out)
    ensures out.Reply?
  {
    if RouteOf(req, Cors(api)).List? {
      var items :| IsListing(items, db[Home(api.entity)]) && out == ListOf(api, items, db, fault) && log == ListCalls(api, items, db, fault);
    }
  }

  /** With the store down no table changes. */
  lemma DownStoreChangesNothing(api: Api, gen: nat -> string, req: Request, db: Db, error: StoreError,
                                log: seq<Call>, db': Db, out: Outcome)
    requires Complete(db) && Sound(api) && Served(api, gen, req, db, Some(error), log, db', out)
    ensures db' == db
  {
    if RouteOf(req, Cors(api)).List? {
      var items :| IsListing(items, db[Home(api.entity)]) && out == ListOf(api, items, db, Some(error)) && log == ListCalls(api, items, db, Some(error));
    }
  }

  /**
   * Under a catch that answers 500, a 500 carries the error of the store
   * when it is down, the parser's message when the body is not JSON, or,
   * for a listing, the error of reading a missing counter or the store's
   * refusal of a batch read of more than 100 counters.
   */
  lemma ServerErrorsCarryTheirCause(api: Api, gen: nat -> string, req: Request, db: Db, fault: Option<StoreError>,
                                    log: seq<Call>, db': Db, out: Outcome)
    requires Complete(db) && Sound(api) && api.catch.Respond500? && Served(api, gen, req, db, fault, log, db', out)
    requires out.Reply? && out.response.statusCode == INTERNAL_SERVER_ERROR
    ensures var route := RouteOf(req, Cors(api));
      || (fault.Some? && out.response == ServerError(fault.value.message))
      || ((route.Create? || route.Update?) && route.body.Unparsable? && out.response == ServerError(route.body.message))
      || (route.List? && out.response == ServerError(NO_COUNTER))
      || (route.List? && api.counting.OneBatch? && out.response == ServerError(OversizedKeys.message))
  {
    match RouteOf(req, Cors(api))
    case List =>
      var items :| IsListing(items, db[Home(api.entity)]) && out == ListOf(api, items, db, fault) && log == ListCalls(api, items, db, fault);
      ListServerError(api, items, db, fault);
    case Create(Parsed(body)) =>
      FailsOnlyWhenDown(api.entity, api.writes, gen, PayloadsOf(api, body), db, fault);
    case Update(uuid, Parsed(body)) =>
      var r := ReviseOf(api.entity, uuid, body, db, fault);
      RevisionFailsOnlyWhenDown(api.entity, uuid, body, db, fault);
      RevisedServerError(api, r);
    case _ =>
  }

  /** Under a catch that answers 500, a listing answered 500 carries the store's error, the missing-counter error or the batch read's refusal. */
  lemma ListServerError(api: Api, items: seq<Record>, db: Db, fault: Option<StoreError>)
    requires Complete(db) && api.catch.Respond500?
    ensures ListOf(api, items, db, fault).Reply?
    ensures var out := ListOf(api, items, db, fault);
      out.response.statusCode == INTERNAL_SERVER_ERROR ==>
        || (fault.Some? && out.response == ServerError(fault.value.message))
        || out.response == ServerError(NO_COUNTER)
        || (api.counting.OneBatch? && out.response == ServerError(OversizedKeys.message))
  {
    if fault.None? && api.counter.Some? && api.counting.PerItem? {
      AttachFailure(items, db[api.counter.value], fault);
    }
  }

  /** Under a catch that answers 500, an update is answered 500 only when it fails on the store, with the store's message. */
  lemma RevisedServerError(api: Api, r: Revised)
    requires api.catch.Respond500?
    ensures RevisedReply(api, r).Reply?
    ensures RevisedReply(api, r).response.statusCode == INTERNAL_SERVER_ERROR ==>
      r.StoreFailed? && RevisedReply(api, r).response == ServerError(r.error.message)
  {
  }

  /**
   * A create whose payload `i` is refused, for `reason`, after every payload
   * before it was accepted, is answered 400 with the reason and the index;
   * it only reads, and no table changes.
   */
  lemma CreateRefusesFirstInvalid(api: Api, gen: nat -> string, req: Request, db: Db, fault: Option<StoreError>,
                                  log: seq<Call>, db': Db, out: Outcome, body: Json, i: nat, reason: string)
    requires Complete(db) && Sound(api) && Served(api, gen, req, db, fault, log, db', out)
    requires RouteOf(req, Cors(api)) == Create(Parsed(body))
    requires var payloads := PayloadsOf(api, body);
      && i < |payloads| && CheckOf(api.entity, payloads[i], db, fault) == Refused(reason)
      && forall k :: 0 <= k < i ==> CheckOf(api.entity, payloads[k], db, fault).Accepted?
    ensures out == Reply(ErrorReply(BAD_REQUEST, if api.style.Collection? then IndexedMessage(reason, api.entity, i) else reason, Cors(api)))
    ensures db' == db && forall c :: c in log ==> c.GetItem?
  {
    var payloads := PayloadsOf(api, body);
    RejectsFirstRefused(api.entity, api.writes, gen, payloads, db, fault, i, reason);
    NothingWrittenUnlessMade(api.entity, api.writes, gen, payloads, db, fault);
  }

  /**
   * With the store up, a create whose payloads are all accepted is answered
   * 201: with the list of created items when the body was a list, else with
   * the one created item; item k is payload k as validated, under the k-th
   * fresh id, with a zero count when the entity has a counter.
   */
  lemma CreateMirrorsBody(api: Api, gen: nat -> string, req: Request, db: Db,
                          log: seq<Call>, db': Db, out: Outcome, body: Json)
    requires Complete(db) && Sound(api) && api.style.Collection? && Served(api, gen, req, db, None, log, db', out)
    requires RouteOf(req, Cors(api)) == Create(Parsed(body))
    requires forall k :: 0 <= k < |Payloads(body)| ==> CheckOf(api.entity, Payloads(body)[k], db, None).Accepted?
    ensures CreateOf(api.entity, api.writes, gen, Payloads(body), db, None).Made?
    ensures var created := CreateOf(api.entity, api.writes, gen, Payloads(body), db, None).items;
      && |created| == |Payloads(body)|
      && out == Reply(Response(CREATED, Some(if body.JArr? then JArr(Objects(created)) else JObj(created[0])), true))
      && forall k :: 0 <= k < |created| ==>
        ListsPayload(Home(api.entity), api.writes, gen(k), ValidateEntity(api.entity, Payloads(body)[k]).value, created[k])
  {
    MadeWhenAllAccepted(api.entity, api.writes, gen, Payloads(body), db, None);
    MadeListsPayloads(api.entity, api.writes, gen, Payloads(body), db, None);
  }

  /**
   * With the store up, an update of a uuid that has no item is answered 404
   * with the handler's "does not exist" message after that one read: the
   * payload is not looked at and nothing is written.
   */
  lemma UpdateOfMissingIs404(api: Api, gen: nat -> string, req: Request, db: Db,
                             log: seq<Call>, db': Db, out: Outcome, uuid: string, body: Json)
    requires Complete(db) && Sound(api) && Served(api, gen, req, db, None, log, db', out)
    requires RouteOf(req, Cors(api)) == Update(uuid, Parsed(body)) && uuid !in db[Home(api.entity)]
    ensures out == Reply(ErrorReply(NOT_FOUND, api.missing, Cors(api)))
    ensures log == [GetItem(Home(api.entity), uuid)] && db' == db
  {
    NotFoundBeforeValidation(api.entity, uuid, body, db);
  }

  /**
   * An update is answered 200 exactly when the store is up, the item exists
   * and the payload is accepted; the item is then the validated payload
   * under the path's uuid, and nothing else changes. Otherwise no table
   * changes.
   */
  lemma UpdateReplacesItem(api: Api, gen: nat -> string, req: Request, db: Db, fault: Option<StoreError>,
                           log: seq<Call>, db': Db, out: Outcome, uuid: string, body: Json)
    requires Complete(db) && Sound(api) && Served(api, gen, req, db, fault, log, db', out)
    requires RouteOf(req, Cors(api)) == Update(uuid, Parsed(body))
    ensures out == Reply(Response(OK, None, Cors(api))) <==>
      fault.None? && uuid in db[Home(api.entity)] && CheckOf(api.entity, body, db, fault).Accepted?
    ensures out != Reply(Response(OK, None, Cors(api))) ==> db' == db
    ensures out == Reply(Response(OK, None, Cors(api))) ==>
      var t := Home(api.entity);
      && ValidateEntity(api.entity, body).Success?
      && uuid in db'[t] && db'[t][uuid] - {KeyName(t)} == ValidateEntity(api.entity, body).value
      && db'[t].Keys == db[t].Keys
      && (forall key :: key in db[t] && key != uuid ==> db'[t][key] == db[t][key])
      && forall u :: u in db && u != t ==> db'[u] == db[u]
  {
    ReplacedExactlyWhenAccepted(api.entity, uuid, body, db, fault);
    if ReviseOf(api.entity, uuid, body, db, fault) == Replaced {
      ReplacedItem(api.entity, uuid, body, db, fault);
    }
  }

  /**
   * With the store up, a delete is answered 200; the uuid is then in neither
   * the entity's table nor, when it has one, its counter table, and every
   * other item and table is as it was.
   */
  lemma DeleteRemovesItemAndCounter(api: Api, gen: nat -> string, req: Request, db: Db,
                                    log: seq<Call>, db': Db, out: Outcome, uuid: string)
    requires Complete(db) && Sound(api) && Served(api, gen, req, db, None, log, db', out)
    requires RouteOf(req, Cors(api)) == Remove(uuid)
    ensures var t := Home(api.entity);
      && out == Reply(Response(OK, None, Cors(api)))
      && log == [DeleteItem(t, uuid)] + (if api.counter.Some? then [DeleteItem(api.counter.value, uuid)] else [])
      && db'[t].Keys == db[t].Keys - {uuid}
      && (forall k :: k in db'[t] ==> db'[t][k] == db[t][k])
      && (api.counter.Some? ==> db'[api.counter.value].Keys == db[api.counter.value].Keys - {uuid})
      && forall u :: u != t && (api.counter.None? || u != api.counter.value) ==> db'[u] == db[u]
  {
    RemovesItemAndCounter(Home(api.entity), api.counter, uuid, db, None);
  }

  /**
   * A listing of an entity with counters is answered 200 exactly when the
   * store is up and every stored item has a counter under its uuid; each
   * listed item then carries its own counter's count, in the order the scan
   * gave.
   */
  lemma ListingAttachesCounts(api: Api, items: seq<Record>, db: Db, fault: Option<StoreError>)
    requires Complete(db) && Sound(api) && api.counter.Some? && api.counting.PerItem? && api.entity != Department
    requires IsListing(items, db[Home(api.entity)])
    ensures var out, t, ct := ListOf(api, items, db, fault), Home(api.entity), api.counter.value;
      (out.Reply? && out.response.statusCode == OK) <==> fault.None? && forall key :: key in db[t] ==> key in db[ct]
    ensures var out, ct := ListOf(api, items, db, fault), api.counter.value;
      out.Reply? && out.response.statusCode == OK ==>
        && AttachAll(items, db[ct], fault).Success?
        && var merged := AttachAll(items, db[ct], fault).value;
        && out.response.body == Some(ListBody(api, merged))
        && |merged| == |items|
        && forall i :: 0 <= i < |items| ==>
          UuidOf(items[i]) in db[ct] && merged[i] == WithAttendees(items[i], db[ct][UuidOf(items[i])])
  {
    var t, ct := Home(api.entity), api.counter.value;
    ListOfCounted(api, items, db, fault);
    AttachSuccess(items, db[ct], fault);
    if fault.None? {
      AttachIffCounted(t, items, db[t], db[ct]);
    }
  }

  /** A listing of an entity with counters is answered 200 exactly when the store is up and reading the counts succeeds, with the counted items as its body. */
  lemma ListOfCounted(api: Api, items: seq<Record>, db: Db, fault: Option<StoreError>)
    requires Complete(db) && api.counter.Some?
    ensures var out, counts := ListOf(api, items, db, fault), Counts(api, items, db[api.counter.value], fault);
      && ((out.Reply? && out.response.statusCode == OK) <==> fault.None? && counts.Success?)
      && (out.Reply? && out.response.statusCode == OK ==> out.response.body == Some(ListBody(api, counts.value)))
  {
  }

  /**
   * A listing whose counts are read in one batch is answered 200 exactly
   * when the store is up and at most 100 items are stored; each listed item
   * then carries the count stored under its uuid, or no count when none is
   * stored there, in the order the scan gave. One batch read is made, of
   * every listed uuid, unless nothing is listed.
   */
  lemma BatchedListingCounts(api: Api, items: seq<Record>, db: Db, fault: Option<StoreError>)
    requires Complete(db) && Sound(api) && api.counter.Some? && api.counting.OneBatch? && api.entity != Department
    requires IsListing(items, db[Home(api.entity)])
    ensures var out, t := ListOf(api, items, db, fault), Home(api.entity);
      (out.Reply? && out.response.statusCode == OK) <==> fault.None? && |db[t]| <= MAX_BATCH_KEYS
    ensures var out, ct := ListOf(api, items, db, fault), api.counter.value;
      out.Reply? && out.response.statusCode == OK ==>
        var merged := CountAll(items, db[ct], fault).value;
        && out.response.body == Some(ListBody(api, merged))
        && |merged| == |items|
        && forall i :: 0 <= i < |items| ==> merged[i] == Counted(items[i], db[ct])
    ensures fault.None? ==>
      ListCalls(api, items, db, fault) ==
        [ScanTable(Home(api.entity))] + if items == [] then [] else [BatchGetItem(api.counter.value, Uuids(items))]
  {
    ListOfCounted(api, items, db, fault);
    CountAllSucceeds(items, db[api.counter.value]);
  }
}
