/**
 * The two attendee handlers. The event one increments a counter on POST and
 * decrements it on DELETE; the open-house one increments on any request.
 * Both look the counter up first and answer 404 when there is none, and
 * both return a store error as it is rather than a response, except that
 * a decrement refused because the count is already zero is a 200.
 */
module CounterRequests {
  import opened Options
  import opened JsonValues
  import opened DocStore
  import opened AttendeeStore
  import opened Http

  /** What one counter request comes to: its outcome, the store requests it makes, and the counters after it. */
  datatype Step = Step(out: Outcome, calls: seq<Call>, rows: Rows)

  /** `200` with no body. */
  const DONE := Reply(Response(OK, None, true))

  function NotFound(missing: string): Outcome {
    Reply(ErrorReply(NOT_FOUND, missing, true))
  }

  /** Look the counter up; without one, 404; else add one to it. */
  function IncrementStep(t: Table, uuid: string, rows: Rows, fault: Option<StoreError>, missing: string): Step {
    var lookup := [GetItem(t, uuid)];
    if fault.Some? then Step(Errored(fault.value.message), lookup, rows)
    else if uuid !in rows then Step(NotFound(missing), lookup, rows)
    else
      var calls := lookup + [AddToNumber(t, uuid, ATTENDEES, 1.0, None)];
      match Incremented(rows, uuid)
      case Failure(e) => Step(Errored(e.message), calls, rows)
      case Success(rows') => Step(DONE, calls, rows')
  }

  /** The decrement's catch: a failed condition is a 200, any other error is returned. */
  function Forgiven(e: StoreError): Outcome {
    if e.code == CONDITIONAL_CHECK_FAILED then DONE else Errored(e.message)
  }

  /** Look the counter up; without one, 404; else take one from it while it is above zero. */
  function DecrementStep(t: Table, uuid: string, rows: Rows, fault: Option<StoreError>, missing: string): Step {
    var lookup := [GetItem(t, uuid)];
    if fault.Some? then Step(Forgiven(fault.value), lookup, rows)
    else if uuid !in rows then Step(NotFound(missing), lookup, rows)
    else
      var calls := lookup + [AddToNumber(t, uuid, ATTENDEES, -1.0, Some(0.0))];
      match Decremented(rows, uuid)
      case Failure(e) => Step(Forgiven(e), calls, rows)
      case Success(rows') => Step(DONE, calls, rows')
  }

  /** `incrementAttendees` of the event-attendees handler, and the body of the open-house one. */
  method IncrementRequest(store: Store, t: Table, uuid: string, missing: string) returns (out: Outcome)
    requires store.Valid() && CounterTable(t)
    modifies store
    ensures store.Valid()
    ensures var s := IncrementStep(t, uuid, old(store.tables)[t], store.fault, missing);
      && out == s.out
      && store.calls == old(store.calls) + s.calls
      && store.tables == old(store.tables)[t := s.rows]
  {
    var found := AttendeesExist(store, t, uuid);
    if found.Failure? {
      return Errored(found.error.message);
    }
    if !found.value {
      return NotFound(missing);
    }
    var failure := IncrementAttendees(store, t, uuid);
    out := if failure.Some? then Errored(failure.value.message) else DONE;
  }

  /** `decrementAttendees` of the event-attendees handler. */
  method DecrementRequest(store: Store, t: Table, uuid: string, missing: string) returns (out: Outcome)
    requires store.Valid() && CounterTable(t)
    modifies store
    ensures store.Valid()
    ensures var s := DecrementStep(t, uuid, old(store.tables)[t], store.fault, missing);
      && out == s.out
      && store.calls == old(store.calls) + s.calls
      && store.tables == old(store.tables)[t := s.rows]
  {
    var found := AttendeesExist(store, t, uuid);
    if found.Failure? {
      return Forgiven(found.error);
    }
    if !found.value {
      return NotFound(missing);
    }
    var failure := DecrementAttendees(store, t, uuid);
    out := if failure.Some? then Forgiven(failure.value) else DONE;
  }

  /** Neither request makes a counter negative or fractional, and neither touches another counter. */
  lemma StepsKeepCounts(t: Table, uuid: string, rows: Rows, fault: Option<StoreError>, missing: string)
    requires CountsValid(rows)
    ensures CountsValid(IncrementStep(t, uuid, rows, fault, missing).rows)
    ensures CountsValid(DecrementStep(t, uuid, rows, fault, missing).rows)
    ensures OnlyCounterChanged(rows, IncrementStep(t, uuid, rows, fault, missing).rows, uuid)
    ensures OnlyCounterChanged(rows, DecrementStep(t, uuid, rows, fault, missing).rows, uuid)
  {
    CountsStayValid(rows, uuid);
  }

  /** Without a counter under `uuid` the answer is the 404, after the lookup alone. */
  lemma MissingCounterIsNotFound(t: Table, uuid: string, rows: Rows, missing: string)
    requires uuid !in rows
    ensures IncrementStep(t, uuid, rows, None, missing) == Step(NotFound(missing), [GetItem(t, uuid)], rows)
    ensures DecrementStep(t, uuid, rows, None, missing) == Step(NotFound(missing), [GetItem(t, uuid)], rows)
  {
  }

  /** An increment of a counter holding a number is one update that adds exactly one, and a 200. */
  lemma IncrementAddsOne(t: Table, uuid: string, rows: Rows, missing: string)
    requires uuid in rows && ATTENDEES in rows[uuid] && rows[uuid][ATTENDEES].JNum?
    ensures var s := IncrementStep(t, uuid, rows, None, missing);
      && s.out == DONE
      && s.calls == [GetItem(t, uuid), AddToNumber(t, uuid, ATTENDEES, 1.0, None)]
      && s.rows == rows[uuid := rows[uuid][ATTENDEES := JNum(rows[uuid][ATTENDEES].n + 1.0)]]
  {
  }

  /**
   * A decrement of an existing counter always answers 200: the count drops
   * by one when it is above zero, and at zero (or without a number) nothing
   * changes.
   */
  lemma DecrementFloorsAtZero(t: Table, uuid: string, rows: Rows, missing: string)
    requires uuid in rows
    ensures var s := DecrementStep(t, uuid, rows, None, missing);
      && s.out == DONE
      && s.calls == [GetItem(t, uuid), AddToNumber(t, uuid, ATTENDEES, -1.0, Some(0.0))]
      && (if NumberAt(rows, uuid, ATTENDEES).Some? && NumberAt(rows, uuid, ATTENDEES).value > 0.0
          then s.rows == rows[uuid := rows[uuid][ATTENDEES := JNum(rows[uuid][ATTENDEES].n - 1.0)]]
          else s.rows == rows)
  {
  }

  /** An increment followed by a decrement leaves the counters as they were, each answering 200. */
  lemma DecrementUndoesIncrementRequest(t: Table, uuid: string, rows: Rows, missing: string)
    requires CountsValid(rows) && uuid in rows && ATTENDEES in rows[uuid]
    ensures var up := IncrementStep(t, uuid, rows, None, missing);
      var down := DecrementStep(t, uuid, up.rows, None, missing);
      up.out == DONE && down.out == DONE && down.rows == rows
  {
    assert IsCount(rows[uuid][ATTENDEES]);
    DecrementUndoesIncrement(rows, uuid);
  }
}

/** functions/event-attendees/handler.js: POST increments and DELETE decrements the counter named in the path. */
module EventAttendeeHandler {
  import opened Options
  import opened DocStore
  import opened AttendeeStore
  import opened Http
  import opened CounterRequests

  const EVENT_MISSING := "Event does not exist"

  /** Where the dispatcher sends a request. */
  datatype Action = Increment(uuid: string) | Decrement(uuid: string) | Refused(response: Response)

  /** POST and DELETE need a non-empty `uuid` path parameter; any other method is not allowed. */
  function ActionOf(req: Request): (a: Action)
    ensures a == Refused(ErrorReply(BAD_REQUEST, MISSING_UUID, true)) <==>
      req.httpMethod in {"POST", "DELETE"} && !HasUuid(req)
    ensures a == Refused(Response(METHOD_NOT_ALLOWED, None, true)) <==> req.httpMethod !in {"POST", "DELETE"}
    ensures a.Increment? <==> req.httpMethod == "POST" && HasUuid(req)
    ensures a.Decrement? <==> req.httpMethod == "DELETE" && HasUuid(req)
    ensures !a.Refused? ==> a.uuid == req.uuid.value
  {
    match req.httpMethod
    case "POST" => if HasUuid(req) then Increment(req.uuid.value) else Refused(ErrorReply(BAD_REQUEST, MISSING_UUID, true))
    case "DELETE" => if HasUuid(req) then Decrement(req.uuid.value) else Refused(ErrorReply(BAD_REQUEST, MISSING_UUID, true))
    case _ => Refused(Response(METHOD_NOT_ALLOWED, None, true))
  }

  /** What the handler does with `req` when the counters are `rows`. */
  function StepOf(req: Request, rows: Rows, fault: Option<StoreError>): Step {
    match ActionOf(req)
    case Refused(response) => Step(Reply(response), [], rows)
    case Increment(uuid) => IncrementStep(EventAttendees, uuid, rows, fault, EVENT_MISSING)
    case Decrement(uuid) => DecrementStep(EventAttendees, uuid, rows, fault, EVENT_MISSING)
  }

  method Handle(store: Store, req: Request) returns (out: Outcome)
    requires store.Valid()
    modifies store
    ensures store.Valid()
    ensures var s := StepOf(req, old(store.tables)[EventAttendees], store.fault);
      && out == s.out
      && store.calls == old(store.calls) + s.calls
      && store.tables == old(store.tables)[EventAttendees := s.rows]
  {
    match ActionOf(req)
    case Refused(response) =>
      out := Reply(response);
      assert store.tables == old(store.tables)[EventAttendees := old(store.tables)[EventAttendees]];
    case Increment(uuid) =>
      out := IncrementRequest(store, EventAttendees, uuid, EVENT_MISSING);
    case Decrement(uuid) =>
      out := DecrementRequest(store, EventAttendees, uuid, EVENT_MISSING);
  }

  /** A request the dispatcher refuses makes no store request and changes nothing. */
  lemma RefusedRequestsTouchNothing(req: Request, rows: Rows, fault: Option<StoreError>)
    requires !HasUuid(req) || req.httpMethod !in {"POST", "DELETE"}
    ensures var s := StepOf(req, rows, fault);
      && s.calls == [] && s.rows == rows
      && s.out.Reply? && s.out.response.statusCode in {BAD_REQUEST, METHOD_NOT_ALLOWED}
      && (s.out.response.statusCode == BAD_REQUEST <==> req.httpMethod in {"POST", "DELETE"})
  {
  }

  /** Whatever the request and whatever the store does, the counters stay whole numbers no lower than zero. */
  lemma CountsNeverNegative(req: Request, rows: Rows, fault: Option<StoreError>)
    requires CountsValid(rows)
    ensures CountsValid(StepOf(req, rows, fault).rows)
    ensures ActionOf(req).Refused? ==> StepOf(req, rows, fault).rows == rows
    ensures !ActionOf(req).Refused? ==> OnlyCounterChanged(rows, StepOf(req, rows, fault).rows, ActionOf(req).uuid)
  {
    match ActionOf(req)
    case Refused(_) =>
    case Increment(uuid) => StepsKeepCounts(EventAttendees, uuid, rows, fault, EVENT_MISSING);
    case Decrement(uuid) => StepsKeepCounts(EventAttendees, uuid, rows, fault, EVENT_MISSING);
  }
}

/** functions/openhouse-attendees/handler.js: any request naming an open house's counter increments it. */
module OpenHouseAttendeeHandler {
  import opened Options
  import opened DocStore
  import opened AttendeeStore
  import opened Http
  import opened CounterRequests

  const OPEN_HOUSE_MISSING := "Open house does not exist"

  /** What the handler does with `req` when the counters are `rows`; the method is never looked at. */
  function StepOf(req: Request, rows: Rows, fault: Option<StoreError>): Step {
    if !HasUuid(req) then Step(Reply(ErrorReply(BAD_REQUEST, MISSING_UUID, true)), [], rows)
    else IncrementStep(OpenHouseAttendees, req.uuid.value, rows, fault, OPEN_HOUSE_MISSING)
  }

  method Handle(store: Store, req: Request) returns (out: Outcome)
    requires store.Valid()
    modifies store
    ensures store.Valid()
    ensures var s := StepOf(req, old(store.tables)[OpenHouseAttendees], store.fault);
      && out == s.out
      && store.calls == old(store.calls) + s.calls
      && store.tables == old(store.tables)[OpenHouseAttendees := s.rows]
  {
    if !HasUuid(req) {
      out := Reply(ErrorReply(BAD_REQUEST, MISSING_UUID, true));
      assert store.tables == old(store.tables)[OpenHouseAttendees := old(store.tables)[OpenHouseAttendees]];
      return;
    }
    out := IncrementRequest(store, OpenHouseAttendees, req.uuid.value, OPEN_HOUSE_MISSING);
  }

  /**
   * Two requests naming the same counter do the same, whatever their
   * methods; without a uuid the answer is 400 and nothing is asked of the
   * store.
   */
  lemma MethodIsIgnored(req: Request, req': Request, rows: Rows, fault: Option<StoreError>)
    requires req.uuid == req'.uuid
    ensures StepOf(req, rows, fault) == StepOf(req', rows, fault)
    ensures !HasUuid(req) ==> StepOf(req, rows, fault) == Step(Reply(ErrorReply(BAD_REQUEST, MISSING_UUID, true)), [], rows)
  {
  }

  /** The handler never lowers a count: each counter ends where it was or one higher, and stays a whole number. */
  lemma CountsOnlyRise(req: Request, rows: Rows, fault: Option<StoreError>)
    requires CountsValid(rows)
    ensures var rows' := StepOf(req, rows, fault).rows;
      && CountsValid(rows')
      && rows'.Keys == rows.Keys
      && forall k :: NumberAt(rows, k, ATTENDEES).Some? ==>
           NumberAt(rows', k, ATTENDEES) == NumberAt(rows, k, ATTENDEES) ||
           NumberAt(rows', k, ATTENDEES) == Some(NumberAt(rows, k, ATTENDEES).value + 1.0)
  {
    if HasUuid(req) {
      StepsKeepCounts(OpenHouseAttendees, req.uuid.value, rows, fault, OPEN_HOUSE_MISSING);
    }
  }
}
