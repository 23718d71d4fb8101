# UWO Open House backend: the request handlers, modelled in Dafny

The backend serves the events, eateries, buildings, areas, open houses and
departments of a university open house. It also keeps per-event and
per-open-house attendee counters. Each entity has a serverless handler:

- GET lists the entity;
- POST creates one or a list;
- PUT replaces one, named by the `uuid` path parameter;
- DELETE removes one, also named by `uuid`.

Two further handlers count attendees. Every handler talks to a document
store through a small injected adapter.

This project models those handlers against an in-memory store. The store is
the class `DocStore.Store`. Its state is:

- one map per table, from key to item;
- the log of every request made to it, so the model can say which requests
  a handler made and which it did not;
- a fault that, when set, makes every request fail with the same error.

The model covers:

- **Dispatcher.** `Http.RouteOf` routes a request on its method. A PUT or
  DELETE without a uuid is answered 400, and an unknown method 405.
- **Create.** This is all or nothing:
  - the body is made a list;
  - each payload is validated in turn, and its references are looked up;
  - the first refusal is a 400 whose message names the payload's index,
    and nothing has been written;
  - only then does each payload get a fresh uuid and get written, with a
    zeroed attendee counter for events and open houses.
- **Update.** The item must exist (else 404) before the payload is
  validated. The item is then replaced in full.
- **Delete.** The item is removed, and for events and open houses its
  counter too.
- **Listing.** Each listed event gets its counter's count, one keyed read
  per event. Open houses get theirs from one batch read of every listed
  uuid (see Findings).
- **Batch writes.** The batch-write adapters cut a list into batches of at
  most 25.
- **Attendee counters.** The increment is unconditional. The decrement is
  conditional on the count being above zero, and the event handler forgives
  it when the count is zero.
- **Field rules.** These are the schemas' field rules: the `HH:mm` pattern,
  hex colours, Joi's GUID grammar (bracketed and colon-separated forms
  included), safe positive integers, and booleans given as `true`/`false` text.

Eight CRUD handlers share one dispatcher, `Handlers.Serve`. Each handler
fixes an `Api` value, which gives:

- the entity;
- how a create writes (one put per item, or batches);
- the counter table, if any;
- what becomes of an error: a 500 response, or the error object handed back
  to the caller;
- the request and response shape: lists with CORS headers, or one
  department at a time without them.

`Handlers.Served` states, as a relation, the answer, the store requests and
the tables after a request. The whole of that relation is stated in terms of
specification functions (`CreateOf`, `ReviseOf`, `ListOf`, …), and the
lemmas about those functions state what the handlers promise.

Modelling choices:

- `UUIDv4()` is a parameter `gen: nat -> string`, where `gen(k)` is the
  k-th fresh id of the invocation. Lemmas that need the ids to differ say
  so in their hypotheses.
- `JSON.parse` is not modelled. A request body is either a parsed JSON value
  or the message the parser throws.
- Numbers are exact `real`s.

## Model

Each stateful method is specified by a function beside it in the same
module: `CreateFlow.Create` by `CreateOf`, `CreateCalls` and `CreateStored`,
`Updates.Revise` by `ReviseOf`, `Crud.CheckItem` by `CheckOf`, the listing
methods by `AttachAll`, `CountAll` and `ListOf`. Those functions carry no
row of their own; the rows of the methods and lemmas below state what they
mean.

| member | source | states |
|---|---|---|
| Http.RouteOf | functions/events/handler.js:24-47 | GET lists, POST creates; PUT and DELETE go through only with a non-empty uuid and are otherwise answered 400 "Missing UUID in URL path"; every other method is answered 405 with no body (each case as an if-and-only-if) |
| JsonValues.DecimalRoundTrip | functions/events/handler.js:80 | the decimal text of an index is non-empty, all digits, and reads back as that index |
| JsonValues.DecimalInjective | functions/events/handler.js:80 | two indices never render to the same text |
| JsonValues.Join | functions/events/handler.js:80 | joining one detail gives that detail; joining none gives the empty string (only one detail is ever reported, since Joi stops at the first error) |
| Fields.TimeOfDaySound | functions/events/handler.js:20-21 | every string the `HH:mm` pattern accepts names an hour 0-23 and a minute 0-59, with a one- or two-digit hour, and is exactly that clock text |
| Fields.TimeOfDayComplete | functions/events/handler.js:20-21 | conversely, every time from 0:00 to 23:59 is accepted, padded or not |
| Fields.TimeOfDayParts | functions/eateries/handler.js:15-16 | an accepted time has 4 or 5 characters, with the colon third from the end |
| Fields.HexColorShape | functions/areas/handler.js:15 | a colour is accepted exactly when it is `#` and then 3 or 6 hex digits |
| Fields.HexColorIgnoresCase | departments/index.js:12 | the colour pattern accepts a string exactly when it accepts its lower-case form |
| Fields.GuidAccepted | functions/events/handler.js:16-19 | every GUID text `.uuid()` allows is accepted: 32 hex digits in groups 8-4-4-4-12, an optional hyphen or colon after the first group, that same separator optionally before each later group, optionally wrapped in a matching pair of `{}`, `[]` or `()` |
| Fields.GuidParsed | functions/events/handler.js:16-19 | conversely, every accepted string is such a GUID text, so nothing else is accepted |
| Fields.HyphenatedAccepted | functions/eateries/handler.js:17 | the usual hyphenated layout of any 32 hex digits is accepted, and so is the same text in braces |
| Schemas.RuleError | functions/events/handler.js:13-22 | a member draws no complaint exactly when it satisfies its rule, where a boolean rule also takes "true"/"false" text in any case a GUID rule takes every form of Joi's GUID grammar, and a number beyond ±(2^53 − 1) is refused as "must be a safe number" before any other number rule is checked |
| Schemas.MembersErrorNoneIff | functions/areas/handler.js:13-16 | the sequential member check finds nothing exactly when every declared member holds |
| Schemas.ValidateAcceptsConforming | functions/buildings/handler.js:13-19 | `validate` accepts exactly the objects that conform to the schema and have no undeclared member; it then returns the payload's members converted by their rules, and otherwise one detail |
| Schemas.NormalizeKeeps | functions/buildings/handler.js:13-19 | a schema with no boolean member converts nothing: the validated value is the payload itself |
| Schemas.ValueIsPayload | functions/events/handler.js:76-97 | for every entity but the open house, the validated value that gets stored is the payload as sent |
| Schemas.OpenHouseAcceptance | functions/openhouses/handler.js:13-18 | an open house is accepted iff it has a non-empty name and info, a positive integer date no larger than 2^53 − 1, a `visible` that is a boolean or the text "true"/"false" in any case, and nothing else; the validated value is the payload with `visible` turned into its boolean |
| Schemas.ColorAcceptance | functions/areas/handler.js:13-16 | an area or department is accepted iff it has a non-empty name, a hex colour, and nothing else |
| Schemas.EventAcceptance | functions/events/handler.js:13-22 | an accepted event has open-house, area and building references in Joi's GUID grammar, `HH:mm` start and end times, a name and a room, and nothing undeclared; its validated value is the payload |
| Schemas.EateryAcceptance | functions/eateries/handler.js:13-18 | an accepted eatery has exactly name, open and close times matching `HH:mm`, and a building in Joi's GUID grammar; its validated value is the payload |
| Schemas.BuildingAcceptance | functions/buildings/handler.js:13-19 | an accepted building has exactly a name and a position strictly inside the latitude and longitude bounds |
| Schemas.ValidatedHasNoKey | functions/events/handler.js:96-99 | no validated value has a `uuid` (or `UUID`) member, so the fresh key is never overridden |
| DocStore.Store.constructor | functions/areas/index.js:25-66 | a store starts with the given tables, no requests and the given fault |
| DocStore.Store.Get | functions/areas/index.js:46 | a keyed read logs one request and returns the item under the key, or the fault |
| DocStore.Store.Put | functions/areas/index.js:45 | a put logs one request and stores the item under its key, or changes nothing when the store is down |
| DocStore.Store.Delete | functions/areas/index.js:47 | a delete logs one request and removes the key, whether or not it was there |
| DocStore.Store.Scan | functions/areas/index.js:27 | a scan logs one request and lists every item once, in an order the store chooses |
| DocStore.Store.BatchGet | functions/openhouses/index.js:48-54 | a batch read logs one request and lists, each once and in an order the store chooses, every stored item under one of the keys; with no keys or more than 100 it is refused |
| DocStore.Store.BatchWrite | functions/areas/index.js:32-40 | a batch write of 1 to 25 requests applies them in order; an empty or larger batch is refused whole |
| DocStore.Store.Add | functions/event-attendees/index.js:25-37 | an update adds to a number, under its condition when there is one, and changes only that item |
| DocStore.ApplyWritesAppend | functions/areas/index.js:31-41 | applying two lists of requests in turn is applying their concatenation |
| DocStore.PutsLand | functions/eateries/index.js:28-44 | putting items with distinct keys leaves each under its key |
| DocStore.PutsKeep | functions/eateries/index.js:28-44 | putting items adds exactly their keys and keeps every other item |
| DocStore.DeletesRemove | functions/areas/index.js:50-64 | deleting a list of keys removes exactly those keys |
| DocStore.ListRows | functions/events/handler.js:57 | the store's listing holds every item exactly once |
| Chunking.FlattenChunks | functions/areas/index.js:31-34 | the batches, concatenated in order, give back the input list exactly |
| Chunking.ChunkSizes | functions/areas/index.js:22-34 | every batch holds 1 to 25 items, and only an empty list has no batch |
| Chunking.ChunksUnfold | functions/areas/index.js:31-34 | the first batch is the first 25 items (or fewer), and the rest are the batches of what follows |
| Chunking.WriteInBatches | functions/areas/index.js:28-44 | one batch write per 25-item slice, in order; fails iff the store is down and the list is non-empty; with the store up the table is as if every request were applied in order |
| Chunking.BatchCallsAppend | functions/areas/index.js:31-41 | the batch requests for two runs of slices are those of each, in order |
| AreaStore.CreateAreas | functions/areas/index.js:28-44 | `createAreas`: ceil(n/25) batch writes of puts, the table then holding every area |
| AreaStore.DeleteEvents | functions/areas/index.js:50-64 | `deleteEvents`: ceil(n/25) batch writes of deletes, the table then lacking exactly those keys |
| EateryStore.CreateEateries | functions/eateries/index.js:28-44 | `createEateries`: ceil(n/25) batch writes, the table then holding every eatery |
| EateryStore.BuildingExists | functions/eateries/index.js:49-50 | `buildingExists` is one keyed read, true iff the building is stored |
| BuildingStore.CreateBuildingsAsWritten | functions/buildings/index.js:27-35 | `createBuildings` as written: a single batch write of every building, refused whole when that batch is empty or over 25 |
| BuildingStore.AsWrittenRefusesEmptyOrLarge | functions/buildings/index.js:27-35 | with the store up, the single batch succeeds iff there are 1 to 25 buildings |
| BuildingStore.TwentySixBuildingsRefused | functions/buildings/index.js:27-35 | a concrete 26-building create is refused by the store |
| BuildingStore.CreateBuildings | functions/buildings/index.js:27-35 | the corrected adapter: batches of at most 25, the table then holding every building |
| BuildingStore.CorrectedAgreesWhereAsWrittenWorks | functions/buildings/index.js:27-35 | for 1 to 25 buildings, the corrected adapter makes the very same single batch write |
| AttendeeStore.Incremented | functions/event-attendees/index.js:25-30 | the increment adds one to an existing number; without the item or number the store refuses; only that counter changes |
| AttendeeStore.Decremented | functions/event-attendees/index.js:31-37 | the decrement takes one from a number above zero; otherwise the condition fails and nothing changes |
| AttendeeStore.AttendeesExist | functions/event-attendees/index.js:24 | `attendeesExist` is one keyed read, true iff a counter is stored under the uuid |
| AttendeeStore.IncrementAttendees | functions/event-attendees/index.js:25-30 | `incrementAttendees` is one conditional-free update whose effect is `Incremented` |
| AttendeeStore.DecrementAttendees | functions/event-attendees/index.js:31-37 | `decrementAttendees` is one update guarded by `attendees > 0`, whose effect is `Decremented` |
| AttendeeStore.CountsStayValid | functions/event-attendees/index.js:25-37 | neither operation makes a count negative or fractional |
| AttendeeStore.DecrementUndoesIncrement | functions/event-attendees/index.js:25-37 | a decrement right after an increment restores the counters |
| Creates.Stamp | functions/events/handler.js:96-99 | `{ uuid, ...value }` carries the fresh key when the value has none, and removing it gives the value back |
| Creates.NewCounter | functions/events/handler.js:100-103 | a new counter is `{ uuid, attendees: 0 }`, a valid count |
| Creates.Records | functions/eateries/handler.js:83-89 | the k-th record is keyed by the k-th fresh id |
| Creates.Counters | functions/openhouses/handler.js:92-95 | the k-th counter is keyed by the k-th fresh id |
| Creates.Answer | functions/events/handler.js:108-111 | the response lists one item per value |
| Creates.Stored | functions/events/handler.js:105-106 | the create's writes change the record table and, when there is one, the counter table, and nothing else |
| Creates.PutEach | functions/events/handler.js:92-112 | the per-item write loop: for each value in order, its record's put, then its counter's; a down store refuses the first put and nothing is written |
| Creates.PutAll | functions/events/handler.js:92-112 | on a store that is up, the loop puts every value's record and then its counter, in order, and lists one merged item per value |
| Creates.PutOne | functions/areas/handler.js:84-92 | one value's writes: its record under its id, then its counter |
| Crud.EventLookupOrder | functions/events/handler.js:148-160 | the open house is looked up first, then the area, then the building, each only when the one before exists; the first missing one is named; acceptance iff all three exist |
| Crud.VerifyUuids | events/handler.js:154-175 | `verifyUUIDs` returns the first missing reference and makes exactly those lookups |
| Crud.FirstMissingKeeps | functions/events/handler.js:84-89 | an accepted payload carries the validated value unchanged |
| Crud.BrokenOnlyWhenDown | functions/events/handler.js:148-160 | a lookup fails only when the store is down, with the store's error |
| Crud.CheckAccepted | functions/eateries/handler.js:69-80 | a payload is accepted only if its schema accepts it, with the validated value |
| Crud.CheckItem | functions/eateries/handler.js:69-78 | checking one payload: the schema, then its references |
| Crud.ScreenSpec | functions/events/handler.js:76-90 | the validation loop passes iff every payload is accepted, yielding their values in order; otherwise it stops at the first payload that is not, with that verdict |
| Crud.ScreenStopsAtFirst | functions/areas/handler.js:70-81 | the loop stops at i exactly when payload i is the first refused |
| Crud.ScreenStopSticks | functions/events/handler.js:76-90 | once the loop has stopped, later payloads are neither checked nor looked up |
| Crud.ScreenOnlyReads | functions/events/handler.js:76-90 | the validation loop only makes keyed reads |
| Crud.ValidateAll | functions/openhouses/handler.js:72-83 | the validation loop of every create, equal to its specification |
| CreateFlow.IndexedMessageNamesOne | functions/events/handler.js:80-86 | the " for <entity> with index i" suffix names exactly one payload |
| CreateFlow.PassedValues | functions/events/handler.js:76-90 | when every payload passes, the values are the validated payloads, in order, none keyed |
| CreateFlow.StampEach | functions/eateries/handler.js:83-89 | the eateries and buildings loop gives the k-th value the k-th fresh id |
| CreateFlow.CreateWhenStopped | functions/eateries/handler.js:70-78 | a create stopped at a payload answers that payload's verdict, only reads, and writes nothing |
| CreateFlow.CreateWhenPassed | functions/eateries/handler.js:83-92 | a create whose payloads all pass answers and requests what its write phase does |
| CreateFlow.StoredWhenPassed | functions/events/handler.js:92-112 | a create whose payloads all pass stores what its write phase does |
| CreateFlow.WriteAll | functions/eateries/handler.js:83-90 | the write phase: per-item puts with counters, or stamped records handed to the batching adapter |
| CreateFlow.Create | functions/events/handler.js:66-115 | a create, equal to `CreateOf` in its answer, requests and tables |
| CreateFlow.RejectsFirstRefused | functions/events/handler.js:76-90 | a create is refused about payload i for a reason iff payload i is refused for it and every payload before i is accepted |
| CreateFlow.FailsOnlyWhenDown | functions/events/handler.js:66-115 | a create fails only on a down store, with its error |
| CreateFlow.NothingWrittenUnlessMade | functions/events/handler.js:76-90 | a create that does not succeed writes nothing, and a refused one only reads |
| CreateFlow.MadeWhenAllAccepted | functions/buildings/handler.js:68-90 | a create succeeds iff every payload is accepted and, unless there are none, the store is up |
| CreateFlow.AnswerLists | functions/openhouses/handler.js:97-104 | each listed item is its value under its fresh id, with `attendees: 0` when the entity has a counter |
| CreateFlow.MadeListsPayloads | functions/events/handler.js:92-114 | a successful create lists one item per payload, in order: the validated payload under its fresh id, with a zero count for events and open houses |
| CreateFlow.RecordsLand | functions/areas/handler.js:84-92 | with distinct ids, each record lands under its id, the table gains exactly those ids and keeps every other item |
| CreateFlow.CountersLand | functions/openhouses/handler.js:92-98 | with distinct ids, each zeroed counter lands under its id |
| CreateFlow.CreateLands | functions/events/handler.js:92-112 | with distinct ids, a successful create stores each validated payload under its id, and its zeroed counter when the entity has one; every other item and table is kept |
| Updates.Revise | functions/events/handler.js:117-139 | an update, equal to `ReviseOf` in its answer, requests and tables |
| Updates.ReplaceChecked | functions/eateries/handler.js:102-115 | the rest of an update once the item is found |
| Updates.NotFoundBeforeValidation | functions/events/handler.js:119-122 | with the store up, the answer is "does not exist" iff the uuid has no item; that costs one read, and no validation or write happens |
| Updates.ReplacedExactlyWhenAccepted | functions/buildings/handler.js:93-110 | an update succeeds iff the store is up, the item exists and the payload is accepted; otherwise nothing changes |
| Updates.ReplacedItem | functions/areas/handler.js:109-118 | after a successful update the item is the validated payload under the path's uuid; every other item and table is kept |
| Updates.ReplaceOne | functions/openhouses/handler.js:123 | writing `{ uuid, ...value }` over an existing item replaces exactly that item |
| Updates.RevisionFailsOnlyWhenDown | functions/events/handler.js:117-139 | an update fails only on a down store, with its error |
| Updates.RefusedUpdateOnlyReads | functions/eateries/handler.js:95-116 | an update that does not succeed only reads |
| Updates.Remove | functions/events/handler.js:141-146 | a delete removes the item, then its counter when the entity has one |
| Updates.RemovesItemAndCounter | functions/openhouses/handler.js:128-133 | with the store up, the uuid is afterwards in neither table, and every other item and table is kept; with it down, nothing changes |
| Listing.WithAttendees | functions/events/handler.js:60 | an item gets its counter's `attendees` and keeps every other member |
| Listing.AttachSuccess | functions/events/handler.js:56-63 | attaching succeeds iff every item's read succeeds; each item then carries its own counter's count, in listing order |
| Listing.AttachFailure | functions/events/handler.js:59-61 | a failed attach fails with the error of the first item whose read fails or finds no counter |
| Listing.AttachWhenDown | functions/events/handler.js:59-61 | a down store fails the first read, and only that read is made |
| Listing.AttachFailureSticks | functions/events/handler.js:59-61 | after the first failure no further counter is read |
| Listing.AttachAttendees | functions/events/handler.js:59-61 | the loop that sets each listed item's `attendees`, equal to its specification |
| Listing.AsWrittenFailsWhereBatchLists | functions/openhouses/index.js:48-54 | with the store up and 1 to 100 open houses, the batched listing lists them all, while `getOpenHouseAttendees` as called fails on the first one |
| Listing.AttachAllAsWritten | functions/openhouses/handler.js:55-57 | the open-house listing loop as written, which hands one uuid string to `getOpenHouseAttendees` (functions/openhouses/index.js:48-54): no items gives an empty listing; any item fails with "uuids.map is not a function" before any request |
| Listing.OneOpenHouseListingFails | functions/openhouses/index.js:48-54 | a concrete one-open-house listing that fails as written and, batched, lists the open house with its count of 3 |
| Listing.FindCounterFinds | functions/openhouses/handler.test.js:38-64 | looking up a uuid among the counters read finds one exactly when one is under that uuid, and what it finds is under that uuid |
| Listing.MergedIsCounted | functions/openhouses/handler.test.js:38-64 | whatever order the batch read returns the counters in, an open house it named gets exactly the count stored under its uuid, or none |
| Listing.MergeCounts | functions/openhouses/handler.test.js:22-103 | the batched listing: no read for an empty listing, else one batch read of every listed uuid, then each open house with the count found for it; equal to its specification `CountAll`, requests included |
| Listing.CountAllSucceeds | functions/openhouses/handler.test.js:78-103 | with the store up, the batched listing succeeds iff at most 100 open houses are listed; each then has its own counter's count, or no `attendees` member when it has no counter |
| Listing.BatchedAgreesWithKeyed | functions/openhouses/handler.test.js:22-65 | where every open house has its counter, the batched listing gives the very list the per-item keyed reads give |
| Listing.AttachIffCounted | functions/events/handler.js:56-63 | for a scanned table with the store up, every item gets its count iff every stored key has a counter |
| Handlers.Serve | functions/events/handler.js:24-54 | a handler invocation: routes the request and runs the route, as `Served` relates them |
| Handlers.ServeList | functions/openhouses/handler.js:52-60 | GET: a scan, then the counts when the entity has counters |
| Handlers.ServeCreate | functions/areas/handler.js:59-99 | POST: the create of the body's payloads |
| Handlers.ServeUpdate | functions/buildings/handler.js:93-110 | PUT: the update of the path's item |
| Handlers.RefusedRequestsTouchNothing | functions/eateries/handler.js:20-50 | a refused request is answered 400 or 405, makes no store request and changes nothing |
| Handlers.AlwaysResponds | functions/events/handler.js:48-53 | under the 500 catch, every request gets a response, never an error |
| Handlers.DownStoreChangesNothing | functions/openhouses/handler.js:20-50 | with the store down, no request changes a table |
| Handlers.ServerErrorsCarryTheirCause | functions/buildings/handler.js:45-50 | under the 500 catch, a 500 carries the store's error, the parser's message, the missing-counter error of a keyed listing, or the store's refusal of a batched listing of more than 100 items |
| Handlers.RevisedServerError | functions/events/handler.js:48-53 | an update is answered 500 only when it fails on the store, with the store's message |
| Handlers.CreateRefusesFirstInvalid | functions/events/handler.js:76-90 | a create whose first refused payload is i is answered 400 with the reason and " for <entity> with index i"; it only reads and writes nothing |
| Handlers.CreateMirrorsBody | functions/events/handler.js:92-114 | with the store up and every payload accepted, a create is answered 201: a list if the body was a list, else the single item; item k is payload k under the k-th id |
| Handlers.UpdateOfMissingIs404 | functions/openhouses/handler.js:111-114 | updating a missing uuid is answered 404 with the handler's message, after one read and before any validation |
| Handlers.UpdateReplacesItem | functions/areas/handler.js:101-123 | an update is answered 200 iff the store is up, the item exists and the payload is accepted; the item is then the validated payload and nothing else changes |
| Handlers.DeleteRemovesItemAndCounter | functions/events/handler.js:141-146 | with the store up, a delete is answered 200; the item is gone, and so is its counter when the entity has one; nothing else changes |
| Handlers.BatchedListingCounts | functions/openhouses/handler.test.js:22-103 | an open-house listing is answered 200 iff the store is up and at most 100 open houses are stored; each then carries the count stored under its uuid, or none; one batch read of every listed uuid is made, none when nothing is listed |
| Handlers.ListingAttachesCounts | functions/events/handler.js:56-64 | an event listing (keyed counter reads) is answered 200 iff the store is up and every item has a counter; each item then carries its own count |
| EventsHandler.Handle | functions/events/handler.js:24-160 | the events handler, always with a response |
| EateriesHandler.Handle | functions/eateries/handler.js:20-122 | the eateries handler, always with a response |
| BuildingsHandler.Handle | functions/buildings/handler.js:21-116 | the buildings handler with the corrected batching, always with a response |
| BuildingsHandler.DeleteDoesNotCascade | functions/buildings/handler.js:112-116 | deleting a building makes one delete, and leaves every other table, its eateries and events included, as it was |
| AreasHandler.Handle | functions/areas/handler.js:18-134 | the areas handler |
| OpenHousesHandler.Handle | functions/openhouses/handler.js:20-133 | the open houses handler, always with a response |
| OpenHousesHandler.UpdateKeepsCounts | functions/openhouses/handler.js:109-126 | an update leaves the attendee counters as they were |
| OpenHousesHandler.ListingAsWrittenIs500 | functions/openhouses/handler.js:44-60 | as written, a listing of one or more open houses is answered 500 with `{ error: "uuids.map is not a function" }`, while the batched read answers 200 with every open house counted when there are at most 100 |
| LegacyEventsHandler.Handle | events/handler.js:24-175 | the earlier events handler |
| LegacyEventsHandler.DeleteLeavesCounter | events/handler.js:143-152 | its delete removes the event and leaves the attendee counters untouched |
| LegacyBuildingsHandler.Handle | buildings/handler.js:21-137 | the earlier buildings handler |
| DepartmentsHandler.Handle | departments/index.js:15-156 | the departments handler |
| DepartmentsHandler.CreateIsSingle | departments/index.js:73-100 | a created department is answered 201 with no body, and no department response carries the CORS header |
| CounterRequests.IncrementRequest | functions/event-attendees/handler.js:35-48 | look the counter up; 404 without one; else add one and answer 200; any error is handed back |
| CounterRequests.DecrementRequest | functions/event-attendees/handler.js:50-68 | look the counter up; 404 without one; else take one while above zero; a failed condition is a 200, any other error is handed back |
| CounterRequests.StepsKeepCounts | functions/event-attendees/handler.js:35-68 | neither request makes a count negative or fractional, or touches another counter |
| CounterRequests.MissingCounterIsNotFound | functions/event-attendees/handler.js:37-39 | without a counter, the answer is the 404 after the lookup alone, with no update |
| CounterRequests.IncrementAddsOne | functions/event-attendees/handler.js:41-43 | an increment of a counter makes exactly one update, adds one and answers 200 |
| CounterRequests.DecrementFloorsAtZero | functions/event-attendees/handler.js:56-63 | a decrement of an existing counter always answers 200: one less above zero, unchanged at zero |
| CounterRequests.DecrementUndoesIncrementRequest | functions/event-attendees/handler.js:35-68 | an increment and then a decrement, both answered 200, restore the counters |
| EventAttendeeHandler.ActionOf | functions/event-attendees/handler.js:13-28 | POST increments and DELETE decrements, each only with a uuid (else 400); any other method is answered 405 |
| EventAttendeeHandler.Handle | functions/event-attendees/handler.js:11-33 | the event attendee handler |
| EventAttendeeHandler.RefusedRequestsTouchNothing | functions/event-attendees/handler.js:14-27 | a refused request is answered 400 (POST or DELETE) or 405, with no store request |
| EventAttendeeHandler.CountsNeverNegative | functions/event-attendees/handler.js:11-68 | whatever the request and the store, the counts stay whole numbers no lower than zero, and only the named counter changes |
| OpenHouseAttendeeHandler.Handle | functions/openhouse-attendees/handler.js:11-31 | the open-house attendee handler |
| OpenHouseAttendeeHandler.MethodIsIgnored | functions/openhouse-attendees/handler.js:11-26 | two requests naming the same counter do the same whatever their methods; without a uuid the answer is 400 |
| OpenHouseAttendeeHandler.CountsOnlyRise | functions/openhouse-attendees/handler.js:19-26 | no count ever drops: each ends where it was or one higher, and stays valid |

## Left out

- The store's own concurrency and partial failures are not modelled. A down
  store refuses every request with the same error, so a failure between two
  writes of one create (say, after the record but before its counter) is not
  modelled. Neither is one batch failing while others succeed.
- `Promise.all` runs the batch writes concurrently. The model issues them in
  order, and the outcome is the same: every batch is sent, and the call fails
  if any batch fails.
- Joi's message wording is modelled only for the rules these schemas use.
  The model gives one detail per failure, the first, since Joi stops at the
  first error by default. Joi's conversion of `"true"`/`"false"` text to
  booleans is modelled; its conversion of numeric strings to numbers is not,
  so a `date`, `lat` or `lng` sent as text is refused by the model.
- Schemas.Validate: a payload with an undeclared member is refused with
  `"value" has a member that is not allowed` (inside a position, `"position"
  has a member that is not allowed`). Joi's message names the first such
  key, as in `"uuid" is not allowed`. The model's objects have no member
  order, so which key Joi would name first is not determined; only the
  wording differs, the 400 and the absence of writes are the same.
- The store's error codes and messages are represented by `StoreError` values.
  Their exact wording is not part of the model.
- `JSON.parse` and `JSON.stringify` are not modelled. A body is either
  parsed JSON or the parser's message, and a response body is a JSON value.
- Console logging is left out. Its one effect that matters is modelled:
  `console.err`, which does not exist, throws in the dispatcher catch of
  functions/areas/handler.js, events/handler.js, buildings/handler.js and
  departments/index.js.
- Floating point is not modelled. Numbers are exact reals, so the bounds on
  latitude and longitude, the safe-number bound, and the integer test on
  `date` are exact.
- Headers other than `Access-Control-Allow-Origin` are left out. Only its
  presence is modelled.
- The deployment configuration (environment variables, table names, region)
  is left out. Each table is a constructor of `DocStore.Table`.
- OpenHousesHandler.Handle: the listing uses the batched counter read that
  the adapter and the handler's tests describe (`Listing.MergeCounts`). As
  written, `getOpenHouses` passes one uuid to an adapter that maps over a
  list, so any non-empty listing fails with a 500. See Findings.
- OpenHouseAttendeeHandler.Handle: functions/openhouse-attendees/index.js is
  not part of this model. The handler's `attendeesExist` is modelled as a
  keyed read of the open house's counter in `OpenHouseAttendees`, and
  `incrementAttendees` as an unconditional `attendees + 1` on that counter,
  as functions/event-attendees/index.js does for events. What
  `OpenHouseAttendeeHandler.CountsOnlyRise` and `MethodIsIgnored` state
  rests on that reading.
- DocStore.Store.Scan: a scan returns every item in one answer. The store's
  1 MB page limit and its `LastEvaluatedKey` are not modelled, and the
  adapters never ask for a second page. So `Handlers.ServeList`,
  `Handlers.ListingAttachesCounts`, `Handlers.BatchedListingCounts` and
  `Listing.AttachIffCounted` hold for tables whose items fit in one page;
  a larger table would be listed only in part.
- DocStore.Store.BatchWrite: the store's refusal of a batch that names one
  key twice is not modelled; such a batch is applied in order. So
  `AreaStore.DeleteEvents` given a list that repeats a uuid deletes it,
  where the store refuses the whole batch (no handler calls it). The
  creates' batches name one fresh uuid per item, so they meet the refusal
  only if the uuid generator repeats, which the model's `gen` does not rule
  out.
- DocStore.Store.BatchGet: the store's refusal of a batch read that names
  one key twice is not modelled; the open-house listing names the uuids of
  a scan, which are distinct. A batch read that the store answers only in
  part, returning the rest as `UnprocessedKeys`, is not modelled either:
  every found counter is returned.
- Listing.MergeCounts: a listing of more than 100 open houses exceeds the
  batch read's limit and is answered 500. The tests show only one read of
  every listed uuid; they do not say how a larger listing is meant to be
  read.
- BuildingsHandler.Handle: creates use the corrected batching adapter. As
  written, more than 25 buildings, or an empty list, are refused. See
  Findings.
- Listing.AttachAttendees: a scanned item without a `uuid` member is read as
  uuid "", which no stored counter has. Stored items always have one.
- LegacyEventsHandler.Handle models the interface the handler calls, not the
  adapter it is wired to. events/handler.js:56, 100, 116, 134, 145 and
  161-171 call `scan`, `put`, `get(table, key)` and `delete` on its adapter,
  and the model gives these their evident meaning: keyed reads, writes and
  deletes on the named tables. The adapter at events/index.js:14-28 provides
  none of these; it has `scanEvents`, `getEvent`, `putEvent`, `deleteEvent`,
  `getBuilding` and the like. As deployed, every list, create, update or
  delete through that handler therefore throws a TypeError (such as
  "dynamo.scan is not a function") instead of touching a table.
- `deleteEvents` (functions/areas/index.js:50-64) is modelled as AreaStore.DeleteEvents, but no handler calls it: deleting an area does not delete its events.
- A listing where an event has no attendee counter fails in the model, with
  a 500. The code and its test disagree here, and the model follows the
  code. functions/events/handler.js:60 reads
  `(await dynamo.getEventAttendees(event.uuid)).Item.attendees`, which
  throws when no counter exists. The test at
  functions/events/handler.test.js:123-156 expects a 200 with `attendees`
  left out for that event. Open houses do not follow the code here: their
  listing as written throws at `uuids.map` before any counter is read, so
  the model uses the batched read their tests describe, where an open house
  without a counter is listed without `attendees` (see Findings).

## Findings

| source | as written | input that shows it | evidently intended | confidence | as-written member | corrected member |
|---|---|---|---|---|---|---|
| functions/buildings/index.js:27-35 | `createBuildings` sends every building in one batch write. The store refuses a batch of more than 25 requests, or of none. | A POST of 26 valid buildings (or of `[]`) is answered 500, and nothing is written. | Slice the list into batches of at most 25, as `createAreas` and `createEateries` do. | not executed | BuildingStore.CreateBuildingsAsWritten, BuildingStore.AsWrittenRefusesEmptyOrLarge, BuildingStore.TwentySixBuildingsRefused | BuildingStore.CreateBuildings, BuildingStore.CorrectedAgreesWhereAsWrittenWorks |
| functions/openhouses/index.js:48-54 | `getOpenHouses` (functions/openhouses/handler.js:56) passes a single uuid string to `getOpenHouseAttendees`. That adapter calls `uuids.map`, which a string does not have, so it throws "uuids.map is not a function". | A GET while any open house is stored is answered 500. | One batch read of every listed uuid, none when nothing is listed, each open house then getting the count found under its uuid or no `attendees` when none is found, as functions/openhouses/handler.test.js:22-103 expects. | not executed | Listing.AttachAllAsWritten, Listing.AsWrittenFailsWhereBatchLists, Listing.OneOpenHouseListingFails, OpenHousesHandler.ListingAsWrittenIs500 | Listing.MergeCounts, Listing.CountAllSucceeds, Handlers.BatchedListingCounts |
