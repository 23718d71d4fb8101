/**
 * A create request from start to end, as every create handler runs it: each
 * payload is checked in order, and the first one that is not accepted ends
 * the request before anything is written; once all are accepted, the write
 * phase stores them under fresh ids. `CreateOf`, `CreateCalls` and
 * `CreateStored` say what a create answers, which requests it makes and what
 * the tables hold afterwards; `Create` is proved to do exactly that.
 */
module CreateFlow {
  import opened Options
  import opened JsonValues
  import opened Schemas
  import opened DocStore
  import opened Chunking
  import opened AttendeeStore
  import opened EateryStore
  import opened BuildingStore
  import opened Crud
  import opened Creates

  /** How a create ends. */
  datatype Created =
    | Made(items: seq<Record>)               // every payload written; the items the 201 lists
    | Rejected(index: nat, reason: string)   // a 400 about the payload at `index`
    | Failed(error: StoreError)              // a store request failed, and the handler's catch takes over

  /** The 400 message of a create: the reason, then which payload it is about. */
  function IndexedMessage(reason: string, e: Entity, i: nat): string {
    reason + " for " + Noun(e) + " with index " + Decimal(i)
  }

  /** The index suffix names exactly one payload. */
  lemma IndexedMessageNamesOne(reason: string, e: Entity, i: nat, j: nat)
    requires IndexedMessage(reason, e, i) == IndexedMessage(reason, e, j)
    ensures i == j
  {
    var prefix := reason + " for " + Noun(e) + " with index ";
    assert IndexedMessage(reason, e, i)[|prefix|..] == Decimal(i);
    assert IndexedMessage(reason, e, j)[|prefix|..] == Decimal(j);
    DecimalInjective(i, j);
  }

  /** What a create answers, given the tables and the store's state when it starts. */
  function CreateOf(e: Entity, w: Writes, gen: nat -> string, items: seq<Json>, db: Db, fault: Option<StoreError>): Created
    requires Complete(db)
  {
    var vs := Checks(e, items, db, fault);
    var s := Screen(vs);
    if s.Passed? then
      if fault.Some? && s.values != [] then Failed(fault.value) else Made(Answer(Home(e), w, gen, s.values))
    else if s.verdict.Broken? then Failed(s.verdict.error)
    else
      ScreenSpec(vs);
      Rejected(s.index, s.verdict.message)
  }

  /** The requests of the write phase. A down store refuses the first put, or every batch write. */
  function WriteCalls(t: Table, w: Writes, gen: nat -> string, values: seq<Record>, fault: Option<StoreError>): seq<Call> {
    match w
    case OneByOne(counter) =>
      if fault.None? then PutCalls(t, counter, gen, values)
      else if values == [] then []
      else [PutItem(t, Stamp(t, gen(0), values[0]))]
    case InBatches => BatchCalls(t, Chunks(Puts(Records(t, gen, values))))
  }

  /** Every request a create makes: the checks' reads, then, when all payloads are accepted, the writes. */
  function CreateCalls(e: Entity, w: Writes, gen: nat -> string, items: seq<Json>, db: Db, fault: Option<StoreError>): seq<Call>
    requires Complete(db)
  {
    var vs := Checks(e, items, db, fault);
    ScreenCalls(vs, CheckCallsEach(e, items, db, fault)) +
      match Screen(vs)
      case StoppedAt(_, _) => []
      case Passed(values) => WriteCalls(Home(e), w, gen, values, fault)
  }

  /** The tables once a create is over: changed only when every payload was accepted and the store is up. */
  function CreateStored(e: Entity, w: Writes, gen: nat -> string, items: seq<Json>, db: Db, fault: Option<StoreError>): Db
    requires Complete(db) && Fits(w, Home(e))
  {
    var s := Screen(Checks(e, items, db, fault));
    if s.Passed? && fault.None? then
      PassedValues(e, items, db, fault);
      Stored(Home(e), w, db, Records(Home(e), gen, s.values), Counters(gen, |s.values|))
    else db
  }

  /** When every payload is accepted, the values to store are the validated payloads, in order, none carrying a key. */
  lemma PassedValues(e: Entity, items: seq<Json>, db: Db, fault: Option<StoreError>)
    requires Complete(db) && Screen(Checks(e, items, db, fault)).Passed?
    ensures var values := Screen(Checks(e, items, db, fault)).values;
      && |values| == |items|
      && (forall k :: 0 <= k < |items| ==> ValidateEntity(e, items[k]) == Success(values[k]))
      && Unkeyed(Home(e), values)
  {
    var vs := Checks(e, items, db, fault);
    var values := Screen(vs).values;
    ScreenSpec(vs);
    forall k | 0 <= k < |items|
      ensures ValidateEntity(e, items[k]) == Success(values[k]) && KeyName(Home(e)) !in values[k]
    {
      assert vs[k] == CheckOf(e, items[k], db, fault);
      CheckAccepted(e, items[k], db, fault);
      ValidatedHasNoKey(e, items[k]);
    }
  }

  /** The eateries and buildings loop: a fresh id for each value, in order. */
  method StampEach(t: Table, gen: nat -> string, values: seq<Record>) returns (records: seq<Record>)
    ensures records == Records(t, gen, values)
  {
    records := [];
    var k := 0;
    while k < |values|
      invariant 0 <= k <= |values| && records == Records(t, gen, values)[..k]
    {
      records := records + [Stamp(t, gen(k), values[k])];
      k := k + 1;
    }
  }

  /** A create that stops at a payload answers with that payload's verdict, and only reads. */
  lemma CreateWhenStopped(e: Entity, w: Writes, gen: nat -> string, items: seq<Json>, db: Db, fault: Option<StoreError>)
    requires Complete(db) && Fits(w, Home(e)) && Screen(Checks(e, items, db, fault)).StoppedAt?
    ensures var s := Screen(Checks(e, items, db, fault));
      && !s.verdict.Accepted?
      && CreateOf(e, w, gen, items, db, fault) ==
           (if s.verdict.Broken? then Failed(s.verdict.error) else Rejected(s.index, s.verdict.message))
      && CreateCalls(e, w, gen, items, db, fault) == ScreenCalls(Checks(e, items, db, fault), CheckCallsEach(e, items, db, fault))
      && CreateStored(e, w, gen, items, db, fault) == db
  {
    ScreenSpec(Checks(e, items, db, fault));
  }

  /** A create whose payloads are all accepted answers, requests and stores what its write phase does. */
  lemma CreateWhenPassed(e: Entity, w: Writes, gen: nat -> string, items: seq<Json>, db: Db, fault: Option<StoreError>)
    requires Complete(db) && Fits(w, Home(e)) && Screen(Checks(e, items, db, fault)).Passed?
    ensures var values := Screen(Checks(e, items, db, fault)).values;
      && Unkeyed(Home(e), values)
      && CreateOf(e, w, gen, items, db, fault) ==
           (if fault.Some? && values != [] then Failed(fault.value) else Made(Answer(Home(e), w, gen, values)))
      && CreateCalls(e, w, gen, items, db, fault) ==
           ScreenCalls(Checks(e, items, db, fault), CheckCallsEach(e, items, db, fault)) + WriteCalls(Home(e), w, gen, values, fault)
  {
    PassedValues(e, items, db, fault);
  }

  /** A create whose payloads are all accepted stores what its write phase does. */
  lemma StoredWhenPassed(e: Entity, w: Writes, gen: nat -> string, items: seq<Json>, db: Db, fault: Option<StoreError>)
    requires Complete(db) && Fits(w, Home(e)) && Screen(Checks(e, items, db, fault)).Passed?
    ensures var values := Screen(Checks(e, items, db, fault)).values;
      && Unkeyed(Home(e), values)
      && CreateStored(e, w, gen, items, db, fault) ==
           if fault.None? then Stored(Home(e), w, db, Records(Home(e), gen, values), Counters(gen, |values|)) else db
  {
    PassedValues(e, items, db, fault);
  }

  /**
   * The write phase: one put per value, each followed by its counter's, or,
   * for eateries and buildings, the stamped records handed to the store
   * adapter, which writes them in batches.
   */
  method WriteAll(store: Store, e: Entity, w: Writes, gen: nat -> string, values: seq<Record>) returns (r: Created)
    requires store.Valid() && Fits(w, Home(e)) && (w.InBatches? ==> e == Eatery || e == Building) && Unkeyed(Home(e), values)
    modifies store
    ensures store.Valid()
    ensures r == if store.fault.Some? && values != [] then Failed(store.fault.value) else Made(Answer(Home(e), w, gen, values))
    ensures store.calls == old(store.calls) + WriteCalls(Home(e), w, gen, values, store.fault)
    ensures store.tables ==
      if store.fault.None? then Stored(Home(e), w, old(store.tables), Records(Home(e), gen, values), Counters(gen, |values|))
      else old(store.tables)
  {
    var t := Home(e);
    var failure;
    match w
    case OneByOne(counter) =>
      var created;
      created, failure := PutEach(store, t, counter, gen, values);
      r := if failure.Some? then Failed(failure.value) else Made(created);
    case InBatches =>
      var records := StampEach(t, gen, values);
      if e == Eatery {
        failure := CreateEateries(store, records);
      } else {
        failure := CreateBuildings(store, records);
      }
      r := if failure.Some? then Failed(failure.value) else Made(records);
      if store.fault.None? {
        StoredIs(t, w, old(store.tables), records, Counters(gen, |values|), store.tables);
      }
  }

  /**
   * A create: the payloads are checked in order, and, when all of them are
   * accepted, written.
   */
  method Create(store: Store, e: Entity, w: Writes, gen: nat -> string, items: seq<Json>) returns (r: Created)
    requires store.Valid() && Fits(w, Home(e)) && (w.InBatches? ==> e == Eatery || e == Building)
    modifies store
    ensures store.Valid()
    ensures r == CreateOf(e, w, gen, items, old(store.tables), store.fault)
    ensures store.calls == old(store.calls) + CreateCalls(e, w, gen, items, old(store.tables), store.fault)
    ensures store.tables == CreateStored(e, w, gen, items, old(store.tables), store.fault)
  {
    ghost var db, calls0 := store.tables, store.calls;
    var s := ValidateAll(store, e, items);
    if s.StoppedAt? {
      CreateWhenStopped(e, w, gen, items, db, store.fault);
      r := if s.verdict.Broken? then Failed(s.verdict.error) else Rejected(s.index, s.verdict.message);
    } else {
      CreateWhenPassed(e, w, gen, items, db, store.fault);
      StoredWhenPassed(e, w, gen, items, db, store.fault);
      ghost var checked := store.calls;
      r := WriteAll(store, e, w, gen, s.values);
      LogAppend(calls0, checked[|calls0|..], WriteCalls(Home(e), w, gen, s.values, store.fault));
    }
  }

  /**
   * A create is refused with a 400 about payload `i` exactly when payload
   * `i` is refused, for `reason`, and every payload before it is accepted.
   */
  lemma RejectsFirstRefused(e: Entity, w: Writes, gen: nat -> string, items: seq<Json>, db: Db, fault: Option<StoreError>,
                            i: nat, reason: string)
    requires Complete(db)
    ensures CreateOf(e, w, gen, items, db, fault) == Rejected(i, reason) <==>
      && i < |items| && CheckOf(e, items[i], db, fault) == Refused(reason)
      && forall k :: 0 <= k < i ==> CheckOf(e, items[k], db, fault).Accepted?
  {
    var vs := Checks(e, items, db, fault);
    RejectedWhereStopped(e, w, gen, items, db, fault, i, reason);
    ScreenSpec(vs);
    ScreenStopsAtFirst(vs, i);
    assert forall k :: 0 <= k < |items| ==> vs[k] == CheckOf(e, items[k], db, fault);
  }

  /** A create is refused about payload `i` exactly when the validation loop stops there with a refusal. */
  lemma RejectedWhereStopped(e: Entity, w: Writes, gen: nat -> string, items: seq<Json>, db: Db, fault: Option<StoreError>,
                             i: nat, reason: string)
    requires Complete(db)
    ensures var s := Screen(Checks(e, items, db, fault));
      CreateOf(e, w, gen, items, db, fault) == Rejected(i, reason) <==>
      s.StoppedAt? && s.index == i && s.verdict == Refused(reason)
  {
    ScreenSpec(Checks(e, items, db, fault));
  }

  /** A create fails only when the store is down, and then with the store's error. */
  lemma FailsOnlyWhenDown(e: Entity, w: Writes, gen: nat -> string, items: seq<Json>, db: Db, fault: Option<StoreError>)
    requires Complete(db)
    ensures CreateOf(e, w, gen, items, db, fault).Failed? ==>
      fault.Some? && CreateOf(e, w, gen, items, db, fault).error == fault.value
  {
    var vs := Checks(e, items, db, fault);
    ScreenSpec(vs);
    if Screen(vs).StoppedAt? {
      var i := Screen(vs).index;
      assert vs[i] == CheckOf(e, items[i], db, fault);
      if ValidateEntity(e, items[i]).Success? {
        BrokenOnlyWhenDown(References(e), ValidateEntity(e, items[i]).value, db, fault);
      }
    }
  }

  /** A create that does not succeed leaves every table as it was, and one refused with a 400 only reads. */
  lemma NothingWrittenUnlessMade(e: Entity, w: Writes, gen: nat -> string, items: seq<Json>, db: Db, fault: Option<StoreError>)
    requires Complete(db) && Fits(w, Home(e))
    ensures !CreateOf(e, w, gen, items, db, fault).Made? ==> CreateStored(e, w, gen, items, db, fault) == db
    ensures CreateOf(e, w, gen, items, db, fault).Rejected? ==>
      forall c :: c in CreateCalls(e, w, gen, items, db, fault) ==> c.GetItem?
  {
    if Screen(Checks(e, items, db, fault)).StoppedAt? {
      CreateWhenStopped(e, w, gen, items, db, fault);
      ScreenOnlyReads(e, items, db, fault);
    } else {
      CreateWhenPassed(e, w, gen, items, db, fault);
      StoredWhenPassed(e, w, gen, items, db, fault);
    }
  }

  /** The members of the k-th item a successful create lists. */
  predicate ListsPayload(t: Table, w: Writes, id: string, value: Record, item: Record) {
    && item.Keys == value.Keys + {KeyName(t)} + (if HasCounter(w) then {ATTENDEES} else {})
    && item[KeyName(t)] == JStr(id)
    && (forall m :: m in value ==> item[m] == value[m])
    && (HasCounter(w) ==> item[ATTENDEES] == JNum(0.0))
  }

  /** Every item the write phase answers lists its value under its fresh id. */
  lemma {:induction false} AnswerLists(t: Table, w: Writes, gen: nat -> string, values: seq<Record>)
    requires Fits(w, t) && (HasCounter(w) ==> KeyName(t) == "uuid")
    requires forall k :: 0 <= k < |values| ==> KeyName(t) !in values[k] && ATTENDEES !in values[k]
    ensures forall k :: 0 <= k < |values| ==> ListsPayload(t, w, gen(k), values[k], Answer(t, w, gen, values)[k])
  {
    forall k | 0 <= k < |values|
      ensures ListsPayload(t, w, gen(k), values[k], Answer(t, w, gen, values)[k])
    {
      AnswerAt(t, w, gen, values, k);
    }
  }

  /** A create succeeds exactly when every payload is accepted and, unless there is none, the store is up. */
  lemma MadeWhenAllAccepted(e: Entity, w: Writes, gen: nat -> string, items: seq<Json>, db: Db, fault: Option<StoreError>)
    requires Complete(db) && Fits(w, Home(e))
    ensures CreateOf(e, w, gen, items, db, fault).Made? <==>
      (forall k :: 0 <= k < |items| ==> CheckOf(e, items[k], db, fault).Accepted?) && (fault.None? || items == [])
  {
    var vs := Checks(e, items, db, fault);
    ScreenSpec(vs);
    assert forall k :: 0 <= k < |items| ==> vs[k] == CheckOf(e, items[k], db, fault);
    if Screen(vs).Passed? {
      CreateWhenPassed(e, w, gen, items, db, fault);
      assert |Screen(vs).values| == |items|;
    } else {
      CreateWhenStopped(e, w, gen, items, db, fault);
      assert !CheckOf(e, items[Screen(vs).index], db, fault).Accepted?;
    }
  }

  /**
   * A successful create lists one item per payload, in order: the validated
   * payload under its fresh id, with an attendee count of zero when the
   * entity has a counter.
   */
  lemma MadeListsPayloads(e: Entity, w: Writes, gen: nat -> string, items: seq<Json>, db: Db, fault: Option<StoreError>)
    requires Complete(db) && Fits(w, Home(e)) && (HasCounter(w) ==> e == Event || e == OpenHouse)
    requires CreateOf(e, w, gen, items, db, fault).Made?
    ensures var created := CreateOf(e, w, gen, items, db, fault).items;
      && |created| == |items|
      && forall k :: 0 <= k < |items| ==>
        ValidateEntity(e, items[k]).Success? && ListsPayload(Home(e), w, gen(k), ValidateEntity(e, items[k]).value, created[k])
  {
    var vs := Checks(e, items, db, fault);
    ScreenSpec(vs);
    CreateWhenPassed(e, w, gen, items, db, fault);
    PassedValues(e, items, db, fault);
    var values := Screen(vs).values;
    forall k | 0 <= k < |items|
      ensures KeyName(Home(e)) !in values[k] && ATTENDEES !in values[k]
    {
      ValidatedHasNoKey(e, items[k]);
    }
    AnswerLists(Home(e), w, gen, values);
  }

  /** Distinct fresh ids: each record lands under its id, the table gains exactly those ids, and keeps every other item. */
  lemma {:induction false} RecordsLand(t: Table, gen: nat -> string, values: seq<Record>, rows: Rows)
    requires Unkeyed(t, values) && forall k, l :: 0 <= k < l < |values| ==> gen(k) != gen(l)
    ensures AllKeyed(t, Records(t, gen, values)) && PutsKeyed(t, Puts(Records(t, gen, values)))
    ensures var d, ids := ApplyWrites(t, rows, Puts(Records(t, gen, values))), set k | 0 <= k < |values| :: gen(k);
      && (forall k :: 0 <= k < |values| ==> gen(k) in d && d[gen(k)] == Stamp(t, gen(k), values[k]))
      && d.Keys == rows.Keys + ids
      && forall key :: key in rows && key !in ids ==> d[key] == rows[key]
  {
    var records := Records(t, gen, values);
    PutsLand(t, rows, records);
    PutsKeep(t, rows, records);
    assert KeysOf(t, records) == set k | 0 <= k < |values| :: gen(k);
  }

  /** Distinct fresh ids: each zeroed counter lands under its id. */
  lemma CountersLand(ct: Table, gen: nat -> string, n: nat, rows: Rows)
    requires CounterTable(ct) && forall k, l :: 0 <= k < l < n ==> gen(k) != gen(l)
    ensures AllKeyed(ct, Counters(gen, n)) && PutsKeyed(ct, Puts(Counters(gen, n)))
    ensures forall k :: 0 <= k < n ==>
      gen(k) in ApplyWrites(ct, rows, Puts(Counters(gen, n))) && ApplyWrites(ct, rows, Puts(Counters(gen, n)))[gen(k)] == NewCounter(gen(k))
  {
    PutsLand(ct, rows, Counters(gen, n));
  }

  /**
   * With the store up and distinct fresh ids, a successful create leaves
   * each validated payload in its table under its id, and a zeroed counter
   * under the same id when the entity has one; the table gains exactly
   * those ids, every other item is kept, and no other table changes.
   */
  lemma CreateLands(e: Entity, w: Writes, gen: nat -> string, items: seq<Json>, db: Db)
    requires Complete(db) && Fits(w, Home(e)) && CreateOf(e, w, gen, items, db, None).Made?
    requires forall k, l :: 0 <= k < l < |items| ==> gen(k) != gen(l)
    ensures var d, t := CreateStored(e, w, gen, items, db, None), Home(e);
      var ids := set k | 0 <= k < |items| :: gen(k);
      && (forall k :: 0 <= k < |items| ==>
            && ValidateEntity(e, items[k]).Success?
            && gen(k) in d[t] && d[t][gen(k)] == Stamp(t, gen(k), ValidateEntity(e, items[k]).value))
      && (HasCounter(w) ==> forall k :: 0 <= k < |items| ==>
            gen(k) in d[w.counter.value] && d[w.counter.value][gen(k)] == NewCounter(gen(k)))
      && d[t].Keys == db[t].Keys + ids
      && (forall key :: key in db[t] && key !in ids ==> d[t][key] == db[t][key])
      && forall u :: u in db && u != t && !(HasCounter(w) && u == w.counter.value) ==> d[u] == db[u]
  {
    var t := Home(e);
    var vs := Checks(e, items, db, None);
    assert Screen(vs).Passed?;
    var values := Screen(vs).values;
    PassedValues(e, items, db, None);
    StoredWhenPassed(e, w, gen, items, db, None);
    RecordsLand(t, gen, values, db[t]);
    if HasCounter(w) {
      CountersLand(w.counter.value, gen, |values|, db[w.counter.value]);
    }
  }
}
