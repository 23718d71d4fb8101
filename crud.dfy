/**
 * The create, update and list steps the CRUD handlers share, each stated
 * once as a specification over the store's contents and once as the method
 * that performs it against the store:
 *
 *  - checking one payload: the schema first, then, for events and eateries,
 *    a keyed read per referenced item, in a fixed order, stopping at the
 *    first one missing;
 *  - screening a list of payloads in order, stopping at the first refusal;
 *  - writing the accepted payloads one by one under fresh ids.
 */
module Crud {
  import opened Options
  import opened JsonValues
  import opened Fields
  import opened Schemas
  import opened DocStore
  import opened EateryStore

  /** The outcome of checking one payload. */
  datatype Verdict =
    | Accepted(value: Record)    // the validated payload
    | Refused(message: string)   // a 400: a schema violation or a missing referenced item
    | Broken(error: StoreError)  // a store request failed

  /** A reference to another table that must exist, and the message when it does not. */
  datatype Reference = Reference(table: Table, member: string, missing: string)

  const MISSING_OPEN_HOUSE := "Specified open house does not exist"
  const MISSING_AREA := "Specified area does not exist"
  const MISSING_BUILDING := "Specified building does not exist"

  /** The references a payload must satisfy, in the order they are looked up. */
  function References(e: Entity): seq<Reference> {
    match e
    case Event => [Reference(OpenHouses, "openHouse", MISSING_OPEN_HOUSE),
                   Reference(Areas, "area", MISSING_AREA),
                   Reference(Buildings, "building", MISSING_BUILDING)]
    case Eatery => [Reference(Buildings, "building", MISSING_BUILDING)]
    case _ => []
  }

  /** The table an entity's records are stored in. */
  function Home(e: Entity): (t: Table)
    ensures t != EventAttendees && t != OpenHouseAttendees
  {
    match e
    case Event => Events
    case Eatery => Eateries
    case Building => Buildings
    case Area => Areas
    case OpenHouse => OpenHouses
    case Department => Departments
  }

  /** The text of a member the schema has already checked to be a string. */
  function TextOf(value: Record, member: string): string {
    if member in value && value[member].JStr? then value[member].s else ""
  }

  /** The first reference that does not resolve, looking them up in order. */
  function FirstMissing(refs: seq<Reference>, value: Record, db: Db, fault: Option<StoreError>): Verdict
    requires Complete(db)
    decreases |refs|
  {
    if refs == [] then Accepted(value)
    else if fault.Some? then Broken(fault.value)
    else if TextOf(value, refs[0].member) !in db[refs[0].table] then Refused(refs[0].missing)
    else FirstMissing(refs[1..], value, db, fault)
  }

  /** The keyed reads that lookup makes: up to and including the first that fails or misses. */
  function LookupCalls(refs: seq<Reference>, value: Record, db: Db, fault: Option<StoreError>): seq<Call>
    requires Complete(db)
    decreases |refs|
  {
    if refs == [] then []
    else
      [GetItem(refs[0].table, TextOf(value, refs[0].member))] +
      (if fault.Some? || TextOf(value, refs[0].member) !in db[refs[0].table] then []
       else LookupCalls(refs[1..], value, db, fault))
  }

  /** The verdict on one payload: its schema's details joined by "; ", else the first missing reference. */
  function CheckOf(e: Entity, j: Json, db: Db, fault: Option<StoreError>): Verdict
    requires Complete(db)
  {
    match ValidateEntity(e, j)
    case Failure(details) => Refused(Join(details, "; "))
    case Success(value) => FirstMissing(References(e), value, db, fault)
  }

  /** Looking references up never alters the value: an acceptance carries the value it was given. */
  lemma {:induction false} FirstMissingKeeps(refs: seq<Reference>, value: Record, db: Db, fault: Option<StoreError>)
    requires Complete(db)
    ensures FirstMissing(refs, value, db, fault).Accepted? ==> FirstMissing(refs, value, db, fault).value == value
    decreases |refs|
  {
    if refs != [] {
      FirstMissingKeeps(refs[1..], value, db, fault);
    }
  }

  /** Looking references up breaks only on a store that is down, and then with its error. */
  lemma {:induction false} BrokenOnlyWhenDown(refs: seq<Reference>, value: Record, db: Db, fault: Option<StoreError>)
    requires Complete(db)
    ensures FirstMissing(refs, value, db, fault).Broken? ==> fault.Some? && FirstMissing(refs, value, db, fault).error == fault.value
    decreases |refs|
  {
    if refs != [] && fault.None? {
      BrokenOnlyWhenDown(refs[1..], value, db, fault);
    }
  }

  /** A payload is accepted only when its schema accepts it, and then with the validated value. */
  lemma CheckAccepted(e: Entity, j: Json, db: Db, fault: Option<StoreError>)
    requires Complete(db) && CheckOf(e, j, db, fault).Accepted?
    ensures ValidateEntity(e, j).Success? && CheckOf(e, j, db, fault).value == ValidateEntity(e, j).value
  {
    if ValidateEntity(e, j).Success? {
      FirstMissingKeeps(References(e), ValidateEntity(e, j).value, db, fault);
    }
  }

  /** The store requests checking one payload makes: none when the schema refuses it. */
  function CheckCalls(e: Entity, j: Json, db: Db, fault: Option<StoreError>): seq<Call>
    requires Complete(db)
  {
    match ValidateEntity(e, j)
    case Failure(_) => []
    case Success(value) => LookupCalls(References(e), value, db, fault)
  }

  /**
   * The event check in the handlers' own terms: a schema violation first,
   * then the open house, the area and the building, each looked up only
   * when the one before it exists, and the first missing one named.
   */
  lemma EventLookupOrder(j: Json, db: Db)
    requires Complete(db) && ValidateEntity(Event, j).Success?
    ensures var v := ValidateEntity(Event, j).value;
      var oh, area, building := TextOf(v, "openHouse"), TextOf(v, "area"), TextOf(v, "building");
      && (oh !in db[OpenHouses] ==>
            CheckOf(Event, j, db, None) == Refused(MISSING_OPEN_HOUSE)
            && CheckCalls(Event, j, db, None) == [GetItem(OpenHouses, oh)])
      && (oh in db[OpenHouses] && area !in db[Areas] ==>
            CheckOf(Event, j, db, None) == Refused(MISSING_AREA)
            && CheckCalls(Event, j, db, None) == [GetItem(OpenHouses, oh), GetItem(Areas, area)])
      && (oh in db[OpenHouses] && area in db[Areas] && building !in db[Buildings] ==>
            CheckOf(Event, j, db, None) == Refused(MISSING_BUILDING))
      && (CheckOf(Event, j, db, None).Accepted? <==> oh in db[OpenHouses] && area in db[Areas] && building in db[Buildings])
      && (oh in db[OpenHouses] && area in db[Areas] ==>
            CheckCalls(Event, j, db, None) == [GetItem(OpenHouses, oh), GetItem(Areas, area), GetItem(Buildings, building)])
  {
    var v := ValidateEntity(Event, j).value;
    var refs := References(Event);
    assert refs[1..][1..] == [refs[2]];
    assert refs[1..][1..][1..] == [];
  }

  /** The outcome of screening a list of payloads. */
  datatype Screening =
    | Passed(values: seq<Record>)                // every payload accepted, with its validated value
    | StoppedAt(index: nat, verdict: Verdict)    // the first payload not accepted, and why

  /** The verdict on each payload, taken on its own. */
  function Checks(e: Entity, items: seq<Json>, db: Db, fault: Option<StoreError>): (vs: seq<Verdict>)
    requires Complete(db)
    ensures |vs| == |items|
  {
    seq(|items|, k requires 0 <= k < |items| => CheckOf(e, items[k], db, fault))
  }

  /** The store requests checking each payload on its own would make. */
  function CheckCallsEach(e: Entity, items: seq<Json>, db: Db, fault: Option<StoreError>): (cs: seq<seq<Call>>)
    requires Complete(db)
    ensures |cs| == |items|
  {
    seq(|items|, k requires 0 <= k < |items| => CheckCalls(e, items[k], db, fault))
  }

  /** Screening verdicts in order, stopping at the first one that is not an acceptance. */
  function Screen(vs: seq<Verdict>): Screening
    decreases |vs|
  {
    if vs == [] then Passed([])
    else
      match Screen(vs[..|vs| - 1])
      case StoppedAt(i, v) => StoppedAt(i, v)
      case Passed(values) =>
        match vs[|vs| - 1]
        case Accepted(value) => Passed(values + [value])
        case verdict => StoppedAt(|vs| - 1, verdict)
  }

  /** The requests screening makes: each payload's own requests, up to the payload it stops at. */
  function ScreenCalls(vs: seq<Verdict>, cs: seq<seq<Call>>): seq<Call>
    requires |cs| == |vs|
    decreases |vs|
  {
    if vs == [] then []
    else if Screen(vs[..|vs| - 1]).StoppedAt? then ScreenCalls(vs[..|vs| - 1], cs[..|vs| - 1])
    else ScreenCalls(vs[..|vs| - 1], cs[..|vs| - 1]) + cs[|vs| - 1]
  }

  /**
   * Screening accepts the list exactly when every verdict is an acceptance,
   * and then yields the accepted values in order; otherwise it stops at the
   * first verdict that is not an acceptance, and reports that verdict.
   */
  lemma {:induction false} ScreenSpec(vs: seq<Verdict>)
    ensures Screen(vs).Passed? <==> forall k :: 0 <= k < |vs| ==> vs[k].Accepted?
    ensures Screen(vs).Passed? ==>
      |Screen(vs).values| == |vs| && forall k :: 0 <= k < |vs| ==> vs[k] == Accepted(Screen(vs).values[k])
    ensures Screen(vs).StoppedAt? ==>
      var i := Screen(vs).index;
      && i < |vs| && Screen(vs).verdict == vs[i] && !vs[i].Accepted?
      && forall k :: 0 <= k < i ==> vs[k].Accepted?
    decreases |vs|
  {
    if vs != [] {
      var init := vs[..|vs| - 1];
      ScreenSpec(init);
      assert forall k :: 0 <= k < |init| ==> init[k] == vs[k];
    }
  }

  /** Screening stops at `i` exactly when verdict `i` is the first that is not an acceptance. */
  lemma ScreenStopsAtFirst(vs: seq<Verdict>, i: nat)
    ensures (Screen(vs).StoppedAt? && Screen(vs).index == i) <==>
      (i < |vs| && !vs[i].Accepted? && forall k :: 0 <= k < i ==> vs[k].Accepted?)
  {
    ScreenSpec(vs);
  }

  /** Screening one verdict more that is an acceptance appends its value. */
  lemma ScreenAccept(vs: seq<Verdict>, cs: seq<seq<Call>>, i: nat)
    requires |cs| == |vs| && i < |vs| && Screen(vs[..i]).Passed? && vs[i].Accepted?
    ensures Screen(vs[..i + 1]) == Passed(Screen(vs[..i]).values + [vs[i].value])
    ensures ScreenCalls(vs[..i + 1], cs[..i + 1]) == ScreenCalls(vs[..i], cs[..i]) + cs[i]
  {
    assert vs[..i + 1][..i] == vs[..i];
    assert cs[..i + 1][..i] == cs[..i];
  }

  /** Screening one verdict more that is not an acceptance stops at it, after its own requests. */
  lemma ScreenRefuse(vs: seq<Verdict>, cs: seq<seq<Call>>, i: nat)
    requires |cs| == |vs| && i < |vs| && Screen(vs[..i]).Passed? && !vs[i].Accepted?
    ensures Screen(vs[..i + 1]) == StoppedAt(i, vs[i])
    ensures ScreenCalls(vs[..i + 1], cs[..i + 1]) == ScreenCalls(vs[..i], cs[..i]) + cs[i]
  {
    assert vs[..i + 1][..i] == vs[..i];
    assert cs[..i + 1][..i] == cs[..i];
  }

  /** Once screening a prefix has stopped, screening the whole list stops there too, with no further requests. */
  lemma {:induction false} ScreenStopSticks(vs: seq<Verdict>, cs: seq<seq<Call>>, n: nat)
    requires |cs| == |vs| && n <= |vs| && Screen(vs[..n]).StoppedAt?
    ensures Screen(vs) == Screen(vs[..n])
    ensures ScreenCalls(vs, cs) == ScreenCalls(vs[..n], cs[..n])
    decreases |vs| - n
  {
    if n < |vs| {
      var m := |vs| - 1;
      assert vs[..m][..n] == vs[..n];
      assert cs[..m][..n] == cs[..n];
      ScreenStopSticks(vs[..m], cs[..m], n);
    } else {
      assert vs[..n] == vs;
      assert cs[..n] == cs;
    }
  }

  /** Screening only ever reads: every request it makes is a keyed read. */
  lemma {:induction false} ScreenOnlyReads(e: Entity, items: seq<Json>, db: Db, fault: Option<StoreError>)
    requires Complete(db)
    ensures forall c :: c in ScreenCalls(Checks(e, items, db, fault), CheckCallsEach(e, items, db, fault)) ==> c.GetItem?
  {
    var vs, cs := Checks(e, items, db, fault), CheckCallsEach(e, items, db, fault);
    forall k | 0 <= k < |items|
      ensures forall c: Call :: c in cs[k] ==> c.GetItem?
    {
      var j := items[k];
      if ValidateEntity(e, j).Success? {
        LookupsOnlyRead(References(e), ValidateEntity(e, j).value, db, fault);
      }
    }
    CallsDrawnFrom(vs, cs);
  }

  /** Every request screening makes is one of some payload's own requests. */
  lemma {:induction false} CallsDrawnFrom(vs: seq<Verdict>, cs: seq<seq<Call>>)
    requires |cs| == |vs|
    ensures forall c: Call :: c in ScreenCalls(vs, cs) ==> exists k :: 0 <= k < |cs| && c in cs[k]
    decreases |vs|
  {
    if vs != [] {
      var m := |vs| - 1;
      CallsDrawnFrom(vs[..m], cs[..m]);
      assert forall k :: 0 <= k < m ==> cs[..m][k] == cs[k];
    }
  }

  lemma {:induction false} LookupsOnlyRead(refs: seq<Reference>, value: Record, db: Db, fault: Option<StoreError>)
    requires Complete(db)
    ensures forall c :: c in LookupCalls(refs, value, db, fault) ==> c.GetItem?
    decreases |refs|
  {
    if refs != [] {
      LookupsOnlyRead(refs[1..], value, db, fault);
    }
  }

  /**
   * `verifyUUIDs`: looks up the event's open house, area and building in
   * that order and names the first one missing; a failed read ends it.
   */
  method VerifyUuids(store: Store, value: Record) returns (v: Verdict)
    requires store.Valid()
    modifies store`calls
    ensures v == FirstMissing(References(Event), value, store.tables, store.fault)
    ensures store.calls == old(store.calls) + LookupCalls(References(Event), value, store.tables, store.fault)
  {
    EventLookups(value, store.tables, store.fault);
    var openHouse := store.Get(OpenHouses, TextOf(value, "openHouse"));
    if openHouse.Failure? {
      return Broken(openHouse.error);
    }
    if openHouse.value.None? {
      return Refused(MISSING_OPEN_HOUSE);
    }
    // The first read succeeded, so the store is up and the next reads succeed too.
    var area := store.Get(Areas, TextOf(value, "area"));
    if area.Failure? {
      assert false;
    }
    if area.value.None? {
      return Refused(MISSING_AREA);
    }
    var building := store.Get(Buildings, TextOf(value, "building"));
    if building.Failure? {
      assert false;
    }
    if building.value.None? {
      return Refused(MISSING_BUILDING);
    }
    return Accepted(value);
  }

  /** The event's three lookups spelled out: open house, area, building, each only when the one before it was found. */
  lemma EventLookups(value: Record, db: Db, fault: Option<StoreError>)
    requires Complete(db)
    ensures var oh, area, building := TextOf(value, "openHouse"), TextOf(value, "area"), TextOf(value, "building");
      && FirstMissing(References(Event), value, db, fault) ==
         (if fault.Some? then Broken(fault.value)
          else if oh !in db[OpenHouses] then Refused(MISSING_OPEN_HOUSE)
          else if area !in db[Areas] then Refused(MISSING_AREA)
          else if building !in db[Buildings] then Refused(MISSING_BUILDING)
          else Accepted(value))
      && LookupCalls(References(Event), value, db, fault) ==
         [GetItem(OpenHouses, oh)] +
         (if fault.Some? || oh !in db[OpenHouses] then []
          else [GetItem(Areas, area)] + (if area !in db[Areas] then [] else [GetItem(Buildings, building)]))
  {
    var refs := References(Event);
    LookupUnfold(refs, value, db, fault);
    LookupUnfold(refs[1..], value, db, fault);
    LookupUnfold(refs[2..], value, db, fault);
    assert refs[1..][1..] == refs[2..] && refs[2..][1..] == [];
  }

  /** One lookup: a failed read, a miss, or on to the next reference. */
  lemma LookupUnfold(refs: seq<Reference>, value: Record, db: Db, fault: Option<StoreError>)
    requires Complete(db) && refs != []
    ensures FirstMissing(refs, value, db, fault) ==
      if fault.Some? then Broken(fault.value)
      else if TextOf(value, refs[0].member) !in db[refs[0].table] then Refused(refs[0].missing)
      else FirstMissing(refs[1..], value, db, fault)
    ensures LookupCalls(refs, value, db, fault) ==
      [GetItem(refs[0].table, TextOf(value, refs[0].member))] +
      (if fault.Some? || TextOf(value, refs[0].member) !in db[refs[0].table] then []
       else LookupCalls(refs[1..], value, db, fault))
  {
  }

  /** Checks one payload: validates it, then resolves its references. */
  method CheckItem(store: Store, e: Entity, j: Json) returns (v: Verdict)
    requires store.Valid()
    modifies store`calls
    ensures v == CheckOf(e, j, store.tables, store.fault)
    ensures store.calls == old(store.calls) + CheckCalls(e, j, store.tables, store.fault)
  {
    match ValidateEntity(e, j)
    case Failure(details) =>
      return Refused(Join(details, "; "));
    case Success(value) =>
      if e == Event {
        v := VerifyUuids(store, value);
      } else if e == Eatery {
        assert References(Eatery)[1..] == [];
        var found := BuildingExists(store, TextOf(value, "building"));
        if found.Failure? {
          return Broken(found.error);
        }
        v := if found.value then Accepted(value) else Refused(MISSING_BUILDING);
      } else {
        v := Accepted(value);
      }
  }

  /** The validation loop of every create: payloads in order, stopping at the first one not accepted. */
  method ValidateAll(store: Store, e: Entity, items: seq<Json>) returns (s: Screening)
    requires store.Valid()
    modifies store`calls
    ensures s == Screen(Checks(e, items, store.tables, store.fault))
    ensures store.calls == old(store.calls) +
      ScreenCalls(Checks(e, items, store.tables, store.fault), CheckCallsEach(e, items, store.tables, store.fault))
  {
    ghost var vs, cs := Checks(e, items, store.tables, store.fault), CheckCallsEach(e, items, store.tables, store.fault);
    ghost var db, calls0 := store.tables, store.calls;
    var values: seq<Record> := [];
    var i := 0;
    while i < |items|
      invariant 0 <= i <= |items| && store.tables == db && store.Valid()
      invariant Screen(vs[..i]) == Passed(values)
      invariant store.calls == calls0 + ScreenCalls(vs[..i], cs[..i])
    {
      ghost var before := store.calls;
      var v := CheckItem(store, e, items[i]);
      assert v == vs[i];
      assert store.calls == before + cs[i];
      LogAppend(calls0, ScreenCalls(vs[..i], cs[..i]), cs[i]);
      if !v.Accepted? {
        ScreenRefuse(vs, cs, i);
        ScreenStopSticks(vs, cs, i + 1);
        assert vs == Checks(e, items, store.tables, store.fault);
        assert cs == CheckCallsEach(e, items, store.tables, store.fault);
        return StoppedAt(i, v);
      }
      ScreenAccept(vs, cs, i);
      values := values + [v.value];
      i := i + 1;
    }
    assert vs[..i] == vs && cs[..i] == cs;
    assert vs == Checks(e, items, store.tables, store.fault);
    assert cs == CheckCallsEach(e, items, store.tables, store.fault);
    return Passed(values);
  }
}
