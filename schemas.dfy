/**
 * The entity schemas, written as data: each is the ordered list of members a
 * handler's `Joi.object({...})` declares. `Validate` reports the first
 * violation in declaration order, as Joi does with its default early abort,
 * and accepts exactly the objects `Conforms` describes.
 */
module Schemas {
  import opened Options
  import opened JsonValues
  import opened Fields

  /** What a schema demands of one member's value. */
  datatype Rule =
    | Text             // Joi.string(): a non-empty string
    | Guid             // Joi.string().uuid()
    | TimeOfDay        // Joi.string().pattern(HH:mm)
    | HexColor         // Joi.string().regex(Hex Color Code)
    | PositiveInteger  // Joi.number().integer().positive()
    | Flag             // Joi.boolean(), which also takes "true" and "false" as text
    | Position         // Joi.object({ lat: (-90, 90), lng: (-180, 180) })

  datatype Key = Key(name: string, rule: Rule, required: bool)

  type Schema = seq<Key>

  /** The entities whose payloads are validated. */
  datatype Entity = Event | Eatery | Building | Area | OpenHouse | Department

  /** `eventSchema`. */
  const EventSchema: Schema := [
    Key("name", Text, true), Key("description", Text, false),
    Key("area", Guid, true), Key("building", Guid, true), Key("room", Text, true),
    Key("openHouse", Guid, true), Key("startTime", TimeOfDay, true), Key("endTime", TimeOfDay, true)]

  /** `eaterySchema`. */
  const EaterySchema: Schema := [
    Key("name", Text, true), Key("openTime", TimeOfDay, true),
    Key("closeTime", TimeOfDay, true), Key("building", Guid, true)]

  /** `buildingSchema`. */
  const BuildingSchema: Schema := [Key("name", Text, true), Key("position", Position, true)]

  /** `areaSchema` and `departmentSchema`, which are the same. */
  const ColorSchema: Schema := [Key("name", Text, true), Key("color", HexColor, true)]

  /** `openHouseSchema`. */
  const OpenHouseSchema: Schema := [
    Key("name", Text, true), Key("date", PositiveInteger, true),
    Key("info", Text, true), Key("visible", Flag, true)]

  function SchemaOf(e: Entity): Schema {
    match e
    case Event => EventSchema
    case Eatery => EaterySchema
    case Building => BuildingSchema
    case Area => ColorSchema
    case Department => ColorSchema
    case OpenHouse => OpenHouseSchema
  }

  /** The noun used in the " for <noun> with index i" suffix of a batch create. */
  function Noun(e: Entity): string {
    match e
    case Event => "event"
    case Eatery => "eatery"
    case Building => "building"
    case Area => "area"
    case Department => "department"
    case OpenHouse => "open house"
  }

  function Quote(path: string): string { "\"" + path + "\"" }

  predicate InOpenRange(v: Json, lo: real, hi: real) {
    v.JNum? && lo < v.n < hi
  }

  /** Whether `v` meets `rule`: the declarative reading of the rule. */
  predicate Satisfies(rule: Rule, v: Json) {
    match rule
    case Text => v.JStr? && v.s != ""
    case Guid => v.JStr? && IsGuid(v.s)
    case TimeOfDay => v.JStr? && IsTimeOfDay(v.s)
    case HexColor => v.JStr? && IsHexColor(v.s)
    case PositiveInteger => v.JNum? && IsPositiveInteger(v.n)
    case Flag => v.JBool? || (v.JStr? && IsBooleanText(v.s))
    case Position =>
      && v.JObj? && v.fields.Keys == {"lat", "lng"}
      && InOpenRange(v.fields["lat"], -90.0, 90.0)
      && InOpenRange(v.fields["lng"], -180.0, 180.0)
  }

  /**
   * The texts `Joi.boolean()` converts under Joi's default conversion:
   * "true" and "false" in any letter case. Only ASCII letters lower-case
   * into these letters, so ASCII lower-casing decides it.
   */
  predicate IsBooleanText(s: string) {
    Lower(s) == "true" || Lower(s) == "false"
  }

  /** What Joi's conversion makes of a value that meets `rule`: a boolean text becomes its boolean; any other value is kept. */
  function Convert(rule: Rule, v: Json): Json {
    if rule == Flag && v.JStr? then JBool(Lower(v.s) == "true") else v
  }

  /** The validated value: each declared member converted by its rule, in declaration order. */
  function Normalize(schema: Schema, fields: Record): (r: Record)
    ensures r.Keys == fields.Keys
  {
    if schema == [] then fields
    else
      var k := schema[0];
      Normalize(schema[1..], if k.name in fields then fields[k.name := Convert(k.rule, fields[k.name])] else fields)
  }

  /** The first complaint about a string member: not a string, then empty, then the pattern. */
  function StringError(path: string, v: Json, pattern: string -> bool, patternName: string): Option<string> {
    if !v.JStr? then Some(Quote(path) + " must be a string")
    else if v.s == "" then Some(Quote(path) + " is not allowed to be empty")
    else if !pattern(v.s) then Some(Quote(path) + " with value " + Quote(v.s) + " fails to match the " + patternName + " pattern")
    else None
  }

  /**
   * The first complaint about a number member bounded strictly by `lo` and
   * `hi`: the safe-number check of the base type comes before the bounds.
   */
  function RangeError(path: string, v: Json, lo: real, hi: real, loText: string, hiText: string): Option<string> {
    if !v.JNum? then Some(Quote(path) + " must be a number")
    else if !IsSafeNumber(v.n) then Some(Quote(path) + " must be a safe number")
    else if v.n <= lo then Some(Quote(path) + " must be greater than " + loText)
    else if v.n >= hi then Some(Quote(path) + " must be less than " + hiText)
    else None
  }

  function PositionError(path: string, v: Json): Option<string> {
    if !v.JObj? then Some(Quote(path) + " must be of type object")
    else if "lat" !in v.fields then Some(Quote(path + ".lat") + " is required")
    else if RangeError(path + ".lat", v.fields["lat"], -90.0, 90.0, "-90", "90").Some? then
      RangeError(path + ".lat", v.fields["lat"], -90.0, 90.0, "-90", "90")
    else if "lng" !in v.fields then Some(Quote(path + ".lng") + " is required")
    else if RangeError(path + ".lng", v.fields["lng"], -180.0, 180.0, "-180", "180").Some? then
      RangeError(path + ".lng", v.fields["lng"], -180.0, 180.0, "-180", "180")
    else if !(v.fields.Keys <= {"lat", "lng"}) then Some(Quote(path) + " has a member that is not allowed")
    else None
  }

  /** The first complaint Joi makes about a present member, or None when it is acceptable. */
  function RuleError(path: string, rule: Rule, v: Json): (r: Option<string>)
    ensures r.None? <==> Satisfies(rule, v)
  {
    match rule
    case Text => if !v.JStr? then Some(Quote(path) + " must be a string")
      else if v.s == "" then Some(Quote(path) + " is not allowed to be empty") else None
    case Guid => if !v.JStr? then Some(Quote(path) + " must be a string")
      else if v.s == "" then Some(Quote(path) + " is not allowed to be empty")
      else if !IsGuid(v.s) then Some(Quote(path) + " must be a valid GUID") else None
    case TimeOfDay => StringError(path, v, IsTimeOfDay, "HH:mm")
    case HexColor => StringError(path, v, IsHexColor, "Hex Color Code")
    case PositiveInteger =>
      if !v.JNum? then Some(Quote(path) + " must be a number")
      else if !IsSafeNumber(v.n) then Some(Quote(path) + " must be a safe number")
      else if v.n.Floor as real != v.n then Some(Quote(path) + " must be an integer")
      else if v.n <= 0.0 then Some(Quote(path) + " must be a positive number") else None
    case Flag => if !v.JBool? && !(v.JStr? && IsBooleanText(v.s)) then Some(Quote(path) + " must be a boolean") else None
    case Position => PositionError(path, v)
  }

  /** Whether a member is acceptable: present and meeting its rule, or absent and optional. */
  predicate MemberHolds(k: Key, fields: Record) {
    if k.name in fields then Satisfies(k.rule, fields[k.name]) else !k.required
  }

  function Names(schema: Schema): set<string> {
    set i | 0 <= i < |schema| :: schema[i].name
  }

  /** The object's members meet the schema, and it has no member the schema does not declare. */
  predicate Conforms(schema: Schema, fields: Record) {
    && (forall i :: 0 <= i < |schema| ==> MemberHolds(schema[i], fields))
    && fields.Keys <= Names(schema)
  }

  /** The first complaint about the declared members, in declaration order. */
  function MembersError(schema: Schema, fields: Record): Option<string> {
    if schema == [] then None
    else
      var k := schema[0];
      if k.name !in fields then
        if k.required then Some(Quote(k.name) + " is required") else MembersError(schema[1..], fields)
      else if RuleError(k.name, k.rule, fields[k.name]).Some? then RuleError(k.name, k.rule, fields[k.name])
      else MembersError(schema[1..], fields)
  }

  /** `schema.validate(value)`: the validated (converted) value, or the list of error details. */
  function Validate(schema: Schema, j: Json): Result<Record, seq<string>> {
    if !j.JObj? then Failure([Quote("value") + " must be of type object"])
    else match MembersError(schema, j.fields)
      case Some(message) => Failure([message])
      case None =>
        if j.fields.Keys <= Names(schema) then Success(Normalize(schema, j.fields))
        else Failure([Quote("value") + " has a member that is not allowed"])
  }

  /** The entity's schema applied to a payload. */
  function ValidateEntity(e: Entity, j: Json): Result<Record, seq<string>> {
    Validate(SchemaOf(e), j)
  }

  lemma {:induction false} MembersErrorNoneIff(schema: Schema, fields: Record)
    ensures MembersError(schema, fields).None? <==> forall i :: 0 <= i < |schema| ==> MemberHolds(schema[i], fields)
  {
    if schema != [] {
      MembersErrorNoneIff(schema[1..], fields);
    assert forall i :: 1 <= i < |schema| ==> schema[1..][i - 1] == schema[i];
    }
  }

  /**
   * The sequential checker and the declarative reading agree: a payload is
   * accepted exactly when it is an object that conforms, and the validated
   * value then has the payload's members, converted by their rules.
   */
  lemma ValidateAcceptsConforming(schema: Schema, j: Json)
    ensures Validate(schema, j).Success? <==> j.JObj? && Conforms(schema, j.fields)
    ensures Validate(schema, j).Success? ==> Validate(schema, j).value == Normalize(schema, j.fields)
    ensures Validate(schema, j).Failure? ==> |Validate(schema, j).error| == 1
  {
    if j.JObj? {
      MembersErrorNoneIff(schema, j.fields);
    }
  }

  /** A member whose rule converts nothing is passed over unchanged. */
  lemma NormalizeSkips(schema: Schema, fields: Record)
    requires schema != [] && schema[0].rule != Flag
    ensures Normalize(schema, fields) == Normalize(schema[1..], fields)
  {
    var k := schema[0];
    if k.name in fields {
      assert fields[k.name := Convert(k.rule, fields[k.name])] == fields;
    }
  }

  /** A schema without a `Joi.boolean()` member converts nothing: its validated value is the payload. */
  lemma {:induction false} NormalizeKeeps(schema: Schema, fields: Record)
    requires forall i :: 0 <= i < |schema| ==> schema[i].rule != Flag
    ensures Normalize(schema, fields) == fields
  {
    if schema != [] {
      NormalizeSkips(schema, fields);
      NormalizeKeeps(schema[1..], fields);
    }
  }

  /** Only the open-house schema has a `Joi.boolean()` member, so every other entity's validated value is its payload. */
  lemma ValueIsPayload(e: Entity, j: Json)
    requires e != OpenHouse && ValidateEntity(e, j).Success?
    ensures ValidateEntity(e, j).value == j.fields
  {
    var schema := SchemaOf(e);
    ValidateAcceptsConforming(schema, j);
    forall i | 0 <= i < |schema|
      ensures schema[i].rule != Flag
    {
      match e
      case Event => assert schema[i] in EventSchema;
      case Eatery => assert schema[i] in EaterySchema;
      case Building => assert schema[i] in BuildingSchema;
      case Area => assert schema[i] in ColorSchema;
      case Department => assert schema[i] in ColorSchema;
    }
    NormalizeKeeps(schema, j.fields);
  }

  /** The open-house schema converts only `visible`. */
  lemma OpenHouseNormalized(fields: Record)
    requires "visible" in fields
    ensures Normalize(OpenHouseSchema, fields) == fields["visible" := Convert(Flag, fields["visible"])]
  {
    var s := OpenHouseSchema;
    NormalizeSkips(s, fields);
    NormalizeSkips(s[1..], fields);
    NormalizeSkips(s[2..], fields);
    assert s[1..][1..] == s[2..] && s[2..][1..] == s[3..] && s[3..] == [Key("visible", Flag, true)];
    assert Normalize(s[3..], fields) == Normalize([], fields["visible" := Convert(Flag, fields["visible"])]);
  }

  function Member(r: Record, name: string): Json {
    if name in r then r[name] else JNull
  }

  /** The boolean a `visible` member stands for: itself, or the boolean its text names. */
  function FlagValue(v: Json): bool
    requires v.JBool? || v.JStr?
  {
    if v.JBool? then v.b else Lower(v.s) == "true"
  }

  /**
   * An open house is accepted exactly when it has a non-empty `name` and
   * `info`, a positive integer `date`, a `visible` that is a boolean or the
   * text "true" or "false" in any case, and nothing else. The stored value
   * is the payload with `visible` turned into the boolean it stands for.
   */
  lemma OpenHouseAcceptance(j: Json)
    ensures ValidateEntity(OpenHouse, j).Success? <==>
      && j.JObj? && j.fields.Keys == {"name", "date", "info", "visible"}
      && Member(j.fields, "name").JStr? && Member(j.fields, "name").s != ""
      && Member(j.fields, "info").JStr? && Member(j.fields, "info").s != ""
      && Member(j.fields, "date").JNum? && IsPositiveInteger(Member(j.fields, "date").n)
      && (Member(j.fields, "visible").JBool? || (Member(j.fields, "visible").JStr? && IsBooleanText(Member(j.fields, "visible").s)))
    ensures ValidateEntity(OpenHouse, j).Success? ==>
      ValidateEntity(OpenHouse, j).value == j.fields["visible" := JBool(FlagValue(j.fields["visible"]))]
  {
    ValidateAcceptsConforming(OpenHouseSchema, j);
    if j.JObj? {
      OpenHouseConforms(j.fields);
      if "visible" in j.fields {
        OpenHouseNormalized(j.fields);
      }
    }
  }

  lemma OpenHouseConforms(f: Record)
    ensures Conforms(OpenHouseSchema, f) <==>
      && f.Keys == {"name", "date", "info", "visible"}
      && Member(f, "name").JStr? && Member(f, "name").s != ""
      && Member(f, "info").JStr? && Member(f, "info").s != ""
      && Member(f, "date").JNum? && IsPositiveInteger(Member(f, "date").n)
      && (Member(f, "visible").JBool? || (Member(f, "visible").JStr? && IsBooleanText(Member(f, "visible").s)))
  {
    OpenHouseNames();
    if Conforms(OpenHouseSchema, f) {
      assert MemberHolds(OpenHouseSchema[0], f) && MemberHolds(OpenHouseSchema[1], f);
    assert MemberHolds(OpenHouseSchema[2], f) && MemberHolds(OpenHouseSchema[3], f);
    }
  }

  /** An area or department is accepted exactly when it has a non-empty `name`, a hex `color`, and nothing else. */
  lemma ColorAcceptance(j: Json)
    ensures Validate(ColorSchema, j).Success? <==>
      && j.JObj? && j.fields.Keys == {"name", "color"}
      && Member(j.fields, "name").JStr? && Member(j.fields, "name").s != ""
      && Member(j.fields, "color").JStr? && IsHexColor(Member(j.fields, "color").s)
  {
    ValidateAcceptsConforming(ColorSchema, j);
    ColorNames();
    if j.JObj? && Conforms(ColorSchema, j.fields) {
      assert MemberHolds(ColorSchema[0], j.fields) && MemberHolds(ColorSchema[1], j.fields);
    }
  }

  predicate GuidMember(r: Record, name: string) {
    name in r && r[name].JStr? && IsGuid(r[name].s)
  }

  predicate TimeMember(r: Record, name: string) {
    name in r && r[name].JStr? && IsTimeOfDay(r[name].s)
  }

  /**
   * An accepted event carries GUID references to its open house, area and
   * building, start and end times that match `HH:mm`, a name and a room, and
   * no member outside the schema.
   */
  lemma EventAcceptance(j: Json)
    requires ValidateEntity(Event, j).Success?
    ensures var r := ValidateEntity(Event, j).value;
      && r == j.fields
      && GuidMember(r, "openHouse") && GuidMember(r, "area") && GuidMember(r, "building")
      && TimeMember(r, "startTime") && TimeMember(r, "endTime")
      && "name" in r && "room" in r
      && r.Keys <= {"name", "description", "area", "building", "room", "openHouse", "startTime", "endTime"}
  {
    ValidateAcceptsConforming(EventSchema, j);
    ValueIsPayload(Event, j);
    var r := j.fields;
    assert MemberHolds(EventSchema[0], r) && MemberHolds(EventSchema[2], r);
    assert MemberHolds(EventSchema[3], r) && MemberHolds(EventSchema[4], r);
    assert MemberHolds(EventSchema[5], r) && MemberHolds(EventSchema[6], r);
    assert MemberHolds(EventSchema[7], r);
    EventNames();
  }

  lemma OpenHouseNames()
    ensures Names(OpenHouseSchema) == {"name", "date", "info", "visible"}
  {
    assert OpenHouseSchema[0].name == "name" && OpenHouseSchema[1].name == "date";
    assert OpenHouseSchema[2].name == "info" && OpenHouseSchema[3].name == "visible";
  }

  lemma ColorNames()
    ensures Names(ColorSchema) == {"name", "color"}
  {
    assert ColorSchema[0].name == "name" && ColorSchema[1].name == "color";
  }

  lemma EateryNames()
    ensures Names(EaterySchema) == {"name", "openTime", "closeTime", "building"}
  {
    assert EaterySchema[0].name == "name" && EaterySchema[1].name == "openTime";
    assert EaterySchema[2].name == "closeTime" && EaterySchema[3].name == "building";
  }

  lemma BuildingNames()
    ensures Names(BuildingSchema) == {"name", "position"}
  {
    assert BuildingSchema[0].name == "name" && BuildingSchema[1].name == "position";
  }

  lemma EventNames()
    ensures Names(EventSchema) <= {"name", "description", "area", "building", "room", "openHouse", "startTime", "endTime"}
  {
    forall i | 0 <= i < |EventSchema|
      ensures EventSchema[i].name in {"name", "description", "area", "building", "room", "openHouse", "startTime", "endTime"}
    {
    }
  }

  /** An accepted eatery carries a GUID building reference and opening and closing times that match `HH:mm`. */
  lemma EateryAcceptance(j: Json)
    requires ValidateEntity(Eatery, j).Success?
    ensures var r := ValidateEntity(Eatery, j).value;
      && r == j.fields && r.Keys == {"name", "openTime", "closeTime", "building"}
      && r["building"].JStr? && IsGuid(r["building"].s)
      && r["openTime"].JStr? && IsTimeOfDay(r["openTime"].s)
      && r["closeTime"].JStr? && IsTimeOfDay(r["closeTime"].s)
  {
    ValidateAcceptsConforming(EaterySchema, j);
    ValueIsPayload(Eatery, j);
    EateryConforms(j.fields);
  }

  lemma EateryConforms(r: Record)
    requires Conforms(EaterySchema, r)
    ensures r.Keys == {"name", "openTime", "closeTime", "building"}
    ensures r["building"].JStr? && IsGuid(r["building"].s)
    ensures r["openTime"].JStr? && IsTimeOfDay(r["openTime"].s)
    ensures r["closeTime"].JStr? && IsTimeOfDay(r["closeTime"].s)
  {
    EateryKeys(r);
    assert MemberHolds(EaterySchema[1], r) && MemberHolds(EaterySchema[2], r);
    assert MemberHolds(EaterySchema[3], r);
  }

  lemma EateryKeys(r: Record)
    requires Conforms(EaterySchema, r)
    ensures r.Keys == {"name", "openTime", "closeTime", "building"}
  {
    AllRequired(EaterySchema, r);
    EateryNames();
  }

  /** An object that conforms to a schema whose every member is required has exactly the declared members. */
  lemma AllRequired(schema: Schema, r: Record)
    requires Conforms(schema, r) && forall i :: 0 <= i < |schema| ==> schema[i].required
    ensures r.Keys == Names(schema)
  {
    forall i | 0 <= i < |schema|
      ensures schema[i].name in r
    {
      assert MemberHolds(schema[i], r);
    }
  }

  /** An accepted building has a name and a position strictly inside the latitude and longitude bounds. */
  lemma BuildingAcceptance(j: Json)
    requires ValidateEntity(Building, j).Success?
    ensures var r := ValidateEntity(Building, j).value;
      && r == j.fields && r.Keys == {"name", "position"}
      && r["position"].JObj? && r["position"].fields.Keys == {"lat", "lng"}
      && InOpenRange(r["position"].fields["lat"], -90.0, 90.0)
      && InOpenRange(r["position"].fields["lng"], -180.0, 180.0)
  {
    ValidateAcceptsConforming(BuildingSchema, j);
    ValueIsPayload(Building, j);
    var r := j.fields;
    assert MemberHolds(BuildingSchema[0], r) && MemberHolds(BuildingSchema[1], r);
    BuildingNames();
  }

  /**
   * No schema declares a key attribute or an attendee count, so a validated
   * payload never carries `uuid`, `UUID` or `attendees`.
   */
  lemma ValidatedHasNoKey(e: Entity, j: Json)
    requires ValidateEntity(e, j).Success?
    ensures "uuid" !in ValidateEntity(e, j).value && "UUID" !in ValidateEntity(e, j).value
    ensures "attendees" !in ValidateEntity(e, j).value
  {
    ValidateAcceptsConforming(SchemaOf(e), j);
    NoKeyDeclared(e);
  }

  /** No schema declares `uuid`, `UUID` or `attendees`. */
  lemma NoKeyDeclared(e: Entity)
    ensures "uuid" !in Names(SchemaOf(e)) && "UUID" !in Names(SchemaOf(e)) && "attendees" !in Names(SchemaOf(e))
  {
    match e
    case Event => EventNames();
    case Eatery => EateryNames();
    case Building => BuildingNames();
    case Area => ColorNames();
    case Department => ColorNames();
    case OpenHouse => OpenHouseNames();
  }
}
