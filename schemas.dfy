/**
 * The request schemas of the meal routes: the body of `POST /meals`, the body
 * of `PUT /meals/:id` and the `:id` path parameter. Each schema either yields
 * the typed value or the list of fields it rejected, in the order the schema
 * declares them; a rejected request never reaches the table.
 */
module MealSchemas {
  import opened Wrappers

  /** A parsed JSON value, as far as the schemas tell values apart. */
  datatype Json = JString(s: string) | JOther   // number, boolean, null, array or object

  /** A request body: a JSON object (a missing key is an absent field) or anything else. */
  datatype Body = JObject(fields: map<string, Json>) | JNonObject

  /** The `in_diet` column: a two-valued enum. */
  datatype InDiet = Diet | NotDiet

  /** The field a schema rejected. */
  datatype Issue =
    | NotAnObject
    | InvalidName
    | InvalidDescription
    | InvalidInDiet
    | InvalidDate
    | InvalidHour
    | InvalidId

  /** The validated body of `POST /meals`. */
  datatype NewMeal = NewMeal(name: string, description: string, inDiet: InDiet, date: string, hour: string)

  /** The validated body of `PUT /meals/:id`: every field may be absent. */
  datatype MealPatch = MealPatch(
    name: Option<string>,
    description: Option<string>,
    inDiet: Option<InDiet>,
    date: Option<string>,
    hour: Option<string>)

  predicate IsDigit(c: char) {
    '0' <= c <= '9'
  }

  predicate AllDigits(s: string) {
    forall i :: 0 <= i < |s| ==> IsDigit(s[i])
  }

  /**
   * The date pattern `^[0-9]{4}[-][0-9]{2}[-][0-9]{2}$`: ten characters, a
   * dash at positions 4 and 7 and a digit everywhere else.
   */
  predicate IsDateShape(s: string)
    ensures IsDateShape(s) <==>
      |s| == 10 && forall i :: 0 <= i < 10 ==> if i == 4 || i == 7 then s[i] == '-' else IsDigit(s[i])
  {
    |s| == 10 && AllDigits(s[..4]) && s[4] == '-' && AllDigits(s[5..7]) && s[7] == '-' && AllDigits(s[8..])
  }

  /**
   * The hour pattern `^[0-9]{2}[:][0-9]{2}$`: five characters, a colon at
   * position 2 and a digit everywhere else.
   */
  predicate IsHourShape(s: string)
    ensures IsHourShape(s) <==>
      |s| == 5 && forall i :: 0 <= i < 5 ==> if i == 2 then s[i] == ':' else IsDigit(s[i])
  {
    |s| == 5 && AllDigits(s[..2]) && s[2] == ':' && AllDigits(s[3..])
  }

  /** The enum's two spellings. */
  function InDietText(d: InDiet): string {
    match d
    case Diet => "diet"
    case NotDiet => "notDiet"
  }

  /** `z.enum(['diet', 'notDiet'])` applied to one value. */
  function InDietOf(j: Json): (r: Option<InDiet>)
    ensures r.Some? <==> j.JString? && (j.s == "diet" || j.s == "notDiet")
    ensures r.Some? ==> j.s == InDietText(r.value)
  {
    if j == JString("diet") then Some(Diet)
    else if j == JString("notDiet") then Some(NotDiet)
    else None
  }

  // Field checks of the create schema: `name` is a required string,
  // `description` an optional string, `inDiet` the enum, `date` and `hour`
  // required strings matching their patterns.

  predicate RequiredString(f: map<string, Json>, key: string) {
    key in f && f[key].JString?
  }

  predicate OptionalString(f: map<string, Json>, key: string) {
    key !in f || f[key].JString?
  }

  predicate RequiredInDiet(f: map<string, Json>) {
    "inDiet" in f && InDietOf(f["inDiet"]).Some?
  }

  predicate OptionalInDiet(f: map<string, Json>) {
    "inDiet" !in f || InDietOf(f["inDiet"]).Some?
  }

  predicate RequiredDate(f: map<string, Json>) {
    RequiredString(f, "date") && IsDateShape(f["date"].s)
  }

  predicate OptionalDate(f: map<string, Json>) {
    "date" !in f || (f["date"].JString? && IsDateShape(f["date"].s))
  }

  predicate RequiredHour(f: map<string, Json>) {
    RequiredString(f, "hour") && IsHourShape(f["hour"].s)
  }

  predicate OptionalHour(f: map<string, Json>) {
    "hour" !in f || (f["hour"].JString? && IsHourShape(f["hour"].s))
  }

  /** The issue a rejected field contributes: none when the field is valid. */
  function Flag(ok: bool, issue: Issue): (r: seq<Issue>)
    ensures r == [] <==> ok
    ensures forall x :: x in r <==> !ok && x == issue
  {
    if ok then [] else [issue]
  }

  /** One issue per rejected field, in the schema's key order. */
  function Issues(name: bool, description: bool, inDiet: bool, date: bool, hour: bool): (r: seq<Issue>)
    ensures r == [] <==> name && description && inDiet && date && hour
    ensures InvalidName in r <==> !name
    ensures InvalidDescription in r <==> !description
    ensures InvalidInDiet in r <==> !inDiet
    ensures InvalidDate in r <==> !date
    ensures InvalidHour in r <==> !hour
    ensures NotAnObject !in r && InvalidId !in r
  {
    Flag(name, InvalidName) + Flag(description, InvalidDescription) + Flag(inDiet, InvalidInDiet)
    + Flag(date, InvalidDate) + Flag(hour, InvalidHour)
  }

  function OptString(f: map<string, Json>, key: string): Option<string>
    requires OptionalString(f, key)
  {
    if key in f then Some(f[key].s) else None
  }

  /** The create schema: every field valid, or the list of the rejected ones. */
  function ParseCreateBody(body: Body): (r: Result<NewMeal, seq<Issue>>)
    ensures r.Success? <==> (
      && body.JObject?
      && RequiredString(body.fields, "name") && OptionalString(body.fields, "description")
      && RequiredInDiet(body.fields) && RequiredDate(body.fields) && RequiredHour(body.fields))
    ensures r.Failure? ==> r.error != []
    ensures body.JNonObject? ==> r == Failure([NotAnObject])
    ensures r.Failure? && body.JObject? ==>
      && (InvalidName in r.error <==> !RequiredString(body.fields, "name"))
      && (InvalidDescription in r.error <==> !OptionalString(body.fields, "description"))
      && (InvalidInDiet in r.error <==> !RequiredInDiet(body.fields))
      && (InvalidDate in r.error <==> !RequiredDate(body.fields))
      && (InvalidHour in r.error <==> !RequiredHour(body.fields))
    ensures r.Success? ==>
      && r.value.name == body.fields["name"].s
      && r.value.description == OptString(body.fields, "description").GetOr("")
      && Some(r.value.inDiet) == InDietOf(body.fields["inDiet"])
      && r.value.date == body.fields["date"].s && IsDateShape(r.value.date)
      && r.value.hour == body.fields["hour"].s && IsHourShape(r.value.hour)
  {
    match body
    case JNonObject => Failure([NotAnObject])
    case JObject(f) =>
      var issues := Issues(RequiredString(f, "name"), OptionalString(f, "description"),
                           RequiredInDiet(f), RequiredDate(f), RequiredHour(f));
      if issues != [] then Failure(issues)
      else Success(NewMeal(f["name"].s, OptString(f, "description").GetOr(""),
                           InDietOf(f["inDiet"]).value, f["date"].s, f["hour"].s))
  }

  /** The update schema: every field optional; a present field must be valid. */
  function ParseUpdateBody(body: Body): (r: Result<MealPatch, seq<Issue>>)
    ensures r.Success? <==> (
      && body.JObject?
      && OptionalString(body.fields, "name") && OptionalString(body.fields, "description")
      && OptionalInDiet(body.fields) && OptionalDate(body.fields) && OptionalHour(body.fields))
    ensures r.Failure? ==> r.error != []
    ensures body.JNonObject? ==> r == Failure([NotAnObject])
    ensures r.Failure? && body.JObject? ==>
      && (InvalidName in r.error <==> !OptionalString(body.fields, "name"))
      && (InvalidDescription in r.error <==> !OptionalString(body.fields, "description"))
      && (InvalidInDiet in r.error <==> !OptionalInDiet(body.fields))
      && (InvalidDate in r.error <==> !OptionalDate(body.fields))
      && (InvalidHour in r.error <==> !OptionalHour(body.fields))
    ensures r.Success? ==>
      && (r.value.name.Some? <==> "name" in body.fields)
      && (r.value.description.Some? <==> "description" in body.fields)
      && (r.value.inDiet.Some? <==> "inDiet" in body.fields)
      && (r.value.date.Some? <==> "date" in body.fields)
      && (r.value.hour.Some? <==> "hour" in body.fields)
      && (r.value.name.Some? ==> r.value.name.value == body.fields["name"].s)
      && (r.value.description.Some? ==> r.value.description.value == body.fields["description"].s)
      && (r.value.inDiet.Some? ==> r.value.inDiet == InDietOf(body.fields["inDiet"]))
      && (r.value.date.Some? ==> r.value.date.value == body.fields["date"].s && IsDateShape(r.value.date.value))
      && (r.value.hour.Some? ==> r.value.hour.value == body.fields["hour"].s && IsHourShape(r.value.hour.value))
  {
    match body
    case JNonObject => Failure([NotAnObject])
    case JObject(f) =>
      var issues := Issues(OptionalString(f, "name"), OptionalString(f, "description"),
                           OptionalInDiet(f), OptionalDate(f), OptionalHour(f));
      if issues != [] then Failure(issues)
      else Success(MealPatch(
        OptString(f, "name"),
        OptString(f, "description"),
        if "inDiet" in f then InDietOf(f["inDiet"]) else None,
        OptString(f, "date"),
        OptString(f, "hour")))
  }

  /** The `:id` path parameter schema; `isUuid` is the validator's UUID test. */
  function ParseId(id: string, isUuid: string -> bool): (r: Result<string, seq<Issue>>)
    ensures r.Success? <==> isUuid(id)
    ensures r.Success? ==> r.value == id
    ensures r.Failure? ==> r.error == [InvalidId]
  {
    if isUuid(id) then Success(id) else Failure([InvalidId])
  }

  // Encoding a valid value back into a body: the partner of the two parsers.

  function Put(f: map<string, Json>, key: string, v: Option<string>): map<string, Json> {
    if v.Some? then f[key := JString(v.value)] else f
  }

  /** The JSON body a client sends to create `m`. */
  function CreateBodyOf(m: NewMeal): Body {
    JObject(map[
      "name" := JString(m.name),
      "description" := JString(m.description),
      "inDiet" := JString(InDietText(m.inDiet)),
      "date" := JString(m.date),
      "hour" := JString(m.hour)])
  }

  /** The JSON body a client sends to apply `p`: absent fields are left out. */
  function UpdateBodyOf(p: MealPatch): Body {
    var f0: map<string, Json> := map[];
    var f1 := Put(f0, "name", p.name);
    var f2 := Put(f1, "description", p.description);
    var f3 := if p.inDiet.Some? then f2["inDiet" := JString(InDietText(p.inDiet.value))] else f2;
    var f4 := Put(f3, "date", p.date);
    JObject(Put(f4, "hour", p.hour))
  }

  lemma InDietRoundTrip(d: InDiet)
    ensures InDietOf(JString(InDietText(d))) == Some(d)
  {
  }

  /** A meal whose date and hour have the right shape survives the create schema unchanged. */
  lemma CreateBodyRoundTrip(m: NewMeal)
    requires IsDateShape(m.date) && IsHourShape(m.hour)
    ensures ParseCreateBody(CreateBodyOf(m)) == Success(m)
  {
    InDietRoundTrip(m.inDiet);
  }

  /** The create schema rejects exactly the meals whose date or hour has the wrong shape. */
  lemma CreateBodyRejectsShape(m: NewMeal)
    requires !IsDateShape(m.date) || !IsHourShape(m.hour)
    ensures ParseCreateBody(CreateBodyOf(m)).Failure?
    ensures InvalidDate in ParseCreateBody(CreateBodyOf(m)).error <==> !IsDateShape(m.date)
    ensures InvalidHour in ParseCreateBody(CreateBodyOf(m)).error <==> !IsHourShape(m.hour)
  {
    InDietRoundTrip(m.inDiet);
  }

  /** A patch whose present date and hour have the right shape survives the update schema unchanged. */
  lemma UpdateBodyRoundTrip(p: MealPatch)
    requires p.date.Some? ==> IsDateShape(p.date.value)
    requires p.hour.Some? ==> IsHourShape(p.hour.value)
    ensures ParseUpdateBody(UpdateBodyOf(p)) == Success(p)
  {
    if p.inDiet.Some? {
      InDietRoundTrip(p.inDiet.value);
    }
  }

  /** The values the route tests send: `2023-04-21` and `21:50` pass, other layouts do not. */
  lemma ShapeExamples()
    ensures IsDateShape("2023-04-21") && IsHourShape("21:50")
    ensures !IsDateShape("2023-4-21") && !IsDateShape("21/04/2023") && !IsDateShape("2023-04-21 ")
    ensures !IsHourShape("9:50") && !IsHourShape("21h50") && !IsHourShape("21:50:00")
  {
    assert !IsDigit('/');
    assert "2023-4-21"[7] != '-';
  }
}
