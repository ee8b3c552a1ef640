/**
 * The handlers of the `/meals` routes. Reads (list, get-one) are functions of
 * the table's rows; create, delete and update are methods of `MealsStore`,
 * the object that holds the `meals` table and changes it in place.
 *
 * Every protected route runs behind a middleware that rejects a request
 * without a session cookie; here that is the precondition `sessionId != ""`.
 * The randomness (`randomUUID`), the clock and the date library are
 * parameters.
 */
module MealRoutes {
  import opened Wrappers
  import opened MealSchemas
  import opened MealTable

  /** `dayjs(input).format(pattern)`; None stands for `dayjs(undefined)`. */
  type Formatter = (Option<string>, string) -> string

  /** A `Set-Cookie` the reply carries. */
  datatype Cookie = Cookie(name: string, value: string, path: string, maxAge: int)

  /** A reply with an empty body. */
  datatype Reply = Reply(status: nat, setCookie: Option<Cookie>)

  /** `1000 * 60 * 60 * 24 * 7`, the number the create handler passes as `maxAge`. */
  const SessionMaxAge: int := 1000 * 60 * 60 * 24 * 7

  /** `if (!sessionId)` is false: the cookie is present and not empty. */
  predicate HasSession(cookie: Option<string>)
    ensures !HasSession(cookie) <==> cookie == None || cookie == Some("")
  {
    cookie.Some? && cookie.value != ""
  }

  /**
   * The session a create binds its row to, and the cookie it sets when the
   * request brought none; `issued` is the `randomUUID()` drawn for it.
   */
  function ResolveSession(cookie: Option<string>, issued: string): (r: (string, Option<Cookie>))
    requires issued != ""
    ensures r.0 != ""
    ensures HasSession(cookie) ==> r.0 == cookie.value
    ensures !HasSession(cookie) ==> r.0 == issued
    ensures r.1.Some? <==> !HasSession(cookie)
    ensures r.1.Some? ==> r.1.value == Cookie("sessionId", r.0, "/", 604_800_000)
  {
    if HasSession(cookie) then (cookie.value, None)
    else (issued, Some(Cookie("sessionId", issued, "/", SessionMaxAge)))
  }

  /** The template `${date} ${hour}`; an absent value prints as `undefined`. */
  function DateHourText(date: Option<string>, hour: Option<string>): (t: string)
    ensures |t| == |date.GetOr("undefined")| + 1 + |hour.GetOr("undefined")|
    ensures date.Some? && hour.Some? ==> t == date.value + " " + hour.value
    ensures date.None? ==> t[..10] == "undefined "
    ensures hour.None? ==> t[|t| - 10..] == " undefined"
  {
    date.GetOr("undefined") + " " + hour.GetOr("undefined")
  }

  /** The row `insert` writes for a validated create body. */
  function NewRow(m: NewMeal, format: Formatter, sessionId: string, id: string): (r: Row)
    ensures r.id == id && r.sessionId == sessionId
    ensures r.name == m.name && r.description == m.description && r.inDiet == m.inDiet
    ensures r.date == format(Some(m.date), "YYYY-MM-DD")
    ensures r.hour == format(Some(m.date + " " + m.hour), "HH:mm")
    ensures r.updatedAt.None?
  {
    Row(id, m.name, m.description, m.inDiet,
        format(Some(m.date), "YYYY-MM-DD"),
        format(Some(DateHourText(Some(m.date), Some(m.hour))), "HH:mm"),
        sessionId, None)
  }

  /** The object `update` writes for a validated update body at time `updatedAt`. */
  function UpdateAssignment(p: MealPatch, format: Formatter, updatedAt: string): (a: Assignment)
    ensures a.name == p.name && a.description == p.description && a.inDiet == p.inDiet
    ensures a.date == format(p.date, "YYYY-MM-DD")
    ensures a.hour == format(Some(DateHourText(p.date, p.hour)), "HH:mm")
    ensures a.updatedAt == updatedAt
  {
    Assignment(p.inDiet, p.name, p.description,
               format(p.date, "YYYY-MM-DD"),
               format(Some(DateHourText(p.date, p.hour)), "HH:mm"),
               updatedAt)
  }

  /** `GET /meals`: the session's rows, each as often as the table holds it, and no other row. */
  function ListMeals(rows: seq<Row>, sessionId: string): (meals: seq<Row>)
    requires sessionId != ""
    ensures forall m :: m in meals <==> m in rows && m.sessionId == sessionId
    ensures forall m :: multiset(meals)[m] == if m.sessionId == sessionId then multiset(rows)[m] else 0
  {
    WhereMultiset(rows, OfSession(sessionId));
    Where(rows, OfSession(sessionId))
  }

  /** `GET /meals/:id`: the first row with that id in the session, or `undefined`. */
  function GetMeal(rows: seq<Row>, sessionId: string, id: string, isUuid: string -> bool): (r: Result<Option<Row>, seq<Issue>>)
    requires sessionId != ""
    ensures r.Failure? <==> !isUuid(id)
    ensures r.Failure? ==> r.error == [InvalidId]
    ensures r.Success? && r.value.Some? ==>
      r.value.value in rows && r.value.value.id == id && r.value.value.sessionId == sessionId
    ensures r.Success? && r.value.None? ==>
      forall m :: m in rows ==> !(m.id == id && m.sessionId == sessionId)
  {
    match ParseId(id, isUuid)
    case Failure(e) => Failure(e)
    case Success(id) =>
      var found := Where(rows, Identified(id, sessionId));
      assert forall m :: m in rows && m.id == id && m.sessionId == sessionId ==> m in found;
      Success(First(found))
  }

  /** A get-one sees the session's rows and nothing else. */
  lemma GetMealIsolation(rows: seq<Row>, sessionId: string, id: string, isUuid: string -> bool)
    requires sessionId != ""
    ensures GetMeal(rows, sessionId, id, isUuid) == GetMeal(ListMeals(rows, sessionId), sessionId, id, isUuid)
  {
    var both: Row -> bool := (r: Row) => OfSession(sessionId)(r) && Identified(id, sessionId)(r);
    WhereWhere(rows, OfSession(sessionId), Identified(id, sessionId), both);
    WhereSame(rows, both, Identified(id, sessionId));
  }

  /** A create with no session cookie: the new session lists exactly the new meal. */
  lemma CreateOpensSession(rows: seq<Row>, m: NewMeal, format: Formatter, issued: string, id: string)
    requires issued != ""
    requires forall r :: r in rows ==> r.sessionId != issued
    ensures var row := NewRow(m, format, ResolveSession(None, issued).0, id);
      ListMeals(rows + [row], issued) == [row]
  {
    var row := NewRow(m, format, issued, id);
    InsertVisible(rows, row);
    WhereNone(rows, OfSession(issued));
    assert Where(rows + [row], OfSession(issued)) == [row];
  }

  /**
   * The route test's create-then-list: a valid body posted without a cookie is
   * listed under the new session with its name, and with its date when the
   * date library leaves an already-canonical date as it is.
   */
  lemma CreateThenList(rows: seq<Row>, m: NewMeal, format: Formatter, issued: string, id: string)
    requires IsDateShape(m.date) && IsHourShape(m.hour) && issued != ""
    requires forall r :: r in rows ==> r.sessionId != issued
    requires format(Some(m.date), "YYYY-MM-DD") == m.date
    ensures ParseCreateBody(CreateBodyOf(m)) == Success(m)
    ensures var meals := ListMeals(rows + [NewRow(m, format, issued, id)], issued);
      |meals| == 1 && meals[0].name == m.name && meals[0].date == m.date && meals[0].inDiet == m.inDiet
  {
    CreateBodyRoundTrip(m);
    CreateOpensSession(rows, m, format, issued, id);
  }

  /** After an update, get-one shows the supplied name and `inDiet` and the new `updated_at`. */
  lemma UpdateThenGet(rows: seq<Row>, sessionId: string, id: string, p: MealPatch, format: Formatter,
                      now: string, isUuid: string -> bool)
    requires sessionId != "" && isUuid(id)
    requires exists m :: m in rows && m.id == id && m.sessionId == sessionId
    ensures var got := GetMeal(UpdateWhere(rows, id, sessionId, UpdateAssignment(p, format, now)), sessionId, id, isUuid);
      && got.Success? && got.value.Some?
      && got.value.value.updatedAt == Some(now)
      && (p.name.Some? ==> got.value.value.name == p.name.value)
      && (p.inDiet.Some? ==> got.value.value.inDiet == p.inDiet.value)
  {
    var a := UpdateAssignment(p, format, now);
    UpdateThenFirst(rows, id, sessionId, a);
    var m :| m in rows && m.id == id && m.sessionId == sessionId;
    assert m in Where(rows, Identified(id, sessionId));
  }

  /** An update writes `date` and `hour` even when the body leaves them out. */
  lemma UpdateOverwritesDateAndHour(row: Row, p: MealPatch, format: Formatter, now: string)
    requires p.date.None? && p.hour.None?
    ensures Assign(row, UpdateAssignment(p, format, now)).date == format(None, "YYYY-MM-DD")
    ensures Assign(row, UpdateAssignment(p, format, now)).hour == format(Some("undefined undefined"), "HH:mm")
  {
    assert DateHourText(None, None) == "undefined undefined";
  }

  /** The `meals` table and the three handlers that write to it. */
  class MealsStore {
    var rows: seq<Row>

    /** Ids are unique and every row belongs to a named session. */
    ghost predicate Valid()
      reads this
    {
      UniqueIds(rows) && SessionsNamed(rows)
    }

    constructor ()
      ensures Valid() && rows == []
    {
      rows := [];
    }

    /**
     * `POST /meals`. `issuedSessionId` is the `randomUUID()` drawn when the
     * request has no session cookie, `newId` the one drawn for the row.
     */
    method Create(cookie: Option<string>, body: Body, format: Formatter, issuedSessionId: string, newId: string)
      returns (out: Result<Reply, seq<Issue>>)
      requires Valid()
      requires issuedSessionId != ""
      requires forall r :: r in rows ==> r.id != newId
      modifies this
      ensures Valid()
      ensures out.Failure? <==> ParseCreateBody(body).Failure?
      ensures out.Failure? ==> out.error == ParseCreateBody(body).error && rows == old(rows)
      ensures out.Success? ==>
        var session := ResolveSession(cookie, issuedSessionId);
        && out.value == Reply(201, session.1)
        && rows == old(rows) + [NewRow(ParseCreateBody(body).value, format, session.0, newId)]
    {
      var parsed := ParseCreateBody(body);
      if parsed.Failure? {
        return Failure(parsed.error);
      }
      var session := ResolveSession(cookie, issuedSessionId);
      var row := NewRow(parsed.value, format, session.0, newId);
      assert forall i :: 0 <= i < |rows| ==> rows[i] in rows;
      rows := rows + [row];
      out := Success(Reply(201, session.1));
    }

    /** `DELETE /meals/:id`: removes the session's rows with that id; a no-op when there are none. */
    method Delete(sessionId: string, id: string, isUuid: string -> bool) returns (out: Result<Reply, seq<Issue>>)
      requires Valid() && sessionId != ""
      modifies this
      ensures Valid()
      ensures out.Failure? <==> !isUuid(id)
      ensures out.Failure? ==> out.error == [InvalidId] && rows == old(rows)
      ensures out.Success? ==> out.value == Reply(202, None) && rows == DeleteWhere(old(rows), id, sessionId)
    {
      var parsed := ParseId(id, isUuid);
      if parsed.Failure? {
        return Failure(parsed.error);
      }
      WhereUniqueIds(rows, NotIdentified(parsed.value, sessionId));
      rows := DeleteWhere(rows, parsed.value, sessionId);
      out := Success(Reply(202, None));
    }

    /**
     * `PUT /meals/:id` at time `now` (the formatted `updated_at`): rewrites the
     * session's rows with that id; a no-op when there are none.
     */
    method Update(sessionId: string, id: string, body: Body, format: Formatter, now: string, isUuid: string -> bool)
      returns (out: Result<Reply, seq<Issue>>)
      requires Valid() && sessionId != ""
      modifies this
      ensures Valid()
      ensures !isUuid(id) ==> out == Failure([InvalidId])
      ensures isUuid(id) && ParseUpdateBody(body).Failure? ==> out == Failure(ParseUpdateBody(body).error)
      ensures out.Failure? ==> rows == old(rows)
      ensures out.Success? <==> isUuid(id) && ParseUpdateBody(body).Success?
      ensures out.Success? ==>
        && out.value == Reply(200, None)
        && rows == UpdateWhere(old(rows), id, sessionId, UpdateAssignment(ParseUpdateBody(body).value, format, now))
    {
      var parsedId := ParseId(id, isUuid);
      if parsedId.Failure? {
        return Failure(parsedId.error);
      }
      var patch := ParseUpdateBody(body);
      if patch.Failure? {
        return Failure(patch.error);
      }
      var a := UpdateAssignment(patch.value, format, now);
      UpdateKeepsInvariant(rows, parsedId.value, sessionId, a);
      rows := UpdateWhere(rows, parsedId.value, sessionId, a);
      out := Success(Reply(200, None));
    }
  }
}
