/**
 * The `GET /meals/metrics` handler: three counts over the session's rows and
 * the "best day", the date whose group of `diet` rows is largest.
 */
module MealMetrics {
  import opened Wrappers
  import opened MealSchemas
  import opened MealTable

  /** One row of the grouped query: a date and the size of its group. */
  datatype DayCount = DayCount(date: string, inDietAmount: nat)

  /** The JSON object the handler returns. */
  datatype Metrics = Metrics(
    totalMeals: nat,
    totalDietMeals: nat,
    totalNotDietMeals: nat,
    bestDaySequence: Option<DayCount>)

  /** `where({ session_id: sessionId, in_diet: d })` */
  function OfSessionIn(sessionId: string, d: InDiet): (p: Row -> bool)
    ensures forall r :: p(r) <==> r.sessionId == sessionId && r.inDiet == d
  {
    (r: Row) => r.sessionId == sessionId && r.inDiet == d
  }

  /** The rows with the given `in_diet`. */
  function OfDiet(d: InDiet): Row -> bool {
    (r: Row) => r.inDiet == d
  }

  /** The rows of one `groupBy('date')` group. */
  function OnDate(date: string): Row -> bool {
    (r: Row) => r.date == date
  }

  /** `count(...)` of one `groupBy('date')` group. */
  function GroupSize(rows: seq<Row>, date: string): (n: nat)
    ensures n <= |rows|
    ensures forall k :: 0 <= k < |rows| && rows[k].date == date ==> n >= 1
    ensures n >= 1 ==> exists k :: 0 <= k < |rows| && rows[k].date == date
  {
    var g := Where(rows, OnDate(date));
    assert forall k :: 0 <= k < |rows| && rows[k].date == date ==> rows[k] in g;
    assert |g| >= 1 ==> g[0] in rows;
    |g|
  }

  /** The largest group among the dates of `dates`; on a tie the earlier date. */
  function BestDayAmong(rows: seq<Row>, dates: seq<Row>): (b: Option<DayCount>)
    ensures b.None? <==> dates == []
    ensures b.Some? ==> b.value.inDietAmount == GroupSize(rows, b.value.date)
    ensures b.Some? ==> exists k :: 0 <= k < |dates| && dates[k].date == b.value.date
    ensures b.Some? ==> forall k :: 0 <= k < |dates| ==> GroupSize(rows, dates[k].date) <= b.value.inDietAmount
  {
    if dates == [] then None
    else
      var here := DayCount(dates[0].date, GroupSize(rows, dates[0].date));
      var rest := BestDayAmong(rows, dates[1..]);
      if rest.Some? && rest.value.inDietAmount > here.inDietAmount then rest else Some(here)
  }

  /** A date of some row has a group of at least one row; a date of no row has none. */
  lemma GroupOfRow(rows: seq<Row>, date: string)
    ensures GroupSize(rows, date) > 0 <==> exists k :: 0 <= k < |rows| && rows[k].date == date
  {
    var g := Where(rows, OnDate(date));
    if |g| > 0 {
      assert g[0] in g;
      var k :| 0 <= k < |rows| && rows[k] == g[0];
    }
    if exists k :: 0 <= k < |rows| && rows[k].date == date {
      var k :| 0 <= k < |rows| && rows[k].date == date;
      assert rows[k] in g;
    }
  }

  /**
   * `.groupBy('date').count({ inDietAmount }).orderBy('inDietAmount', 'desc').first()`:
   * a date with rows whose group is at least as large as every other date's.
   */
  function BestDay(rows: seq<Row>): (b: Option<DayCount>)
    ensures b.None? <==> rows == []
    ensures b.Some? ==> b.value.inDietAmount == GroupSize(rows, b.value.date) && b.value.inDietAmount >= 1
    ensures b.Some? ==> forall date :: GroupSize(rows, date) <= b.value.inDietAmount
  {
    var b := BestDayAmong(rows, rows);
    if b.None? then None
    else
      GroupOfRow(rows, b.value.date);
      assert forall date :: GroupSize(rows, date) <= b.value.inDietAmount by {
        forall date
          ensures GroupSize(rows, date) <= b.value.inDietAmount
        {
          GroupOfRow(rows, date);
        }
      }
      b
  }

  /** The session's `diet` rows, the input of the best-day query. */
  function DietRows(rows: seq<Row>, sessionId: string): seq<Row> {
    Where(rows, OfSessionIn(sessionId, Diet))
  }

  /** A query on the session and one `in_diet` value is a query on the session's rows. */
  lemma SessionInIsFilter(rows: seq<Row>, sessionId: string, d: InDiet)
    ensures Where(rows, OfSessionIn(sessionId, d)) == Where(Where(rows, OfSession(sessionId)), OfDiet(d))
  {
    WhereWhere(rows, OfSession(sessionId), OfDiet(d), OfSessionIn(sessionId, d));
  }

  /** `in_diet` has two values, so the session's meals split into diet and not-diet. */
  lemma CountingIdentity(rows: seq<Row>, sessionId: string)
    ensures |Where(rows, OfSession(sessionId))|
         == |Where(rows, OfSessionIn(sessionId, Diet))| + |Where(rows, OfSessionIn(sessionId, NotDiet))|
  {
    SessionInIsFilter(rows, sessionId, Diet);
    SessionInIsFilter(rows, sessionId, NotDiet);
    WhereComplement(Where(rows, OfSession(sessionId)), OfDiet(Diet), OfDiet(NotDiet));
  }

  /** The `/metrics` handler for the session named by the cookie. */
  function SessionMetrics(rows: seq<Row>, sessionId: string): (m: Metrics)
    requires sessionId != ""
    ensures m.totalMeals == |Where(rows, OfSession(sessionId))|
    ensures m.totalMeals == m.totalDietMeals + m.totalNotDietMeals
    ensures m.totalDietMeals == |Where(rows, OfSessionIn(sessionId, Diet))|
    ensures m.bestDaySequence.None? <==> m.totalDietMeals == 0
    ensures m.bestDaySequence.Some? ==>
      var best := m.bestDaySequence.value;
      && best.inDietAmount >= 1
      && best.inDietAmount == GroupSize(DietRows(rows, sessionId), best.date)
      && forall date :: GroupSize(DietRows(rows, sessionId), date) <= best.inDietAmount
  {
    CountingIdentity(rows, sessionId);
    Metrics(
      |Where(rows, OfSession(sessionId))|,
      |Where(rows, OfSessionIn(sessionId, Diet))|,
      |Where(rows, OfSessionIn(sessionId, NotDiet))|,
      BestDay(DietRows(rows, sessionId)))
  }

  /** The metrics of a session depend on that session's rows and on nothing else. */
  lemma MetricsIsolation(rows: seq<Row>, rows': seq<Row>, sessionId: string)
    requires sessionId != ""
    requires Where(rows, OfSession(sessionId)) == Where(rows', OfSession(sessionId))
    ensures SessionMetrics(rows, sessionId) == SessionMetrics(rows', sessionId)
  {
    SessionInIsFilter(rows, sessionId, Diet);
    SessionInIsFilter(rows', sessionId, Diet);
    SessionInIsFilter(rows, sessionId, NotDiet);
    SessionInIsFilter(rows', sessionId, NotDiet);
  }

  /** A session whose one meal is a `diet` meal: one meal, one diet meal, and its date as best day. */
  lemma OneDietMeal(rows: seq<Row>, m: Row)
    requires m.sessionId != "" && m.inDiet == Diet
    requires Where(rows, OfSession(m.sessionId)) == [m]
    ensures SessionMetrics(rows, m.sessionId) == Metrics(1, 1, 0, Some(DayCount(m.date, 1)))
  {
    SessionInIsFilter(rows, m.sessionId, Diet);
    SessionInIsFilter(rows, m.sessionId, NotDiet);
    assert [m][1..] == [];
    assert DietRows(rows, m.sessionId) == [m];
    assert GroupSize([m], m.date) == 1;
  }
}
