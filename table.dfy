/**
 * The `meals` table as a sequence of rows in table order, and the query
 * semantics the routes rely on: `where(...)` as a filter, `delete()` as the
 * removal of the rows a `where` selects, and `update(...)` as an in-place
 * rewrite of those rows. The lemmas state that a query or write scoped to one
 * session leaves every other session's rows as they were.
 */
module MealTable {
  import opened Wrappers
  import opened MealSchemas

  /** One row of `meals`. `updatedAt` is None until the first update writes it. */
  datatype Row = Row(
    id: string,
    name: string,
    description: string,
    inDiet: InDiet,
    date: string,
    hour: string,
    sessionId: string,
    updatedAt: Option<string>)

  /** `where(...)`: the rows satisfying `p`, in table order. */
  function Where(rows: seq<Row>, p: Row -> bool): (r: seq<Row>)
    ensures |r| <= |rows|
    ensures forall x :: x in r <==> x in rows && p(x)
  {
    if rows == [] then []
    else (if p(rows[0]) then [rows[0]] else []) + Where(rows[1..], p)
  }

  /** `where(...)` keeps every selected row as often as the table holds it, and no other. */
  lemma {:induction false} WhereMultiset(rows: seq<Row>, p: Row -> bool)
    ensures forall x :: multiset(Where(rows, p))[x] == if p(x) then multiset(rows)[x] else 0
  {
    if rows != [] {
      WhereMultiset(rows[1..], p);
      assert rows == [rows[0]] + rows[1..];
    }
  }

  /** `where('session_id', sessionId)` */
  function OfSession(sessionId: string): (p: Row -> bool)
    ensures forall r :: p(r) <==> r.sessionId == sessionId
  {
    (r: Row) => r.sessionId == sessionId
  }

  /** `where({ id, session_id: sessionId })` */
  function Identified(id: string, sessionId: string): (p: Row -> bool)
    ensures forall r :: p(r) <==> r.id == id && r.sessionId == sessionId
  {
    (r: Row) => r.id == id && r.sessionId == sessionId
  }

  /** The rows that `where({ id, session_id: sessionId })` does not select. */
  function NotIdentified(id: string, sessionId: string): Row -> bool {
    (r: Row) => !(r.id == id && r.sessionId == sessionId)
  }

  /** The rows with the given `id`, whatever their session. */
  function HasId(id: string): Row -> bool {
    (r: Row) => r.id == id
  }

  /** The rows with another `id`. */
  function LacksId(id: string): Row -> bool {
    (r: Row) => r.id != id
  }

  /** `.first()`: the first row of a result, or `undefined`. */
  function First(rows: seq<Row>): (r: Option<Row>)
    ensures r.None? <==> rows == []
    ensures r.Some? ==> r.value == rows[0]
  {
    if rows == [] then None else Some(rows[0])
  }

  /** No two rows share an `id`. */
  ghost predicate UniqueIds(rows: seq<Row>) {
    forall i, j :: 0 <= i < j < |rows| ==> rows[i].id != rows[j].id
  }

  /** Every row belongs to a session a cookie can name. */
  ghost predicate SessionsNamed(rows: seq<Row>) {
    forall r :: r in rows ==> r.sessionId != ""
  }

  // ---------------------------------------------------------------- delete

  /** `where({ session_id, id }).delete()`: the table without the selected rows. */
  function DeleteWhere(rows: seq<Row>, id: string, sessionId: string): (r: seq<Row>)
    ensures forall x :: multiset(r)[x] == if x.id == id && x.sessionId == sessionId then 0 else multiset(rows)[x]
  {
    WhereMultiset(rows, NotIdentified(id, sessionId));
    Where(rows, NotIdentified(id, sessionId))
  }

  // ---------------------------------------------------------------- update

  /** The object handed to `.update({...})`; None is an `undefined` property. */
  datatype Assignment = Assignment(
    inDiet: Option<InDiet>,
    name: Option<string>,
    description: Option<string>,
    date: string,
    hour: string,
    updatedAt: string)

  /** One selected row after `.update(a)`. */
  function Assign(row: Row, a: Assignment): (r: Row)
    ensures r.id == row.id && r.sessionId == row.sessionId
    ensures r.date == a.date && r.hour == a.hour && r.updatedAt == Some(a.updatedAt)
    ensures a.name.Some? ==> r.name == a.name.value
    ensures a.description.Some? ==> r.description == a.description.value
    ensures a.inDiet.Some? ==> r.inDiet == a.inDiet.value
  {
    row.(inDiet := a.inDiet.GetOr(row.inDiet),
         name := a.name.GetOr(row.name),
         description := a.description.GetOr(row.description),
         date := a.date,
         hour := a.hour,
         updatedAt := Some(a.updatedAt))
  }

  /** `where({ session_id, id }).update(a)`: the selected rows rewritten in place. */
  function UpdateWhere(rows: seq<Row>, id: string, sessionId: string, a: Assignment): (r: seq<Row>)
    ensures |r| == |rows|
    ensures forall i :: 0 <= i < |rows| ==>
      r[i] == if rows[i].id == id && rows[i].sessionId == sessionId then Assign(rows[i], a) else rows[i]
  {
    if rows == [] then []
    else
      var head := rows[0];
      [if head.id == id && head.sessionId == sessionId then Assign(head, a) else head]
      + UpdateWhere(rows[1..], id, sessionId, a)
  }

  // ------------------------------------------------------ filter algebra

  /** Filtering distributes over concatenation. */
  lemma {:induction false} WhereAppend(a: seq<Row>, b: seq<Row>, p: Row -> bool)
    ensures Where(a + b, p) == Where(a, p) + Where(b, p)
  {
    if a == [] {
      assert a + b == b;
    } else {
      assert (a + b)[1..] == a[1..] + b;
      WhereAppend(a[1..], b, p);
    }
  }

  /** Two filters in a row are one filter on the conjunction. */
  lemma {:induction false} WhereWhere(rows: seq<Row>, p: Row -> bool, q: Row -> bool, pq: Row -> bool)
    requires forall x :: pq(x) == (p(x) && q(x))
    ensures Where(Where(rows, p), q) == Where(rows, pq)
  {
    if rows != [] {
      var h, t := rows[0], rows[1..];
      WhereWhere(t, p, q, pq);
      if p(h) {
        assert Where(rows, p) == [h] + Where(t, p);
        WhereAppend([h], Where(t, p), q);
        assert [h][1..] == [];
        assert Where([h], q) == if q(h) then [h] else [];
      } else {
        assert Where(rows, p) == Where(t, p);
      }
    }
  }

  /** Filters that agree on the table's rows select the same rows. */
  lemma {:induction false} WhereSame(rows: seq<Row>, p: Row -> bool, q: Row -> bool)
    requires forall x :: x in rows ==> p(x) == q(x)
    ensures Where(rows, p) == Where(rows, q)
  {
    if rows != [] {
      WhereSame(rows[1..], p, q);
    }
  }

  /** A filter that selects every row changes nothing. */
  lemma {:induction false} WhereAll(rows: seq<Row>, p: Row -> bool)
    requires forall x :: x in rows ==> p(x)
    ensures Where(rows, p) == rows
  {
    if rows != [] {
      WhereAll(rows[1..], p);
      assert rows == [rows[0]] + rows[1..];
    }
  }

  /** A filter that selects no row yields nothing. */
  lemma {:induction false} WhereNone(rows: seq<Row>, p: Row -> bool)
    requires forall x :: x in rows ==> !p(x)
    ensures Where(rows, p) == []
  {
    if rows != [] {
      WhereNone(rows[1..], p);
    }
  }

  /** A filter and its complement split the table's size between them. */
  lemma {:induction false} WhereComplement(rows: seq<Row>, p: Row -> bool, q: Row -> bool)
    requires forall x :: p(x) == !q(x)
    ensures |Where(rows, p)| + |Where(rows, q)| == |rows|
  {
    if rows != [] {
      WhereComplement(rows[1..], p, q);
    }
  }

  /** Filtering keeps ids unique. */
  lemma {:induction false} WhereUniqueIds(rows: seq<Row>, p: Row -> bool)
    requires UniqueIds(rows)
    ensures UniqueIds(Where(rows, p))
  {
    if rows != [] {
      var tail := rows[1..];
      WhereUniqueIds(tail, p);
      var w := Where(tail, p);
      forall x | x in w
        ensures x.id != rows[0].id
      {
        var k :| 0 <= k < |tail| && tail[k] == x;
        assert rows[k + 1] == x;
      }
      if p(rows[0]) {
        var r := [rows[0]] + w;
        forall i, j | 0 <= i < j < |r|
          ensures r[i].id != r[j].id
        {
          if i > 0 {
            assert r[i] == w[i - 1] && r[j] == w[j - 1];
          } else {
            assert r[j] == w[j - 1] && w[j - 1] in w;
          }
        }
      }
    }
  }

  // ------------------------------------------------------ session isolation

  /** An insert bound to `sessionId` leaves every other session's rows as they were. */
  lemma InsertIsolation(rows: seq<Row>, row: Row, other: string)
    requires row.sessionId != other
    ensures Where(rows + [row], OfSession(other)) == Where(rows, OfSession(other))
  {
    WhereAppend(rows, [row], OfSession(other));
    assert [row][1..] == [];
  }

  /** An insert bound to `sessionId` adds exactly that row to the session's rows. */
  lemma InsertVisible(rows: seq<Row>, row: Row)
    ensures Where(rows + [row], OfSession(row.sessionId)) == Where(rows, OfSession(row.sessionId)) + [row]
  {
    WhereAppend(rows, [row], OfSession(row.sessionId));
    assert [row][1..] == [];
  }

  /** A delete scoped to `sessionId` leaves every other session's rows as they were. */
  lemma DeleteIsolation(rows: seq<Row>, id: string, sessionId: string, other: string)
    requires other != sessionId
    ensures Where(DeleteWhere(rows, id, sessionId), OfSession(other)) == Where(rows, OfSession(other))
  {
    var both: Row -> bool := (r: Row) => NotIdentified(id, sessionId)(r) && OfSession(other)(r);
    WhereWhere(rows, NotIdentified(id, sessionId), OfSession(other), both);
    WhereSame(rows, both, OfSession(other));
  }

  /** A delete that selects nothing is a no-op. */
  lemma DeleteNoMatch(rows: seq<Row>, id: string, sessionId: string)
    requires forall r :: r in rows ==> !(r.id == id && r.sessionId == sessionId)
    ensures DeleteWhere(rows, id, sessionId) == rows
  {
    WhereAll(rows, NotIdentified(id, sessionId));
  }

  /** Within the session, a delete keeps exactly the session's rows with another id. */
  lemma DeleteInSession(rows: seq<Row>, id: string, sessionId: string)
    ensures Where(DeleteWhere(rows, id, sessionId), OfSession(sessionId))
         == Where(Where(rows, OfSession(sessionId)), LacksId(id))
  {
    var both: Row -> bool := (r: Row) => r.sessionId == sessionId && r.id != id;
    WhereWhere(rows, NotIdentified(id, sessionId), OfSession(sessionId), both);
    WhereWhere(rows, OfSession(sessionId), LacksId(id), both);
  }

  /** Deleting a session's only meal leaves the session with no meals. */
  lemma DeleteOnlyMeal(rows: seq<Row>, m: Row)
    requires Where(rows, OfSession(m.sessionId)) == [m]
    ensures Where(DeleteWhere(rows, m.id, m.sessionId), OfSession(m.sessionId)) == []
  {
    DeleteInSession(rows, m.id, m.sessionId);
    assert [m][1..] == [];
  }

  /** With unique ids, one matching row means one row fewer in the session. */
  lemma DeleteCountsOne(rows: seq<Row>, m: Row)
    requires UniqueIds(rows) && m in rows
    ensures |Where(DeleteWhere(rows, m.id, m.sessionId), OfSession(m.sessionId))|
         == |Where(rows, OfSession(m.sessionId))| - 1
  {
    var mine := Where(rows, OfSession(m.sessionId));
    DeleteInSession(rows, m.id, m.sessionId);
    WhereUniqueIds(rows, OfSession(m.sessionId));
    WhereComplement(mine, LacksId(m.id), HasId(m.id));
    assert m in mine;
    var k :| 0 <= k < |mine| && mine[k] == m;
    OnlyOneWithId(mine, k);
  }

  /** With unique ids, the row at `k` is the only one with its id. */
  lemma {:induction false} OnlyOneWithId(rows: seq<Row>, k: nat)
    requires UniqueIds(rows) && k < |rows|
    ensures Where(rows, HasId(rows[k].id)) == [rows[k]]
  {
    var id := rows[k].id;
    var p := HasId(id);
    if k == 0 {
      var tail := rows[1..];
      forall x | x in tail
        ensures x.id != id
      {
        var j :| 0 <= j < |tail| && tail[j] == x;
        assert rows[j + 1] == x;
      }
      assert Where(tail, p) == [] by {
        if Where(tail, p) != [] {
          assert Where(tail, p)[0] in Where(tail, p);
        }
      }
    } else {
      assert UniqueIds(rows[1..]) by {
        forall i, j | 0 <= i < j < |rows[1..]|
          ensures rows[1..][i].id != rows[1..][j].id
        {
          assert rows[1..][i] == rows[i + 1] && rows[1..][j] == rows[j + 1];
        }
      }
      assert rows[1..][k - 1] == rows[k];
      OnlyOneWithId(rows[1..], k - 1);
      assert rows[0].id != id;
    }
  }

  /** An update scoped to `sessionId` leaves every other session's rows as they were. */
  lemma {:induction false} UpdateIsolation(rows: seq<Row>, id: string, sessionId: string, a: Assignment, other: string)
    requires other != sessionId
    ensures Where(UpdateWhere(rows, id, sessionId, a), OfSession(other)) == Where(rows, OfSession(other))
  {
    if rows != [] {
      UpdateIsolation(rows[1..], id, sessionId, a, other);
      var u := UpdateWhere(rows, id, sessionId, a);
      assert u[1..] == UpdateWhere(rows[1..], id, sessionId, a);
    }
  }

  /** After an update, the row `.first()` finds is the old one with the assignment applied. */
  lemma {:induction false} UpdateThenFirst(rows: seq<Row>, id: string, sessionId: string, a: Assignment)
    ensures First(Where(UpdateWhere(rows, id, sessionId, a), Identified(id, sessionId)))
         == match First(Where(rows, Identified(id, sessionId)))
            case Some(before) => Some(Assign(before, a))
            case None => None
  {
    if rows != [] {
      var u := UpdateWhere(rows, id, sessionId, a);
      assert u[1..] == UpdateWhere(rows[1..], id, sessionId, a);
      UpdateThenFirst(rows[1..], id, sessionId, a);
    }
  }

  /** An update keeps ids unique and every row in its session. */
  lemma UpdateKeepsInvariant(rows: seq<Row>, id: string, sessionId: string, a: Assignment)
    requires UniqueIds(rows) && SessionsNamed(rows)
    ensures UniqueIds(UpdateWhere(rows, id, sessionId, a)) && SessionsNamed(UpdateWhere(rows, id, sessionId, a))
  {
    var u := UpdateWhere(rows, id, sessionId, a);
    forall x | x in u
      ensures x.sessionId != ""
    {
      var k :| 0 <= k < |u| && u[k] == x;
      assert rows[k] in rows;
    }
  }
}
