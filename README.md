# Meal tracker routes, modelled in Dafny

This project models the `/meals` routes of a small meal-tracking HTTP API. Each
meal row belongs to an anonymous session that a `sessionId` cookie names. The
routes create, list, fetch, update and delete rows, and they report per-session
metrics. The `meals` table is a sequence of rows in table order. The query
builder calls of the handlers are modelled by what they mean:

- `where(...)` is a filter (`MealTable.Where`).
- `.first()` is the head of the filtered rows.
- `delete()` removes the filtered rows.
- `update({...})` rewrites the filtered rows in place.
- `count`, `groupBy('date')` and `orderBy(...).first()` are counts and a maximum.

The files are:

- `wrappers.dfy` holds `Option` and `Result`.
- `schemas.dfy` (module `MealSchemas`) holds the request schemas: the create body, the update body and the `:id` parameter. A schema yields the typed value or the list of the fields it rejected, in the schema's key order. The date pattern `^[0-9]{4}[-][0-9]{2}[-][0-9]{2}$`, the hour pattern `^[0-9]{2}[:][0-9]{2}$` and the two-valued `inDiet` enum are written out.
- `table.dfy` (module `MealTable`) holds the row type, the filter, the delete and update transitions, and the isolation lemmas. Those lemmas say that a write scoped to one session leaves every other session's rows as they were.
- `metrics.dfy` (module `MealMetrics`) holds the `/metrics` handler. It proves the counting identity and that the best day's group is a largest one.
- `routes.dfy` (module `MealRoutes`) holds the read handlers as functions, and the class `MealsStore`. The class holds the table and its three writing handlers (create, delete, update) as methods. Each method's postcondition gives the new table as a function of the old one.

Protected routes run behind a middleware that rejects a request without a
session cookie. That middleware is not part of this model. Its guarantee is the
precondition `sessionId != ""` on those routes. The date library, `randomUUID`,
the clock and the UUID validator are parameters:

- `Formatter` is `dayjs(input).format(pattern)`, with `None` for `dayjs(undefined)`.
- `issuedSessionId` and `newId` are the values `randomUUID()` draws.
- `now` is the formatted `updated_at`.
- `isUuid` is the validator's UUID test.

Three points where the model keeps what the route code does:

- A rejected request is a thrown validation error. The handler does not choose its status code, so the model returns `Failure(issues)` and names no status.
- Date and hour are two fields, `date` and `hour`, as the routes use them. The `date_and_hour` column declared in `src/@types/knex.d.ts` is not used by the routes.
- An update writes `date` and `hour` every time. When the body leaves them out, the values are `dayjs(undefined)` formatted as a date and the text `undefined undefined` formatted as an hour.

## Model

| member | source | states |
|---|---|---|
| `MealSchemas.IsDateShape` | src/routes/meals.ts:95 | a date matches `^[0-9]{4}[-][0-9]{2}[-][0-9]{2}$` iff it has ten characters, a dash at positions 4 and 7 and a digit everywhere else (the same pattern guards the update body at lines 164-167) |
| `MealSchemas.IsHourShape` | src/routes/meals.ts:96 | an hour matches `^[0-9]{2}[:][0-9]{2}$` iff it has five characters, a colon at position 2 and a digit everywhere else (the same pattern guards the update body at lines 168-171) |
| `MealSchemas.InDietOf` | src/routes/meals.ts:94 | the enum accepts exactly the strings `diet` and `notDiet`, and maps each to the value it spells |
| `MealSchemas.InDietRoundTrip` | src/routes/meals.ts:94 | each enum value's spelling is accepted as that value |
| `MealSchemas.Issues` | src/routes/meals.ts:91-100 | the issue list is empty exactly when every field is valid, and it names exactly the invalid fields |
| `MealSchemas.ParseCreateBody` | src/routes/meals.ts:91-100 | the body is accepted iff it is an object with a string `name`, an absent or string `description`, a valid `inDiet`, and `date` and `hour` strings of the right shape; otherwise the issues name exactly the bad fields; an accepted body yields its own values, with `description` defaulting to the empty string |
| `MealSchemas.ParseUpdateBody` | src/routes/meals.ts:160-176 | every field is optional, a present field must be valid, the issues name exactly the bad fields, and an accepted body yields a field exactly when the body has it |
| `MealSchemas.ParseId` | src/routes/meals.ts:25-29 | the `:id` parameter is accepted iff it passes the UUID test, otherwise the one issue is `InvalidId` |
| `MealSchemas.CreateBodyRoundTrip` | src/routes/meals.ts:91-100 | a meal whose date and hour have the right shape, sent as a JSON body, parses back to itself |
| `MealSchemas.CreateBodyRejectsShape` | src/routes/meals.ts:95-96 | a meal with a badly shaped date or hour is rejected, and the issues name the date exactly when it is bad and the hour exactly when it is bad |
| `MealSchemas.UpdateBodyRoundTrip` | src/routes/meals.ts:160-172 | a patch whose present date and hour have the right shape, sent as a JSON body, parses back to itself |
| `MealSchemas.ShapeExamples` | src/routes/meals.ts:95-96 | `2023-04-21` and `21:50` have the right shape; other layouts of the same date and hour do not |
| `MealTable.OfSession` | src/routes/meals.ts:15 | `where('session_id', sessionId)` selects a row iff its session is the request's session |
| `MealTable.Identified` | src/routes/meals.ts:34-37 | `where({ id, session_id })` selects a row iff both its id and its session match; delete and update use the same condition at lines 142-145 and 186-189 |
| `MealTable.Where` | src/routes/meals.ts:15 | the filtered rows are exactly the rows of the table that satisfy the condition, and there are no more of them than rows |
| `MealTable.WhereMultiset` | src/routes/meals.ts:15 | a filter keeps each selected row as often as the table holds it, and drops every other row |
| `MealTable.First` | src/routes/meals.ts:38 | `.first()` is undefined exactly on an empty result, otherwise it is the result's first row |
| `MealTable.DeleteWhere` | src/routes/meals.ts:141-146 | the delete removes every row with that id and session, and keeps every other row as often as the table held it |
| `MealTable.Assign` | src/routes/meals.ts:190-197 | an updated row keeps its id and session, takes the written `date`, `hour` and `updated_at`, and takes every supplied `name`, `description` and `inDiet` |
| `MealTable.UpdateWhere` | src/routes/meals.ts:185-197 | the update keeps the table's length and order, rewrites every row with that id and session, and leaves every other row as it was |
| `MealTable.InsertIsolation` | src/routes/meals.ts:116-124 | an insert bound to one session leaves every other session's rows as they were |
| `MealTable.InsertVisible` | src/routes/meals.ts:116-124 | an insert adds exactly the new row, at the end, to its own session's rows |
| `MealTable.DeleteIsolation` | src/routes/meals.ts:141-146 | a delete scoped to one session leaves every other session's rows as they were |
| `MealTable.DeleteNoMatch` | src/routes/meals.ts:141-148 | a delete that selects no row is a no-op |
| `MealTable.DeleteInSession` | src/routes/meals.ts:141-146 | within the session, a delete keeps exactly the session's rows with another id |
| `MealTable.DeleteOnlyMeal` | test/meals.spec.ts:160-189 | deleting a session's only meal leaves the session with no meals |
| `MealTable.DeleteCountsOne` | src/routes/meals.ts:141-146 | with unique ids, deleting an existing meal shrinks its session's meal count by exactly one |
| `MealTable.WhereUniqueIds` | src/routes/meals.ts:141-146 | a delete, being a filter, keeps ids unique |
| `MealTable.UpdateIsolation` | src/routes/meals.ts:185-197 | an update scoped to one session leaves every other session's rows as they were |
| `MealTable.UpdateThenFirst` | src/routes/meals.ts:185-197 | after an update, the row a get-one finds is the row it found before, with the update applied |
| `MealTable.UpdateKeepsInvariant` | src/routes/meals.ts:185-197 | an update keeps ids unique and keeps every row in a named session |
| `MealMetrics.OfSessionIn` | src/routes/meals.ts:58-61 | `where({ session_id, in_diet })` selects a row iff its session and its `in_diet` both match |
| `MealMetrics.GroupSize` | src/routes/meals.ts:74-76 | a `groupBy('date')` count is at most the number of rows, at least one when some row has that date, and at least one only when some row has it |
| `MealMetrics.BestDayAmong` | src/routes/meals.ts:73-79 | among the dates of the given rows, the result is a date whose group size is recorded exactly and is at least every listed date's group size |
| `MealMetrics.GroupOfRow` | src/routes/meals.ts:75-76 | a date's group is non-empty iff some row has that date |
| `MealMetrics.BestDay` | src/routes/meals.ts:73-79 | the best day is absent iff there are no rows; otherwise its amount is its date's group size, at least one, and no smaller than any date's group size |
| `MealMetrics.SessionInIsFilter` | src/routes/meals.ts:57-71 | a query on the session and one `in_diet` value is a filter of the session's rows |
| `MealMetrics.CountingIdentity` | src/routes/meals.ts:52-71 | the session's meals split into its diet meals and its not-diet meals |
| `MealMetrics.SessionMetrics` | src/routes/meals.ts:50-86 | `totalMeals` counts the session's rows and equals `totalDietMeals + totalNotDietMeals`; `bestDaySequence` is absent iff there are no diet rows, and otherwise names a date with at least one diet row whose diet count is the largest of any date |
| `MealMetrics.MetricsIsolation` | src/routes/meals.ts:50-79 | the metrics of a session depend on that session's rows only |
| `MealMetrics.OneDietMeal` | test/meals.spec.ts:97-121 | a session whose one meal is a diet meal has metrics 1, 1, 0 and that meal's date with amount 1 |
| `MealRoutes.HasSession` | src/routes/meals.ts:107 | `!sessionId` holds exactly for an absent cookie and for the empty string |
| `MealRoutes.DateHourText` | src/routes/meals.ts:103 | the template `${date} ${hour}` joins date and hour with one space; an absent value prints as `undefined` at its end of the text (the update builds the same text at line 179) |
| `MealRoutes.ResolveSession` | src/routes/meals.ts:105-114 | an absent or empty cookie issues the drawn id as the session and sets it as cookie `sessionId` with path `/` and maxAge 604800000; a present cookie is reused and nothing is set |
| `MealRoutes.NewRow` | src/routes/meals.ts:102-124 | the inserted row carries the drawn id, the resolved session, the body's name, description and `inDiet`, and the formatted date and `date hour` text |
| `MealRoutes.UpdateAssignment` | src/routes/meals.ts:175-197 | the update writes the supplied name, description and `inDiet`, a formatted date and hour even when the body omits them, and the current time |
| `MealRoutes.ListMeals` | src/routes/meals.ts:13-17 | the list holds exactly the session's rows, each as often as the table does, and no row of another session |
| `MealRoutes.GetMeal` | src/routes/meals.ts:25-40 | a non-UUID id is rejected; otherwise the result is a row with that id and session, or undefined exactly when no such row exists |
| `MealRoutes.GetMealIsolation` | src/routes/meals.ts:31-38 | get-one answers the same from the whole table as from the session's rows alone |
| `MealRoutes.CreateOpensSession` | src/routes/meals.ts:105-124 | after a create without a cookie, the newly issued session lists exactly the new row |
| `MealRoutes.CreateThenList` | test/meals.spec.ts:20-42 | a valid body posted without a cookie is listed under the new session as the only meal, with its name, its `inDiet`, and its date when the date library leaves a canonical date unchanged |
| `MealRoutes.UpdateThenGet` | test/meals.spec.ts:124-158 | after an update of an existing meal, get-one finds it with the supplied name and `inDiet` and the new `updated_at` |
| `MealRoutes.UpdateOverwritesDateAndHour` | src/routes/meals.ts:178-194 | an update whose body omits date and hour still writes `dayjs(undefined)` as the date and the formatted text `undefined undefined` as the hour |
| `MealRoutes.MealsStore.Create` | src/routes/meals.ts:90-127 | a rejected body leaves the table unchanged and returns the schema's issues; otherwise exactly one row, bound to the resolved session and carrying the drawn id, is appended, and the reply is 201 with the cookie only when a session was issued; ids stay unique |
| `MealRoutes.MealsStore.Delete` | src/routes/meals.ts:129-150 | a non-UUID id is rejected with the table unchanged; otherwise the session's rows with that id are removed, and the reply is 202 whether or not any matched |
| `MealRoutes.MealsStore.Update` | src/routes/meals.ts:152-201 | a bad id or body is rejected (the id first) with the table unchanged; otherwise the session's rows with that id are rewritten in place, and the reply is 200 whether or not any matched |

## Left out

- The Fastify server, the cookie plugin's registration and the `/test` route of `src/app.ts` are HTTP plumbing and are not modelled.
- The `checkSessionIdExists` middleware is not part of this model. Its guarantee, a non-empty session id, is a precondition of the protected routes, and its 401 reply is not modelled.
- The status code of a rejected request comes from the web framework's error handler, not from the handlers. The model returns the schema issues and no status.
- The schema issues record only which field failed. The validator's issue codes, messages and paths are not modelled. JSON values other than strings are one case, `JOther`.
- Knex, SQLite, migrations and the test harness are not modelled. The table is an in-memory sequence. `created_at` is not modelled. The insert does not write `updated_at`, and what the column holds before the first update is not visible in the routes, so the model keeps `None` there.
- The date library is the `Formatter` parameter. Its parsing, locale and clock behaviour are not modelled.
- `randomUUID` and the clock are parameters. The drawn row id must not be in the table, and a drawn session id must be non-empty.
- The UUID test of the validator is the `isUuid` parameter.
- `MealTable.Assign`: states nothing about `name`, `description` or `inDiet` when the update omits them. What the query builder does with an `undefined` property is not visible in the source. The function body keeps the old value, but no contract or lemma relies on that.
- `MealRoutes.MealsStore.Update`: inherits that silence about omitted `name`, `description` and `inDiet` from `MealTable.Assign`.
- `MealMetrics.BestDay`: promises a date with a largest group, not which date is chosen on a tie. The database decides the order among equal counts. The function picks the earliest such date in table order.
- `MealRoutes.ListMeals`: promises the session's rows with their multiplicities, not their order. The database's default order is not specified.
- `MealRoutes.ResolveSession`: records `maxAge` as the number the handler passes. The unit the cookie library reads it in is not part of this model.
- Concurrent requests are not modelled. Writes to the same row are last-write-wins at the database, and there is nothing to verify.
- The count type the database driver returns (a number or a string) is not modelled. Counts are natural numbers.
- `updated_at` increasing strictly from one update to the next depends on the clock, which is a parameter.
