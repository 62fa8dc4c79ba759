# Cost Manager: expense-tracking logic in Dafny

This project models the domain logic of the Cost Manager REST API. In that API, users
register, record cost items tagged with one of five categories, and ask for two things:
a month-by-category report of their costs, and a lifetime total. The two MongoDB
collections become one in-memory store: a class `Service.Store` with a sequence of cost
records and a sequence of user records. Each route becomes one atomic operation on that
store. Its outcome is a `Response` value (`Created`, `Ok`, `BadRequest`, `NotFound`)
rather than an HTTP response.

- `Calendar`: dates as `(year, month, day)` triples and the report's half-open month range.
  The range bounds are `new Date(year, month - 1, 1)` and `new Date(year, month, 1)`. They
  are modelled with the Date constructor's own rules: month indices carry into the year
  by floor division, and years 0..99 mean 1900..1999. No `1 <= month <= 12`
  precondition is needed for that reason. The lemmas show that each valid date falls in
  exactly one month's range, and that December rolls over into January of the next year.
- `Costs`: the cost record, the `POST /add` request with optional fields, JavaScript
  truthiness, and `CheckCost`. `CheckCost` is the guard chain: required fields, then
  category, then a positive number.
- `Report`: `GET /report`. This covers the `$match` stage, the `$group`/`$push` stage as a
  fold over the matched costs, `find` on the groups, and the `reduce` over the fixed
  category list. The lemmas relate the result to a reference definition, `ItemsOf`.
  They show that it has exactly the five keys, that it echoes the query, that each
  qualifying cost appears under its own category and every item has a source, how many
  items there are, and how one added cost changes a report.
- `Users`: `GET /users/:id` with its lifetime total, `POST /users/add` as `CheckUser`, and
  the constant `GET /about` list.
- `Service`: the `Store` class. Its `AddCost` and `CreateUser` methods carry the guard
  chains imperatively and are proved against `CheckCost` and `CheckUser`. The object
  invariant is that user ids are distinct and every stored cost is well formed.
  The module also holds lemmas that connect adding a cost to the report and to the
  summary.

The report and the summary are functions of the store's sequences, so they cannot change
the store.

The model follows what the route code does, including three behaviours a reader might
not expect:

- `POST /add` does not check that `userid` names an existing user. `CheckCost` takes no
  user store, and `Service.AddedCostTotal` shows that an unknown user stays unknown.
- `GET /report` looks up no user and does not reject a month outside 1..12. Such a month
  is carried into another year by the Date constructor, and the report is built for
  that month.
- A `sum` of `0` fails the truthiness check and is reported as "All fields are
  required", not as a non-positive sum (`Costs.ZeroSumIsMissing`).

## Model

| member | source | states |
|---|---|---|
| `Calendar.FullYear` | routes/costRoutes.js:70-71 | the Date constructor's year is never in 0..99: those years are moved up by 1900, any other year is kept |
| `Calendar.ReportStart` | routes/costRoutes.js:70 | the lower bound is a valid first day of a month, and for month 1..12 it is the 1st of that month of the full year |
| `Calendar.ReportEnd` | routes/costRoutes.js:71 | the upper bound is the first day of the month after the lower bound, so it lies strictly after it |
| `Calendar.MonthStart` | routes/costRoutes.js:70-71 | `new Date(year, index, 1)` is a valid first day of a month; an index in 0..11 gives month index+1 of the (full) year |
| `Calendar.MonthStartStep` | routes/costRoutes.js:70-71 | the end bound is the first day of the month after the start bound; month 12 rolls to January of year+1 |
| `Calendar.ReportRangeIsOneMonth` | routes/costRoutes.js:70-77 | for any year and month, a valid date is in `[start, end)` iff it has the year and month of `start` |
| `Calendar.DecemberRollsOver` | routes/costRoutes.js:70-71 | the December range runs from 1 December to 1 January of the following year |
| `Calendar.InMonthExactly` | routes/costRoutes.js:70-77 | for month 1..12, a valid date is in the range of (year, month) iff its year and month are those, so it is in exactly one month's range |
| `Costs.Present` | routes/costRoutes.js:26 | a string field is truthy iff it is given and not "" |
| `Costs.PresentJson` | routes/costRoutes.js:26 | a `sum` is truthy iff it is given and is none of the falsy scalars 0, "" and false; every positive number is truthy |
| `Costs.CheckCost` | routes/costRoutes.js:22-49 | a falsy description, category, userid or sum gives "All fields are required"; then a category outside the five gives "Invalid category" whatever the sum; then a non-number or non-positive sum gives "Sum must be a positive number"; success iff all three pass, and the record has the given fields, a well-formed category and sum, and `created_at` as given or else now |
| `Costs.ZeroSumIsMissing` | routes/costRoutes.js:26-28 | a sum of 0 is rejected as a missing field |
| `Service.Store.AddCost` | routes/costRoutes.js:22-49 | the outcome is `CheckCost`; on success the cost store grows by exactly that record, otherwise it is unchanged; users are untouched and no user lookup is made; the store invariant is kept |
| `Report.Matching` | routes/costRoutes.js:73-79 | the matched costs are exactly the stored costs of that userid whose date is in `[start, end)` |
| `Report.Push` | routes/costRoutes.js:80-91 | `$push` of a cost adds its category to the group ids and nothing else, adds a group only for a new category, and keeps group ids distinct |
| `Report.GroupAll` | routes/costRoutes.js:80-91 | the `$group` stage yields a group for exactly the categories of the matched costs, with distinct ids |
| `Report.Find` | routes/costRoutes.js:96 | `find` returns a group with the requested `_id`, and returns nothing iff no group has it |
| `Report.ItemsFor` | routes/costRoutes.js:96 | the `?.items` lookup with its `[]` fallback gives `[]` when no group has the category, and otherwise the items of a group with that id |
| `Report.Shape` | routes/costRoutes.js:94-98 | the `reduce` yields exactly the keys of the category list, each mapped to its group's items or `[]`, and leaves other keys of the accumulator alone |
| `Report.ItemsOf` | routes/costRoutes.js:80-91 | reference list of a category: every cost of that category yields its item in it, and every item in it comes from such a cost |
| `Report.PushItems` | routes/costRoutes.js:80-91 | `$push` of a cost appends its `{sum, description, day}` to its own category's list and changes no other category's list |
| `Report.GroupAllItems` | routes/costRoutes.js:80-91 | `$group` over the matched costs gives each category the items of its costs in arrival order |
| `Report.BuildReport` | routes/costRoutes.js:67-100 | the report echoes userid, year and month and has exactly the category list's keys; `ReportLists` pins down each key's list |
| `Report.ReportHasAllCategories` | routes/costRoutes.js:94-100 | the report echoes userid, year and month, and its keys are exactly food, health, housing, sport and education |
| `Report.ReportLists` | routes/costRoutes.js:73-98 | each category's list is the items of the qualifying costs of that category, in store order, and `[]` when there are none |
| `Report.ReportShowsQualifyingCost` | routes/costRoutes.js:73-98 | a stored cost of that user, with a known category and a date in (year, month), appears as its item under its own category |
| `Report.ReportItemHasSource` | routes/costRoutes.js:73-98 | every item in the report comes from a stored cost of that user and category whose date is in the range |
| `Report.ListedItemsCount` | routes/costRoutes.js:94-98 | for distinct categories, the lists hold as many items in total as there are costs of those categories |
| `Report.ReportItemCount` | routes/costRoutes.js:73-98 | the total number of items equals the number of qualifying costs whose category is one of the five |
| `Report.ReportAfterAppend` | routes/costRoutes.js:73-98 | storing one more cost appends its item to its category's list in a report iff it belongs to that user and range; no other list changes |
| `Service.ReportCountsEveryMatch` | routes/costRoutes.js:73-98 | over a store satisfying the invariant, the report has every category key and holds exactly one item per matched cost |
| `Service.AddedCostReported` | routes/costRoutes.js:40-98 | a cost accepted by add-cost is appended to its category's list in the report for its own year and month, and in no other month's report |
| `Users.FindUser` | routes/user_routes.js:19 | `findOne({ id })` returns a stored user with that id, and returns nothing iff no stored user has it |
| `Users.TotalFor` | routes/user_routes.js:25-28 | the total over a user with no costs is 0; with non-negative sums it is non-negative and at least each of the user's positive sums |
| `Users.TotalGroups` | routes/user_routes.js:25-28 | the `$group` with `_id: null` yields no document iff no cost has the userid, and otherwise one document holding the total |
| `Users.TotalOrZero` | routes/user_routes.js:31 | `totalCosts[0]?.total` with its `0` fallback is 0 without a document and the document's total otherwise (a total of 0 gives 0 either way) |
| `Users.UserSummary` | routes/user_routes.js:15-39 | NotFound "User not found" iff no user has the id; otherwise Ok with that id and the first and last name of a stored user with it |
| `Users.SummaryOfUniqueUser` | routes/user_routes.js:15-39 | with unique user ids, the summary for an id carries the names of the one stored user with it and the lifetime total |
| `Service.SummaryNamesStoredUser` | routes/user_routes.js:15-39 | over a store satisfying the invariant (unique ids, from the `unique` index on `id`), the summary names the user registered under that id |
| `Users.TotalWithoutCosts` | routes/user_routes.js:30-31 | a user with no costs has total 0 |
| `Users.SummaryTotal` | routes/user_routes.js:25-31 | the summary's total is the sum of `sum` over all of the user's costs, with no date filter, and 0 when there are none |
| `Users.TotalAfterAppend` | routes/user_routes.js:25-28 | storing one more cost raises its own user's total by its sum and leaves every other total unchanged |
| `Users.TotalSign` | routes/user_routes.js:25-31 | when all stored sums are positive, a total is non-negative, and positive iff the user has a cost |
| `Service.AddedCostTotal` | routes/user_routes.js:19-31 | after an accepted add-cost the user's summary total is the old total plus the sum; whether the user is found does not change |
| `Users.CheckUser` | routes/user_routes.js:58-76 | a falsy field gives "All fields are required"; otherwise a taken id gives "User already exists"; success iff fields are present and the id is new, with a user carrying the given fields that keeps ids distinct |
| `Users.RepeatedCreateFails` | routes/user_routes.js:67-71 | after a successful create, the same request fails with "User already exists" |
| `Service.Store.CreateUser` | routes/user_routes.js:58-76 | the outcome is `CheckUser` on the old users; on success exactly that user is appended, otherwise the users are unchanged; costs are untouched and ids stay distinct |
| `Users.About` | routes/user_routes.js:89-104 | a constant list of two members, each with non-empty names and id and an email address, with distinct ids and emails |

## Left out

- HTTP routing, the `req`/`res` objects and status codes: each route returns a `Response`
  value instead.
- The catch-all 500 answer for a thrown exception (routes/costRoutes.js:50-52,
  routes/user_routes.js:40-42). It depends on storage failures, which the in-memory store
  does not have.
- The MongoDB aggregation engine, Mongoose schemas and casting. `$match`, `$group`,
  `$push` and `$sum` are modelled by their meaning over sequences. Mongoose casting is
  not modelled: a `created_at` or `birthday` string that is not a date, or a number sent
  for a string field. `birthday` is kept as the string received. The `_id` the store
  assigns is not modelled.
- The order of groups and of items within a group: MongoDB does not promise one. The
  model uses store order.
- Time of day and time zones. The range bounds are local midnight and `$dayOfMonth`
  reads UTC. Dates are calendar triples, so `created_at` carries no time, and month
  lengths follow the Gregorian calendar.
- The coercion of `year` and `month` from query strings, and NaN or an Invalid Date.
  Year and month are integers here.
- Floating-point rounding of `sum` and `total`, and NaN sums: sums are reals.
- Concurrency: the check-then-insert race in create-user. Each request is one atomic
  step.
- The database connection and process start-up (utils/db.js, app.js): these are I/O.
  The clock reading `new Date()` in add-cost is the parameter `now`.
