# Finease transaction ledger, in Dafny

This project models the core of the Finease personal-finance backend:

- the transaction controller. It lists, adds, reads, updates and deletes a
  user's income and expense records. It also computes three reports over them:
  a summary (income, expenses, balance), per-(category, type) totals, and a
  monthly series.
- the `protect` middleware. It turns a bearer token into a local user, found by
  email or created on first sight.

Modules follow the program:

- `Ledger` and `Reports` model `controllers/transactionController.js`.
- `Auth` models `middleware/authMiddleware.js`.
- `Records` holds the record shape the controller uses.
- `Calendar` holds JavaScript's `new Date(y, m, d)` arithmetic and the
  "YYYY-MM" labels.
- `Grouping` and `Sorting` model the `$group`/`$sum` and `$sort` stages of the
  aggregation engine.
- `Common` holds the option and result types, `split`/`join` and decimal digits.

The store and the user table are classes. Their methods change the record
sequence in place, as the handlers change the collection. The list handler and
the category and monthly pipelines are declarative, so they are functions over
the record sequence. The summary's `forEach` is a method with a loop.

Each report is tied to a reference sum over the ledger that is defined
independently of the pipeline (`KindTotal`, `PairTotal`, `MonthTotal`).

## Model

| member | source | states |
|---|---|---|
| `Ledger.ListFor` | controllers/transactionController.js:8-15 | The list fails exactly when the sort path is invalid: an empty field name, or one starting with `$` other than the `$natural` key. Otherwise it holds exactly the requester's records, each as often as stored, so no other user's record ever appears. It is sorted by `sortBy`, which defaults to "date" only when absent. The order is ascending only for `order == "asc"` and descending for any other value. |
| `Ledger.AcceptedPaths` | controllers/transactionController.js:9-10 | The store accepts the default "date", `$natural` and any plain field name as a sort path. It refuses the empty path and any other `$`-prefixed name. |
| `Ledger.SortPaths` | controllers/transactionController.js:9-14 | The default "date", `$natural` and any plain field name list successfully. The empty path of `?sortBy=` and any other `$`-prefixed path are refused. |
| `Ledger.ComparatorTotalPreorder` | controllers/transactionController.js:9-10 | Every sort field and direction gives a total preorder on records, so the sort is well defined. |
| `Ledger.TransactionStore.Find` | controllers/transactionController.js:41 | `findById` returns a position holding that id, or none when no record has it. |
| `Ledger.TransactionStore.Add` | controllers/transactionController.js:21-35 | The new record's owner is the requester and its five fields are the body's, verbatim. Its id is fresh, it is appended, and the status is 201. The requester's income or expense total grows by its amount exactly when it has that type. |
| `Ledger.TransactionStore.GetById` | controllers/transactionController.js:40-49 | Succeeds iff the requester owns a record with that id, and returns that record. Otherwise it answers 404 "Transaction not found", the same for a missing record and for someone else's. |
| `Ledger.TransactionStore.Update` | controllers/transactionController.js:54-72 | For the owner, only that record changes. All five fields are overwritten (omitted ones become undefined) and the id and owner are kept. Otherwise it answers 404 and the store is unchanged. |
| `Ledger.TransactionStore.Delete` | controllers/transactionController.js:77-87 | For the owner, exactly that record is removed and the reply is "Transaction removed". Otherwise it answers 404 and the store is unchanged. |
| `Ledger.TransactionStore.Summary` | controllers/transactionController.js:92-125 | `totalIncome` and `totalExpenses` are the sums of the requester's "income" and "expense" amounts, and `balance` is their difference. An empty ledger gives all zeros. |
| `Reports.Summarize` | controllers/transactionController.js:107-118 | Under unique group keys, the assigning loop yields the total of the "income" group and of the "expense" group (0 when absent), and ignores every other group. |
| `Reports.TypeTotalsSpec` | controllers/transactionController.js:93-105 | The `$match`/`$group` stage gives at most one group per type, and the "income" or "expense" group's total is the reference sum for that type. |
| `Reports.KindTotalAppend` | controllers/transactionController.js:95-102 | For the reference per-type sum of the requester's amounts: one more record changes only the total of its own type, and only when it is the requester's. |
| `Reports.CategorySummarySpec` | controllers/transactionController.js:130-152 | There is exactly one entry per (category, type) pair present among the requester's records and none for absent pairs. Each `totalAmount` is the sum over that pair. |
| `Reports.MonthlyGroupsSpec` | controllers/transactionController.js:172-188 | The groups are sorted by (year, month), with a missing date first. There is one group per distinct (year, month, type) of the selected records, and each total is that key's reference sum. |
| `Reports.MonthlyFilterSpec` | controllers/transactionController.js:159-170 | With a month query, every group is of that month, in the year JavaScript reads from the query. |
| `Reports.MonthlySummarySpec` | controllers/transactionController.js:189-208 | Entry i renders group i. Its "YYYY-MM" label parses back to the group's month, and no two entries share a (month, type) pair. |
| `Calendar.MonthBounds` | controllers/transactionController.js:164-165 | `new Date(y, m-1, 1)` is midnight of day 1 of month m. `new Date(y, m, 0)` is midnight of the month's last day, which is the 29th for a leap-year February. A two-digit year reads as 19xx. |
| `Calendar.MakeDate` | controllers/transactionController.js:164-165 | JavaScript's date construction with month carry and day 0 always yields a real calendar date. |
| `Calendar.DaysInMonth` | controllers/transactionController.js:165 | Months have 28 to 31 days, and February has 29 exactly in Gregorian leap years. |
| `Calendar.InMonthAsWrittenIff` | controllers/transactionController.js:162-169 | The filter as written keeps a date iff it is in the requested month and is not later than midnight on that month's last day. |
| `Calendar.LastDayAfterMidnightDropped` | controllers/transactionController.js:165-168 | A record at noon on 2024-03-31 is in March, yet the "2024-03" filter drops it. |
| `Calendar.InMonthIff` | controllers/transactionController.js:164-168 | The intended filter (before the next month's first midnight) keeps exactly the dates of the requested month. |
| `Calendar.ParseMonthQuery` | controllers/transactionController.js:163 | A query read by `split("-")` yields a month number 1..12 and a non-negative year. |
| `Calendar.ParseFormat` | controllers/transactionController.js:192-203 | The "%Y-%m" label of a month reads back, as a month query, as that month. |
| `Calendar.FormatInjective` | controllers/transactionController.js:192-203 | Two months get the same "%Y-%m" label exactly when they are the same month. |
| `Records.Overwrite` | controllers/transactionController.js:60-64 | After the five assignments the record keeps its id and owner, and its fields are the body's. |
| `Records.Owned` | controllers/transactionController.js:12 | `find({user})` keeps exactly the requester's records. |
| `Grouping.GroupSum` | controllers/transactionController.js:100-104 | `$group` with `$sum` gives unique keys and exactly the keys present. Each key's total is the sum of its amounts. |
| `Grouping.AddTo` | controllers/transactionController.js:100-104 | Filing an amount under a key adds it to that key's total alone and keeps keys unique. |
| `Sorting.SortIsSorted` | controllers/transactionController.js:12-14 | Sorting by a total preorder yields a sorted permutation. |
| `Sorting.SortKeepsDistinct` | controllers/transactionController.js:186-188 | `$sort` keeps the groups' keys distinct. |
| `Common.Split` | middleware/authMiddleware.js:13 | `split` yields at least one piece, and no piece contains the separator. |
| `Common.JoinSplit` | middleware/authMiddleware.js:13 | Joining the pieces of a split gives back the string. |
| `Common.SplitJoin` | middleware/authMiddleware.js:13 | Splitting a join of separator-free pieces gives back the pieces. |
| `Auth.TokenOf` | middleware/authMiddleware.js:13 | The token is the second space-separated piece, and it holds no space. |
| `Auth.BearerToken` | middleware/authMiddleware.js:8-13 | "Bearer <t>" passes the header test and yields the token t. |
| `Auth.NoSpaceNoToken` | middleware/authMiddleware.js:8-13 | A header without a space, such as "BearerX", passes the test but yields no token. |
| `Auth.LocalPart` | middleware/authMiddleware.js:23 | `email.split('@')[0]` is the longest prefix of the email without '@'. |
| `Auth.NewUserSpec` | middleware/authMiddleware.js:21-28 | A created user has the verified email. Its name is the claim's name or else the email's local part, its photo is the claim's picture or else empty, and its password is "firebase-auth\|" followed by the uid. |
| `Auth.UserTable.FindByEmail` | middleware/authMiddleware.js:19 | `findOne({email})` finds a user iff one has that email, and returns a user with it. |
| `Auth.UserTable.Create` | middleware/authMiddleware.js:21-28 | Exactly one user is appended, built from the claims, with a fresh id. Emails stay unique. |
| `Auth.Protect` | middleware/authMiddleware.js:5-43 | With no Bearer header: 401 "no token", `next` is not called, nothing changes. With a rejected token: 401 "token failed", nothing changes. With an accepted token: the user with that email is reused, or exactly one is created. That user is attached to the request and `next` is called once. |

## Findings

| source | as written | input that shows it | evidently intended | confidence | as-written member | corrected member |
|---|---|---|---|---|---|---|
| controllers/transactionController.js:165-168 | The month filter's upper bound `new Date(year, monthNum, 0)` is midnight at the start of the month's last day, compared with `$lte`. | Query `month=2024-03` and a record dated 2024-03-31 12:00. The record is in March, but the filter drops it. | Keep every record of the month through the end of its last day. The comment says "Last day of the month". | high that the bound is midnight, medium that the exclusion is unintended; not executed | `Calendar.LastDayAfterMidnightDropped` | `Calendar.InMonthIff` |

`Reports.MonthlySummary` models the handler as written, so it keeps the
as-written filter (`Calendar.InMonthAsWritten`). The intended filter
`Calendar.InMonth` is proved to keep exactly the month's dates.

## Left out

- server.js, routes/transactionRoutes.js and config/firebaseAdmin.js are not
  part of this model. They hold the Express setup, the route table and the
  identity SDK's initialisation, with no ledger logic.
- Token verification (`admin.auth().verifyIdToken`) is a function parameter
  `verify` of `Auth.Protect`. Its cryptography is the identity provider's.
- Auth.Protect: a failing user lookup or creation (a database error) is not
  modelled. In the source it also ends in 401 "token failed".
- Auth.Protect: an error thrown by the next handler is not modelled.
- Auth.Claims: tokens without an email claim are not modelled. The result of
  `findOne({email: undefined})` depends on the query library.
- The record schema file the controller imports (`models/transactionModel.js`)
  is not part of this model. So save-time validation is not modelled: no
  required fields, no casting, no `date` default. The record shape is the one
  the controller reads and writes. models/Transaction.js is a different schema
  (it has `email`, not `user`) and is not modelled.
- The `createdAt`/`updatedAt` timestamps are not modelled. Sorting by them
  treats all records as equal.
- Amounts are integers. JavaScript numbers are floats, and rounding is not
  modelled.
- Time zones are not modelled. The filter bounds are built in local time while
  `$year`/`$month` read UTC. All dates are taken in one zone.
- Dates with a year outside 1..9999 are not modelled. That is the range of the
  engine's date operators.
- Calendar.MakeDate: a day argument above 28 is not modelled. The handler only
  passes 0 and 1.
- Reports.MonthlySummary: a malformed `month` query is not modelled (a
  precondition). Examples are a non-numeric piece, a missing `-`, or a month
  outside 1..12. In the source these give invalid or rolled-over dates.
- A malformed transaction id is not modelled. In the source it raises a cast
  error and a 500 reply. Ids are numbers here.
- Query parameters given several times (arrays) are not modelled.
- Ledger.ListFor: the status and text of the store's refusal of an invalid
  sort path are not modelled. They come from the store and the error
  middleware (middleware/errorMiddleware.js, not part of this model). The
  model answers a fixed `SortRejected` error. Field names holding a NUL
  character are not checked.
- Ledger.ListFor: under `sortBy=$natural` the store answers in stored order,
  reversed unless `order=asc`. The model accepts that sort but treats all
  records as equal, so it does not promise that order.
- The output order of `$group`, and the order of ties under `$sort` and
  `.sort()`, are not promised. The model's contracts do not fix them.
- Strings compare by code point. This matches the engine's binary comparison
  of UTF-8.
- Concurrency and lost updates between simultaneous requests are not modelled.
  Neither are `asyncHandler`, status plumbing and the error middleware beyond
  the status and message they send.
