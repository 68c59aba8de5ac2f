# Expense tracker API — a Dafny model

This project models the server side of a small personal expense tracker.
The tracker has:

- an Express API over a SQLite database holding a `categories` table and an
  `expenses` table;
- the zod schemas that validate every request;
- the middleware that demands an `X-Requested-With: XMLHttpRequest` header
  on state-changing requests, and the middleware that turns thrown errors
  into JSON responses;
- the month arithmetic of the web client's month picker.

The model covers these endpoints:

| endpoint | what it does |
|---|---|
| `GET /api/expenses` | filtered, newest-first, paginated listing |
| `GET /api/expenses/:id` | one expense |
| `POST /api/expenses` | create an expense |
| `PUT /api/expenses/:id` | update an expense |
| `DELETE /api/expenses/:id` | delete an expense |
| `GET /api/categories` | list categories |
| `POST /api/categories` | create a category |
| `PUT /api/categories/:id` | rename a category |
| `DELETE /api/categories/:id` | delete a category and move its expenses to `uncategorized` |
| `GET /api/metrics/month` | the dashboard report for one month |

## Files

| file | contents |
|---|---|
| `wrappers.dfy` | `Option` and `Result` |
| `text.dfy` | JavaScript string behaviour the routes rely on |
| `sql.dfy` | SQLite's `TEXT` ordering and its `LIKE` operator |
| `sorting.dfy` | a stable sort, used to model `ORDER BY` (stability proved by `SortIsStable`) |
| `jsdate.dfy` | how `new Date(year, monthIndex, day)` normalises its arguments |
| `schemas.dfy` | the zod schemas: success conditions and error messages |
| `error_handler.dfy` | `AppError` and `errorHandler` |
| `mutation_header.dfy` | `mutationHeaderMiddleware` |
| `month_selector.dfy` | `handlePrev`, `handleNext` and `formatMonth` |
| `money.dfy` | `toCents`, `toDollars` and `Math.round` |
| `store.dfy` | both tables and the integrity the routes keep |
| `expenses.dfy` | the expense routes |
| `categories.dfy` | the category routes |
| `metrics.dfy` | the month report |

`text.dfy` covers:

- ASCII case mapping;
- `trim`;
- UTF-16 length;
- `String(n)` and `padStart(2, '0')`;
- `parseInt`.

The database is a `Store.Ledger` object whose two sequence fields are the
tables. Each route becomes a module-level method that takes the ledger as a
parameter `db`:

- `ExpenseRoutes.List` and `ExpenseRoutes.Get` only read the tables and need
  nothing of them;
- `CategoryRoutes.List` is a function over the category sequence;
- the handlers that change the tables (the creates, updates and deletes) and
  `Metrics.MonthReport` require `db.Valid()`, and the changing ones keep it;
- every handler states, for each error branch, the exact thrown error, and the
  changing ones state that the tables did not change;
- on success, every handler states its result, and the changing ones state
  the new tables.

Errors are values of `ErrorHandler.Thrown`. `ErrorHandler.Classify` maps
them to the status, code and message the client sees.

## Model

| member | source | states |
|---|---|---|
| Money.Round | apps/api/src/routes/expenses.js:17 | `Math.round` on an exact amount: the unique integer r with r − ½ ≤ x < r + ½ |
| Money.ToCents | apps/api/src/routes/expenses.js:16-18 | a positive amount never stores a negative number of cents |
| Money.DollarsOfCents | apps/api/src/routes/expenses.js:16-23 | an amount with at most two decimals survives `toCents` and then `toDollars` unchanged |
| Money.CentsOfDollars | apps/api/src/routes/expenses.js:16-23 | `toCents(toDollars(c)) == c` for every integer number of cents |
| Money.ToDollars | apps/api/src/routes/expenses.js:21-23 | `cents / 100`: a hundred times the dollar amount is the number of cents, and the amount is non-negative exactly when the cents are |
| Money.RoundDiv | apps/api/src/routes/metrics.js:30 | integer rounded division: bounded by the dividend, and the nearest quotient |
| Money.RoundDivIsRound | apps/api/src/routes/metrics.js:30 | the integer rounded division equals `Math.round(a / b)` |
| Money.RoundUnique | apps/api/src/routes/expenses.js:17 | any integer within half a unit of x is `Math.round(x)` |
| Text.ToLower | apps/api/src/routes/categories.js:11 | `toLowerCase` on a character: A–Z become a–z, everything else is kept, spaces and word characters are preserved |
| Text.ToUpper | apps/api/src/routes/categories.js:16 | `toUpperCase` on a character: a–z become A–Z, everything else is kept |
| Text.CaseMapsAbsorb | apps/api/src/routes/categories.js:16 | lower-casing after upper-casing equals lower-casing, and both maps are idempotent |
| Text.Lower | apps/api/src/routes/categories.js:11 | `toLowerCase` keeps the length and maps every character |
| Text.Trim | apps/api/src/validation/schemas.js:12 | `trim` returns no longer a string that neither starts nor ends with white space |
| Text.TrimIsInfix | apps/api/src/validation/schemas.js:12 | the trimmed string is the infix of the input between a run of leading and a run of trailing white space |
| Text.TrimIdempotent | apps/api/src/validation/schemas.js:12 | trimming twice equals trimming once |
| Text.TrimLowerCommute | apps/api/src/routes/categories.js:10-12 | trimming and lower-casing commute |
| Text.JsLength | apps/api/src/validation/schemas.js:13-14 | the UTF-16 length zod counts lies between the number of code points and twice it |
| Text.JsLengthOfBmp | apps/api/src/validation/schemas.js:13-14 | for text in the Basic Multilingual Plane the UTF-16 length is the number of characters |
| Text.NatToString | apps/api/src/routes/metrics.js:20 | `String(n)`: decimal digits denoting n, with no leading zero |
| Text.PadStart2 | apps/api/src/routes/metrics.js:20 | `padStart(2, '0')`: the result ends with the input and is prefixed by zeros up to length 2 |
| Text.Pad2 | apps/api/src/routes/metrics.js:20 | `String(n).padStart(2, '0')` has no contract of its own: Pad2Digits and Pad2OfValue state that below 100 it is two digits reading back as n, and that every two digits are the padding of their value |
| Text.Pad2Digits | apps/api/src/routes/metrics.js:61 | a number below 100, stringified and padded, is two digits denoting that number |
| Text.Pad2OfValue | apps/web/src/components/MonthSelector.jsx:15 | the inverse: padding the value of any two digits gives back those digits |
| Text.TwoDigitsInjective | apps/web/src/components/MonthSelector.jsx:15 | two two-digit strings with the same value are equal |
| Text.ParseInt | apps/api/src/validation/schemas.js:42 | `parseInt(val, 10)` is NaN exactly when no digit follows the optional white space and sign |
| Text.ParseIntOfDigits | apps/api/src/validation/schemas.js:42 | `parseInt` of a string of digits is the number they denote |
| Text.ParseIntOfNumeral | apps/api/src/validation/schemas.js:42 | `parseInt` skips leading white space, reads an optional sign and the run of digits, and ignores whatever follows the first non-digit |
| Text.ParseIntSamples | apps/api/src/validation/schemas.js:42 | `parseInt(" -3")` is −3 and `parseInt("12abc")` is 12 |
| Sql.TextLeReflexive | apps/api/src/routes/categories.js:25 | SQLite's text order is reflexive |
| Sql.TextLeTotal | apps/api/src/routes/categories.js:25 | SQLite's text order is total |
| Sql.TextLeTransitive | apps/api/src/routes/categories.js:25 | SQLite's text order is transitive |
| Sql.TextLeAntisymmetric | apps/api/src/routes/categories.js:25 | SQLite's text order is antisymmetric |
| Sql.TextLe | apps/api/src/routes/categories.js:25 | SQLite compares texts so that a prefix sorts first and a proper extension after it |
| Sql.TextLeCommonPrefix | apps/api/src/routes/metrics.js:26 | a shared prefix does not change how two texts compare |
| Sql.TextLeSandwich | apps/api/src/routes/metrics.js:26 | a text between `p + x` and `p + y` starts with p, so a date range selects one month |
| Sql.TextLeTwoDigits | apps/api/src/routes/metrics.js:26 | two-digit texts compare as the numbers they denote |
| Sql.LikeAnything | apps/api/src/routes/expenses.js:32-45 | `LIKE '%'` matches every text |
| Sql.Like | apps/api/src/routes/expenses.js:32-45 | a pattern without `%` matches only texts of its own length |
| Sql.LikePrefix | apps/api/src/routes/expenses.js:32-35 | `LIKE q%` holds exactly when q is a prefix, ignoring ASCII case |
| Sql.LikeContains | apps/api/src/routes/expenses.js:42-45 | `LIKE %q%` holds exactly when q occurs somewhere, ignoring ASCII case |
| Sql.ContainsStep | apps/api/src/routes/expenses.js:42-45 | q occurs in a text exactly when it occurs at its start or in its tail |
| Sql.PrefixIgnoringCaseOfDigits | apps/api/src/routes/expenses.js:32-35 | for a month pattern (digits and dashes), ignoring case is plain prefix matching |
| Sorting.Insert | apps/api/src/routes/expenses.js:70 | one insertion step adds exactly one element |
| Sorting.InsertSorted | apps/api/src/routes/expenses.js:70 | inserting into a sorted sequence keeps it sorted |
| Sorting.Sort | apps/api/src/routes/expenses.js:70 | `ORDER BY`: the result is a permutation of the rows and is sorted |
| Sorting.SortedMembers | apps/api/src/routes/expenses.js:70 | sorting drops and invents no row |
| Sorting.SortIsStable | apps/api/src/routes/expenses.js:70 | rows that the key ranks level come out in the order they went in (a choice of the model; see the tie lines under "## Left out") |
| JsDate.FullYear | apps/web/src/components/MonthSelector.jsx:4 | `new Date` reads a year 0–99 as a year 1900–1999 with the same last two digits, so the year it uses is never 0–99, and it keeps every other year |
| JsDate.MonthOf | apps/web/src/components/MonthSelector.jsx:4 | `new Date(y, m, 1)` rolls an out-of-range month index into a valid month at the same absolute month number |
| JsDate.DaysIn | apps/api/src/routes/metrics.js:18 | month lengths of the Gregorian calendar, with February 29 days exactly in leap years |
| JsDate.LastDayBefore | apps/api/src/routes/metrics.js:18 | day 0 of a month, `new Date(y, m, 0).getDate()`, is always a month length, 28–31 |
| JsDate.LastDayBeforeIsLength | apps/api/src/routes/metrics.js:18 | `new Date(y, m, 0).getDate()` is the length of month m |
| Schemas.PaymentMethodOf | apps/api/src/validation/schemas.js:32 | only CARD, CASH and OTHER are payment methods |
| Schemas.IsDateText | apps/api/src/validation/schemas.js:27-28 | a date that matches `^\d{4}-\d{2}-\d{2}$` has ten characters and a YYYY-MM prefix |
| Schemas.IsMonthText | apps/api/src/validation/schemas.js:43 | `^\d{4}-\d{2}$` holds exactly of seven characters: four digits, a dash and two digits |
| Schemas.IsUuid | apps/api/src/validation/schemas.js:20 | a UUID has 36 characters with dashes exactly at positions 8, 13, 18 and 23 |
| Schemas.NameIssues | apps/api/src/validation/schemas.js:10-15 | a category name has no issues exactly when its trimmed UTF-16 length is 1–50 |
| Schemas.ParseCategoryName | apps/api/src/validation/schemas.js:10-15 | accepts exactly the names whose trimmed length is 1–50, returns the trimmed name, and reports "required" for a blank name and "too long" otherwise |
| Schemas.ExpenseIssues | apps/api/src/validation/schemas.js:24-33 | the issue list of an expense body is empty exactly when all six field rules hold, has at most six issues, and starts with the message of the first failing field |
| Schemas.ParseExpenseBody | apps/api/src/validation/schemas.js:24-33 | accepts exactly the bodies meeting all six field rules, trims the optional texts, and otherwise reports the issue list of `Schemas.ExpenseIssues`, whose first message is the first failing field in declaration order (amount, date, category, merchant, description, payment method) |
| Schemas.ParseId | apps/api/src/validation/schemas.js:19-21 | accepts exactly the UUIDs, returns the id, and otherwise reports the given message |
| Schemas.ParsePage | apps/api/src/validation/schemas.js:42 | a missing or empty page is 1, and any other page is `parseInt` of it |
| Schemas.ParsePageOfDigits | apps/api/src/validation/schemas.js:42 | a page written in digits is the number it denotes |
| Schemas.QueryIssues | apps/api/src/validation/schemas.js:43-45 | the query has no issue exactly when month, category and search text are valid, and a bad month is reported first, then a bad category, then a search text over 100 characters |
| Schemas.ParseExpenseQuery | apps/api/src/validation/schemas.js:41-46 | accepts a query exactly when its month, category and search text are valid, trims the search text, and otherwise reports the issues of `Schemas.QueryIssues` |
| Schemas.ParseMetricsMonth | apps/api/src/validation/schemas.js:49-51 | accepts exactly the YYYY-MM texts, and otherwise reports "Required" or the format message |
| Schemas.ParseLogin | apps/api/src/validation/schemas.js:4-7 | accepts exactly a valid email with a non-empty password, and reports the email error first |
| Schemas.PasswordRequired | apps/api/src/validation/schemas.js:6 | an accepted login never has an empty password |
| ErrorHandler.NewAppError | apps/api/src/middleware/errorHandler.js:33-39 | `AppError` defaults to status 400 and code ERROR |
| ErrorHandler.AppError | apps/api/src/middleware/errorHandler.js:33-39 | an `AppError` with a status answers with that status, its message and its code, or ERROR for an empty code |
| ErrorHandler.Classify | apps/api/src/middleware/errorHandler.js:1-31 | a zod error gives 400 VALIDATION_ERROR with its first issue, an error with a status passes its status, message and code through, and anything else gives 500 SERVER_ERROR |
| ErrorHandler.AppErrorDefaults | apps/api/src/middleware/errorHandler.js:15-22 | an `AppError` with only a message answers 400 ERROR with that message |
| ErrorHandler.ServerErrorHidesMessage | apps/api/src/middleware/errorHandler.js:25-30 | every unexpected error gives the same response, and it hides the error's message |
| ErrorHandler.ValidationBeforeStatus | apps/api/src/middleware/errorHandler.js:5-12 | a zod error answers 400 whatever status it carries |
| MutationHeader.Gate | apps/api/src/middleware/mutationHeader.js:3-15 | a request passes exactly when it is not POST, PUT or DELETE or carries the exact header, and a request that does not pass gets 400 INVALID_REQUEST |
| MutationHeader.HasRequiredHeader | apps/api/src/middleware/mutationHeader.js:7-9 | the header test has no contract of its own: ValueIsCaseSensitive shows it compares the value exactly, and GateIgnoresEverythingElse that it reads that one header only |
| MutationHeader.GateIgnoresEverythingElse | apps/api/src/middleware/mutationHeader.js:3-15 | the decision depends only on the method and on that one header |
| MutationHeader.OtherMethodsPass | apps/api/src/middleware/mutationHeader.js:4 | GET, PATCH, HEAD and OPTIONS always pass |
| MutationHeader.ValueIsCaseSensitive | apps/api/src/middleware/mutationHeader.js:9 | a lower-case `xmlhttprequest` is refused |
| MonthSelector.FirstDash | apps/web/src/components/MonthSelector.jsx:3 | `split('-')` cuts at the first dash |
| MonthSelector.ParseValue | apps/web/src/components/MonthSelector.jsx:3 | `value.split('-').map(Number)` gives a year and a month that are never negative |
| MonthSelector.FormatMonth | apps/web/src/components/MonthSelector.jsx:14-16 | `formatMonth` puts a dash before two digits that denote the month |
| MonthSelector.NextStep | apps/web/src/components/MonthSelector.jsx:8-12 | outside years 0–99, the next month is the calendar successor, and December rolls into January of the next year |
| MonthSelector.PrevStep | apps/web/src/components/MonthSelector.jsx:2-6 | outside years 0–99, the previous month is the calendar predecessor, and January rolls back to December |
| MonthSelector.Next | apps/web/src/components/MonthSelector.jsx:10 | `new Date(year, month, 1)` is a valid month, one absolute month after the start |
| MonthSelector.Prev | apps/web/src/components/MonthSelector.jsx:4 | `new Date(year, month - 2, 1)` is a valid month, one absolute month before the start |
| MonthSelector.HandleNext | apps/web/src/components/MonthSelector.jsx:8-12 | on a valid value with a year of at least 100, the new value is well formed and names the calendar successor |
| MonthSelector.HandlePrev | apps/web/src/components/MonthSelector.jsx:2-6 | on a valid value with a year of at least 100, the new value is well formed and names the calendar predecessor |
| MonthSelector.PrevOfNext | apps/web/src/components/MonthSelector.jsx:2-12 | going forward and then back returns to the start, for years ≥ 100 |
| MonthSelector.NextOfPrev | apps/web/src/components/MonthSelector.jsx:2-12 | going back and then forward returns to the start, for years ≥ 100 except January of year 100 |
| MonthSelector.SplitParts | apps/web/src/components/MonthSelector.jsx:3 | splitting `y-m` gives back y and m |
| MonthSelector.ParseFormat | apps/web/src/components/MonthSelector.jsx:3-16 | parsing a formatted month gives back the month |
| MonthSelector.PrevOfNextValue | apps/web/src/components/MonthSelector.jsx:2-16 | on a value written as `formatMonth` writes it, with a year ≥ 100, Prev after Next gives the same picker value |
| MonthSelector.TwoDigitYearJump | apps/web/src/components/MonthSelector.jsx:4-10 | a year below 100 is read as 19xx: stepping forward from 0050-05 lands in 1950, stepping back from 0100-01 gives 0099-12, and stepping forward from that gives 2000-01 |
| MonthSelector.TwoDigitYearValue | apps/web/src/components/MonthSelector.jsx:2-16 | `handleNext` and then `handlePrev` on "0050-05" give a value that reads as 1950-05, not "0050-05" |
| Store.Keys | apps/api/src/db/migrate.js:16-39 | every row's key is among the column's values |
| Store.KeysIndex | apps/api/src/db/migrate.js:16-39 | a value is in the column exactly when some row carries it |
| Store.UniqueCons | apps/api/src/db/migrate.js:19-20 | a unique column stays unique under a new row exactly when the new key is unused |
| Store.UniqueSnoc | apps/api/src/db/migrate.js:19-20 | appending a row with an unused key keeps the column unique and adds one key |
| Store.SameKeys | apps/api/src/db/migrate.js:19-20 | an update that keeps every key keeps the column's values and their uniqueness |
| Store.Lookup | apps/api/src/routes/expenses.js:180 | `SELECT ... WHERE key = ?` finds nothing exactly when no row has the key, and otherwise a row with that key |
| Store.LookupUnique | apps/api/src/routes/expenses.js:180 | under a unique key, the lookup returns the very row with that key |
| Store.LookupIndex | apps/api/src/routes/categories.js:70 | under a unique key, the row a lookup finds sits at an index carrying that key |
| Store.DeleteWhere | apps/api/src/routes/expenses.js:243 | `DELETE ... WHERE key = ?` removes exactly the rows with that key, and removes one row when the key is unique and present |
| Store.AppendKeepsIntegrity | apps/api/src/routes/expenses.js:135-148 | inserting a row with an unused id, a known category and a valid amount and date keeps the integrity invariant |
| Store.Integrity | apps/api/src/db/migrate.js:16-39 | under the integrity invariant (keys, unique names, foreign keys), every expense's category can be looked up |
| Store.Ledger.constructor | apps/api/src/db/migrate.js:16-39 | a freshly migrated database has empty tables and meets the integrity invariant |
| ExpenseRoutes.CategoryNameOf | apps/api/src/routes/expenses.js:64-68 | the LEFT JOIN finds a category name exactly when the category exists |
| ExpenseRoutes.Views | apps/api/src/routes/expenses.js:74-78 | each listed row becomes its view, in order |
| ExpenseRoutes.View | apps/api/src/routes/expenses.js:74-78 | a listed row keeps the expense, has a category name exactly when its category exists, and its dollar amount converts back to its cents |
| ExpenseRoutes.ViewOfStored | apps/api/src/routes/expenses.js:113-118 | a stored expense always shows its category's name, and its dollar amount converts back to the stored cents |
| ExpenseRoutes.BuildWhere | apps/api/src/routes/expenses.js:29-45 | the assembled WHERE clause holds of an expense exactly when the query's filters match it, with at most three conditions |
| ExpenseRoutes.MatchesMeansWanted | apps/api/src/routes/expenses.js:32-45 | for a search text with no wildcards, the filters mean: the date is in the month, the category is the category, and the merchant or description contains the text ignoring case |
| ExpenseRoutes.Select | apps/api/src/routes/expenses.js:69 | the WHERE clause keeps exactly the rows it holds of |
| ExpenseRoutes.Matching | apps/api/src/routes/expenses.js:49-53 | the counted rows are exactly the stored rows the query matches |
| ExpenseRoutes.SelectIsMatching | apps/api/src/routes/expenses.js:49-72 | the SQL selection equals the reference selection by the query |
| ExpenseRoutes.NewerOrSame | apps/api/src/routes/expenses.js:70 | the key `date DESC, created_at DESC` has no contract of its own: NewerOrSameIsPreorder proves it a total preorder |
| ExpenseRoutes.NewerOrSameTransitive | apps/api/src/routes/expenses.js:70 | the order `date DESC, created_at DESC` is transitive |
| ExpenseRoutes.NewerOrSameIsPreorder | apps/api/src/routes/expenses.js:70 | the order `date DESC, created_at DESC` is a total preorder |
| ExpenseRoutes.NewestFirst | apps/api/src/routes/expenses.js:70 | the listing is a permutation of the selection, newest first |
| ExpenseRoutes.Offset | apps/api/src/routes/expenses.js:47 | for a page of 1 or more the offset is a non-negative multiple of 20 below 20 × page, and a page below 1 gives a negative offset |
| ExpenseRoutes.Limit | apps/api/src/routes/expenses.js:71 | `LIMIT n OFFSET k` is the slice at k of at most n rows, empty beyond the end, and a negative offset skips nothing |
| ExpenseRoutes.TotalPages | apps/api/src/routes/expenses.js:83 | `Math.ceil(total / 20)`: zero pages for no rows, otherwise the least page count that holds them all |
| ExpenseRoutes.RowOnItsPage | apps/api/src/routes/expenses.js:47-83 | row i appears on page i / 20 + 1, and that page is within the page count |
| ExpenseRoutes.PageSizes | apps/api/src/routes/expenses.js:47-83 | every page before the last is full, and pages beyond the last are empty |
| ExpenseRoutes.List | apps/api/src/routes/expenses.js:26-86 | validation errors, a 500 for a page that is not a number, and otherwise the newest-first page of the matching rows with the total and the page count |
| ExpenseRoutes.ListedAreWanted | apps/api/src/routes/expenses.js:26-86 | every listed expense is stored and meets every filter of a literal query |
| ExpenseRoutes.PageIsNewestFirst | apps/api/src/routes/expenses.js:70-71 | every page is sorted newest first |
| ExpenseRoutes.NullIfEmpty | apps/api/src/routes/expenses.js:142-144 | `text || null`: a stored text is never empty, an absent or empty text is stored as null, and a non-empty text is stored as it is |
| ExpenseRoutes.ReviseWhere | apps/api/src/routes/expenses.js:194-207 | `UPDATE ... WHERE id = ?` revises exactly the rows with that id |
| ExpenseRoutes.NewExpense | apps/api/src/routes/expenses.js:135-148 | the inserted row has no contract of its own: NewExpenseStoresInput states its columns |
| ExpenseRoutes.NewExpenseStoresInput | apps/api/src/routes/expenses.js:131-148 | a new row carries the id, `toCents` of the amount, the input fields and both timestamps equal to now, and an amount with at most two decimals reads back unchanged |
| ExpenseRoutes.Revised | apps/api/src/routes/expenses.js:194-207 | the updated row has no contract of its own: ReviseChangesOneRow states that it keeps `id` and `created_at`, takes `updated_at` from now and the other columns from the input |
| ExpenseRoutes.ReviseChangesOneRow | apps/api/src/routes/expenses.js:194-207 | under a unique id, an update changes exactly one row and keeps every id |
| ExpenseRoutes.ReviseKeepsIntegrity | apps/api/src/routes/expenses.js:186-207 | an update with an existing category and a valid amount and date keeps the integrity invariant |
| ExpenseRoutes.Get | apps/api/src/routes/expenses.js:89-119 | an invalid id gives a validation error, an unknown id gives 404, and otherwise the view of the stored row with that id |
| ExpenseRoutes.Create | apps/api/src/routes/expenses.js:122-173 | validation error, then 400 INVALID_CATEGORY, and otherwise the new row is appended and returned, with the tables unchanged on every error |
| ExpenseRoutes.Update | apps/api/src/routes/expenses.js:176-232 | checks in the source's order (id, body, 404, category), and otherwise rewrites every column of that row except id and created_at, sets updated_at to now and returns the row, with the tables unchanged on every error |
| ExpenseRoutes.Delete | apps/api/src/routes/expenses.js:235-246 | an invalid or unknown id leaves the table unchanged, and otherwise exactly that row is removed |
| CategoryRoutes.FormatName | apps/api/src/routes/categories.js:10-12 | a formatted name has no upper-case letter, no surrounding white space, and is no longer than the input |
| CategoryRoutes.FormatNameIdempotent | apps/api/src/routes/categories.js:10-12 | formatting a formatted name changes nothing |
| CategoryRoutes.FormatNameOfTrim | apps/api/src/routes/categories.js:10-12 | formatting ignores prior trimming and prior lower-casing, so schema trimming does not change the stored name |
| CategoryRoutes.Capitalize | apps/api/src/routes/categories.js:15-17 | a capitalised word keeps its length, its first character is not a lower-case letter and no later character is upper-case |
| CategoryRoutes.TitleCase | apps/api/src/routes/categories.js:14-18 | `toTitleCase` keeps the length |
| CategoryRoutes.TitleCaseWord | apps/api/src/routes/categories.js:14-18 | a word starting with a word character and ended by white space is capitalised, and the rest is processed on |
| CategoryRoutes.TitleCaseKeepsNonWord | apps/api/src/routes/categories.js:14-18 | a character that cannot start a match passes through unchanged |
| CategoryRoutes.TitleCaseKeepsLetters | apps/api/src/routes/categories.js:14-18 | title case changes only letter case |
| CategoryRoutes.TitleCaseIdempotent | apps/api/src/routes/categories.js:14-18 | title-casing twice equals title-casing once |
| CategoryRoutes.ViewOf | apps/api/src/routes/categories.js:28-31 | a listed category carries its row and the title case of its name |
| CategoryRoutes.NameLe | apps/api/src/routes/categories.js:25 | the key of `ORDER BY name ASC` has no contract of its own: NameLeIsPreorder proves it a total preorder |
| CategoryRoutes.NameLeIsPreorder | apps/api/src/routes/categories.js:25 | `ORDER BY name ASC` is a total preorder |
| CategoryRoutes.List | apps/api/src/routes/categories.js:21-34 | the listing holds exactly the stored categories, in ascending name order, each with its title-cased display name |
| CategoryRoutes.NameTakenByOther | apps/api/src/routes/categories.js:81-84 | the duplicate query has no contract of its own: OwnNameIsFree shows that a category's own name never counts as taken |
| CategoryRoutes.OwnNameIsFree | apps/api/src/routes/categories.js:81-84 | a category's own name is never "taken by another" |
| CategoryRoutes.RenameWhere | apps/api/src/routes/categories.js:86 | `UPDATE categories SET name` renames exactly the row with that id |
| CategoryRoutes.Reassign | apps/api/src/routes/categories.js:119 | `UPDATE expenses SET category_id` moves exactly the rows of the deleted category |
| CategoryRoutes.ReassignMovesAll | apps/api/src/routes/categories.js:119 | after reassignment no expense refers to the old category, and the expense ids are unchanged |
| CategoryRoutes.ReassignKeepsRows | apps/api/src/routes/categories.js:119 | moving expenses onto another known category leaves every expense referring to a category other than the deleted one, with its amount and date intact |
| CategoryRoutes.Create | apps/api/src/routes/categories.js:37-62 | validation error, then 400 DUPLICATE for a taken formatted name, and otherwise the new row is appended with the formatted name and returned title-cased |
| CategoryRoutes.Rename | apps/api/src/routes/categories.js:65-96 | checks in the source's order (id, name, 404, reserved, duplicate), renames only that row, keeps its creation time, and renaming to its own name succeeds |
| CategoryRoutes.RenameKeepsIntegrity | apps/api/src/routes/categories.js:81-86 | a rename to a name no other category holds keeps both keys unique and `uncategorized` in place |
| CategoryRoutes.Delete | apps/api/src/routes/categories.js:99-125 | checks in the source's order (id, 404, reserved, missing `uncategorized`), and otherwise moves the expenses to `uncategorized` and removes exactly that category |
| CategoryRoutes.DeleteKeepsIntegrity | apps/api/src/routes/categories.js:113-122 | reassigning and then deleting keeps every foreign key satisfied and `uncategorized` in place |
| Metrics.YearOf | apps/api/src/routes/metrics.js:17 | the year read from the month token is below 10000 |
| Metrics.MonthNumberOf | apps/api/src/routes/metrics.js:17 | the month number read from the token is below 100 and pads back to the token's two digits |
| Metrics.DaysInMonth | apps/api/src/routes/metrics.js:17-18 | the length of the requested month is 28–31 |
| Metrics.DaysInMonthIsLength | apps/api/src/routes/metrics.js:17-18 | for months 01–12 it is the calendar length, with a 29-day February exactly in leap years |
| Metrics.SpanOf | apps/api/src/routes/metrics.js:19-20 | the month's date range is its eight-character prefix and its number of days |
| Metrics.DateStr | apps/api/src/routes/metrics.js:61 | a day's date text has no contract of its own: DateStrShape, DateStrInjective, DateStrDistinct and DateStrMonotone state its shape, that different days give different texts, and that the texts compare as the days |
| Metrics.MonthStart | apps/api/src/routes/metrics.js:19 | `${month}-01` has no contract of its own: DateStrInMonth and InMonthIsDateStr use it as the date of day 1 |
| Metrics.MonthEnd | apps/api/src/routes/metrics.js:20 | the date of the last day has no contract of its own: DateStrInMonth and InMonthIsDateStr show that the range it closes holds the last day and no later one |
| Metrics.InMonth | apps/api/src/routes/metrics.js:26 | the TEXT range test has no contract of its own: RangeIsMonthDays shows a valid date passes exactly when it is one of the month's days |
| Metrics.DateStrShape | apps/api/src/routes/metrics.js:61 | a day's date text has ten characters and starts with the month prefix |
| Metrics.DateStrInjective | apps/api/src/routes/metrics.js:61 | different days have different date texts |
| Metrics.DateStrMonotone | apps/api/src/routes/metrics.js:19-26 | date texts compare as their days |
| Metrics.DateStrInMonth | apps/api/src/routes/metrics.js:19-26 | every day from 1 to the month's length falls in the `date >= start AND date <= end` range |
| Metrics.InMonthIsDateStr | apps/api/src/routes/metrics.js:19-26 | a valid date in the range is the date text of one of the month's days |
| Metrics.RangeIsMonthDays | apps/api/src/routes/metrics.js:19-26 | the range holds a valid date exactly when the date is one of the month's days |
| Metrics.TotalSpend | apps/api/src/routes/metrics.js:23-29 | `COALESCE(SUM(...), 0)` is 0 when nothing falls in the month, and never negative |
| Metrics.CategorySpend | apps/api/src/routes/metrics.js:33-42 | each category's spend lies between 0 and the month's total |
| Metrics.DateTotal | apps/api/src/routes/metrics.js:48-56 | a date outside the month or with no expense totals 0, and no total is negative |
| Metrics.AvgPerDay | apps/api/src/routes/metrics.js:30 | the average per day is `Math.round(total / days)` and lies between 0 and the total |
| Metrics.Series | apps/api/src/routes/metrics.js:59-67 | the first n days of the series, each with its date text and that date's total |
| Metrics.SeriesSnoc | apps/api/src/routes/metrics.js:59-67 | one loop iteration appends the next day's entry |
| Metrics.DayGroups | apps/api/src/routes/metrics.js:48-56 | `GROUP BY date` holds exactly the in-month dates that have expenses, each with its total |
| Metrics.GroupedOrZero | apps/api/src/routes/metrics.js:62-65 | `found ? found.total : 0` equals that day's total |
| Metrics.DailyData | apps/api/src/routes/metrics.js:59-67 | the zero-filling loop yields the daily series of the month |
| Metrics.DailySeries | apps/api/src/routes/metrics.js:59-67 | one entry per day of the month, entry i dated day i + 1 and carrying that date's total |
| Metrics.DailySeriesDates | apps/api/src/routes/metrics.js:59-67 | the series has one entry per day, in day order |
| Metrics.DailySeriesAscending | apps/api/src/routes/metrics.js:59-67 | the series' dates strictly ascend |
| Metrics.DailySeriesZeroDays | apps/api/src/routes/metrics.js:62-65 | a day without expenses shows 0 |
| Metrics.DatesAscend | apps/api/src/routes/metrics.js:55 | a later day has a strictly larger date text |
| Metrics.SeriesTotalIsDaySum | apps/api/src/routes/metrics.js:59-67 | the sum of the series is the sum of the day totals |
| Metrics.DaySumSplit | apps/api/src/routes/metrics.js:48-67 | the day sums split expense by expense |
| Metrics.HitsOnItsDay | apps/api/src/routes/metrics.js:48-67 | an in-month expense counts once, on its own day |
| Metrics.HitsBefore | apps/api/src/routes/metrics.js:48-67 | an expense does not count on earlier days |
| Metrics.HitsOutside | apps/api/src/routes/metrics.js:48-67 | an expense outside the month counts on no day |
| Metrics.HitsOverMonth | apps/api/src/routes/metrics.js:48-67 | over the whole month, an expense adds its amount exactly when it falls in the month |
| Metrics.DaySumIsTotal | apps/api/src/routes/metrics.js:23-67 | the day sums over the month equal the month's total |
| Metrics.DailySeriesSumsToTotal | apps/api/src/routes/metrics.js:23-67 | the daily series adds up to `totalSpend` |
| Metrics.CategoryTotals | apps/api/src/routes/metrics.js:33-42 | the LEFT JOIN gives every category, zero-spend ones included, with its month spend |
| Metrics.LargerOrSame | apps/api/src/routes/metrics.js:41 | the key of `ORDER BY total DESC` has no contract of its own: ByTotal shows it is a total preorder and sorts by it |
| Metrics.ByTotal | apps/api/src/routes/metrics.js:41 | `ORDER BY total DESC`: a permutation of the category totals, largest first |
| Metrics.FirstPositive | apps/api/src/routes/metrics.js:45 | `find(c => c.total > 0)`: none exactly when no total is positive, and otherwise a positive one |
| Metrics.TopOf | apps/api/src/routes/metrics.js:92-96 | `topCategory` is null exactly when no row was found, and otherwise carries that row's id, name and total in dollars |
| Metrics.TopCategoryIsMaximal | apps/api/src/routes/metrics.js:33-45 | there is no top category exactly when every category spent 0, and otherwise it is a category with the largest spend |
| Metrics.Percentage | apps/api/src/routes/metrics.js:104 | a share of the total lies in 0–100, and it is 0 when the total is not positive |
| Metrics.PercentageIsRound | apps/api/src/routes/metrics.js:104 | the percentage is `Math.round` of the exact quotient `total / totalSpend * 100` |
| Metrics.PercentageOfTie | apps/api/src/routes/metrics.js:104 | an exact half rounds up: 2300 of 4000 cents is 58 percent |
| Metrics.ShareAtMostAll | apps/api/src/routes/metrics.js:104 | a part never rounds to more than 100 percent |
| Metrics.ShareOf | apps/api/src/routes/metrics.js:100-105 | a breakdown entry keeps the category's id and name, its total is positive dollars converting back to its cents, and its percentage is 0–100 when its total is at most the month's |
| Metrics.Breakdown | apps/api/src/routes/metrics.js:98-105 | the breakdown lists exactly the categories with a positive total |
| Metrics.BreakdownKeepsOrder | apps/api/src/routes/metrics.js:98-105 | the filter keeps the order of the totals, so a list sorted largest total first gives a breakdown sorted largest total first |
| Metrics.BreakdownPercentages | apps/api/src/routes/metrics.js:98-105 | every breakdown percentage is 0–100, and all are 0 when nothing was spent |
| Metrics.InMonthRows | apps/api/src/routes/metrics.js:82 | the recent-expense query keeps exactly the in-month rows |
| Metrics.Recent | apps/api/src/routes/metrics.js:70-85 | `ORDER BY date DESC, created_at DESC LIMIT 10`: the first min(n, 10) of the in-month rows sorted newest first |
| Metrics.RecentShape | apps/api/src/routes/metrics.js:70-85 | at most 10 recent expenses, all stored and in the month, newest first |
| Metrics.DayAmounts | apps/api/src/routes/metrics.js:106-109 | each daily total is shown in dollars, in order |
| Metrics.ReportOf | apps/api/src/routes/metrics.js:87-114 | the report echoes the month, gives the total in dollars, an average between 0 and the total, no top category exactly when every category spent 0 and otherwise one of the categories spending the most, percentages within 0–100 listed largest total first, the series' days in order with their amounts in dollars, and at most 10 recent expenses |
| Metrics.MonthReport | apps/api/src/routes/metrics.js:12-115 | a bad month gives a validation error, and otherwise the month's report is built from the daily series the loop computes |

## Left out

- Amounts are exact rationals. `Math.round(amount * 100)` on binary floating point can differ from exact rounding by one cent for some inputs (for example 1.005). This model rounds the exact product.
- `toDollars` is an exact division. The floating-point quotient the client receives is not modelled.
- Metrics.Percentage: the share is rounded from the exact quotient. The source rounds the double `(total / totalSpend) * 100`, which can fall just below a half. For 2300 of 4000 cents the double is 57.49999999999999 and the source answers 57, while the model answers 58 (Metrics.PercentageOfTie).
- Metrics.PercentageIsRound: the equality holds for the exact quotient only, for the same reason.
- Case mapping in `toLowerCase`, `toUpperCase` and SQLite's `LIKE` covers ASCII letters only. SQLite's `LIKE` also folds only ASCII, while JavaScript's mappings cover all of Unicode.
- `trim` and `\S` use a fixed set of white-space characters that includes the common Unicode spaces.
- `String.prototype.substr` and the `replace` callback are modelled through word runs (`\w\S*`) rather than a regular-expression engine.
- The email regex of the login schema is a parameter (`emailAccepted`). The login route itself, JWT cookies, password hashing and the rate limiter are not part of this model.
- `uuidv4()` and `new Date().toISOString()` are parameters (`freshId`, `now`).
- ExpenseRoutes.Create: a fresh id that is already in use fails with a store error (500), which a v4 UUID makes practically impossible.
- CategoryRoutes.Create: a fresh id that is already in use fails the same way.
- ExpenseRoutes.List: a page that `parseInt` turns into NaN is taken to make the statement fail with a store error (500). How SQLite binds NaN is not modelled beyond that.
- ExpenseRoutes.List: rows that tie on both `date` and `created_at` keep table order. SQLite leaves that order unspecified, so the model picks one order.
- Metrics.Recent: the same tie rule applies.
- Metrics.RecentShape: the same tie rule applies.
- Metrics.ByTotal: the same tie rule applies.
- ExpenseRoutes.MatchesMeansWanted: the plain-language reading of the search holds only for search text without `%` or `_`. With wildcards, `LIKE` semantics are modelled as they are.
- CategoryRoutes.Delete: the reassignment and the deletion are one step. The source runs them as two statements outside a transaction, so a crash between them is not modelled.
- Store.Integrity: stored amounts are required to be at least 0 cents rather than more than 0. A positive amount below half a cent passes the schema but rounds to 0 cents.
- The recent expenses of the month report reuse the expense view. That view also carries `createdAt` and `updatedAt`, which the metrics query does not select.
- The report's JSON nesting (`summary`, `categoryBreakdown`, …) is flattened into one datatype.
- MonthSelector.PrevOfNext: holds for years ≥ 100 only. For years 0–99, `new Date` reads the year as 19xx, and MonthSelector.TwoDigitYearJump exhibits that.
- MonthSelector.NextOfPrev: holds for years ≥ 100 except January of year 100. Its predecessor is 0099-12, and `new Date` reads year 99 as 1999, so the next step gives 2000-01; MonthSelector.TwoDigitYearJump exhibits that.
- MonthSelector.PrevOfNextValue: holds only for a value with a year ≥ 100 written without leading zeros. On "0050-05", `handleNext` and then `handlePrev` give a value that reads as 1950-05 (MonthSelector.TwoDigitYearValue).
- Request bodies arrive already typed. `Schemas.ExpenseBody` carries a number `amount` and text fields, and `Schemas.ParseCategoryName` takes a text. An absent or wrongly typed JSON field is not modelled; zod answers those with "Required" or "Expected number, received string".
- Query parameters are single texts (`Schemas.ExpenseQueryText`). A repeated parameter such as `?q=a&q=b` is not modelled; Express delivers that as an array, which zod refuses.
- MonthSelector.HandlePrev: requires a value whose two pieces are runs of digits. The expenses page passes any `?month=` text to the picker unchecked, and for other texts `Number` gives NaN and the picker shows "NaN-NaN"; that path is not modelled.
- MonthSelector.HandleNext: the same restriction applies.
- Integers are unbounded. Three limits are not modelled: SQLite's 64-bit `INTEGER` and `SUM` overflow, the loss of precision of JavaScript numbers above 2^53 cents, and the ±275760-year range of `new Date`.
- Month tokens 00 and 13 pass the metrics schema. The model follows `new Date`'s month rollover for them, as the source does.
- Express routing, JSON serialisation, HTTP status codes of successful responses (200/201) and `console.error` logging are not modelled.
- The database connection, migrations run at start-up and the seed script are not modelled; only the constraints they declare are.
- The React rendering of the month picker (`getDisplayMonth` and the buttons) is not modelled.
- Concurrency between requests is not modelled. Each handler runs as one atomic step on the ledger.
