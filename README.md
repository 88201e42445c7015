# mybudjet ledger, modelled in Dafny

This project models the ledger core of the mybudjet backend. Each of the two
server files holds its own store, and the model shows how the route handlers
change it.

- `server.js` is the Mongo-backed server. It has three collections: `User`,
  which is unique on `id`; `Budget`, which holds one month map per
  (userId, year); and `Expense`, which holds one amount per (userId, date).
  It also has a dummy bearer-token middleware, `authenticateToken`. The model
  is the class `MongoServer.Ledger`, with one map per collection. Each handler
  becomes a method that takes the resolved user id. A `Fault` parameter says
  which awaited store call throws, if any. The middleware and the login token
  are modelled in `Auth`. The regular expressions over date strings, and the
  way the day is read back out of a date, are in `DateKeys`. `Text` models the
  JavaScript string built-ins they use: `split`, `startsWith`, `String(n)` and
  `Number(s)`.
- `server_real.js` is the in-memory server. It keeps a module-level `users`
  array and one `budgets` object that every caller shares. The model is the
  class `MemoryServer.Server`.

Handlers return a `Status` (Ok, Created, BadRequest, Unauthorized, Forbidden,
NotFound, Conflict, StorageError, NotImplemented) in place of an HTTP
response.

The main results:

- **`authenticateToken` never lets a request through.** It takes the second
  space-separated field of the header, so that field contains no space. The
  required prefix `Bearer dummy-token-for-` does contain one. So a missing
  header, or a non-empty header without a space, is answered 401. Every other
  header, including the token that login hands out, is answered 403
  (`Auth.AuthenticateAlwaysDenies`, `Auth.LoginTokenForbidden`). The corrected
  check, `Auth.DecodeHeader`, decodes the login token back to the user's `_id`.
- **Month selection by prefix is exact.** A date starts with at most one
  `<year>-<month>-` prefix. Without the trailing dash, month 1 would also
  select months 10 to 12 (`DateKeys.MonthPrefixesDisjoint`,
  `DateKeys.UndashedPrefixCollides`).
- **The resets remove what they should and nothing else.** A month reset
  leaves the other months, the other years and the other users alone. A year
  reset leaves every month of that year empty.
- **Failures are reported as one plain error.** If the second step of a
  compound reset fails, the first step stays applied, and the caller gets the
  same `StorageError` as when nothing changed.

## Model

| member | source | states |
|---|---|---|
| `Text.StartsWithConcat` | server.js:76 | `s.startsWith(prefix)` holds exactly when `s` is `prefix` followed by some rest |
| `Text.Split` | server.js:71 | `split(sep)` gives at least one field; it gives exactly one iff the separator does not occur; no field contains the separator |
| `Text.JoinSplit` | server.js:71 | joining the fields of a split with the same separator gives back the original string |
| `Text.SplitAfterField` | server.js:213 | a separator-free field followed by the separator is split off as the first field |
| `Text.StartsWithRest` | server.js:202 | a string starting with `p + x` continues after `p` with `x` |
| `Text.Digits` | server.js:202 | the decimal digits of a natural number: non-empty, all digits, no leading zero |
| `Text.Decimal` | server.js:202 | `String(n)`: begins with `-` iff `n` is negative; otherwise made only of digits |
| `Text.NumberValue` | server.js:213 | the model's partial `Number(s)`: it has a value exactly for the digit strings, the empty string (0) included, and for no other string |
| `Text.DigitsValueOfDigits` | server.js:213 | parsing the rendered digits of `n` gives back `n` |
| `Text.DecimalInjective` | server.js:202 | different integers render to different strings |
| `Text.TerminatedPrefixAt` | server.js:202 | what `startsWith(field + sep)` fixes, position by position |
| `Text.TerminatedPrefixUnique` | server.js:202 | at most one separator-free field, followed by the separator, starts a string |
| `Auth.LoginToken` | server.js:115 | the login token is `Bearer dummy-token-for-` followed by the user's `_id` |
| `Auth.BearerToken` | server.js:70-71 | the extracted token is absent iff the header is missing or is non-empty without a space; a present token never contains a space |
| `Auth.Authenticate` | server.js:69-82 | the middleware answers 401 iff the header is missing or is non-empty without a space; any other denial is 403 |
| `Auth.DropPrefix` | server.js:80 | `substring(n)`: the first `n` characters followed by the result give back the string; past the end the result is empty |
| `Auth.SpaceFreeNeverPrefixed` | server.js:76 | a string without a space never starts with `Bearer dummy-token-for-` |
| `Auth.AuthenticateAlwaysDenies` | server.js:69-82 | for every header, the middleware denies: 401 as above, and 403 for every other header; it never yields a user id |
| `Auth.LoginTokenForbidden` | server.js:71-80 | the token issued at login (server.js:115), sent back as the header, is refused with 403 |
| `Auth.PrefixedLoginTokenForbidden` | server.js:71-80 | the login token sent behind a further `Bearer ` is refused with 403 too |
| `Auth.DecodeHeader` | server.js:74-80 | corrected check: it accepts iff the whole header starts with the prefix, and then the header is the prefix followed by the returned id; a missing header is 401, anything else 403 |
| `Auth.DecodeLoginToken` | server.js:115 | under the corrected check, the login token decodes to exactly the user's `_id` |
| `DateKeys.YearPrefix` | server.js:239 | the text of `^<year>-` ends in a dash and begins with `-` iff the year is negative; the characters in between are digits that read back as the year's magnitude |
| `DateKeys.DayOf` | server.js:213 | the day has a value iff the date has a third dash field and that field is a digit string; a date without a dash has no day |
| `DateKeys.DayOfFields` | server.js:213 | for any date of three dash-free fields, the day is the number the third field spells, whatever the first two are |
| `DateKeys.DecimalDashUnique` | server.js:202 | at most one integer, rendered and followed by a dash, starts a given string |
| `DateKeys.YearPrefixesDisjoint` | server.js:239 | a date is selected by at most one year prefix `^<year>-` |
| `DateKeys.MonthPrefixesDisjoint` | server.js:202 | a date is selected by at most one month prefix of a year, so `2024-1-` never selects `2024-11-5` |
| `DateKeys.MonthPrefixWithinYear` | server.js:239 | every date a month prefix selects is also selected by the prefix of its year |
| `DateKeys.UndashedPrefixCollides` | server.js:202 | without the trailing dash, the prefix of month m would also select month 10m+k; with it, it does not |
| `DateKeys.DateRoundTrip` | server.js:60 | a canonical "YYYY-M-D" date is selected by its own month's prefix, and its third dash field reads back as its day |
| `DateKeys.Decimal2024` | server.js:202 | the year 2024 renders as "2024" |
| `DateKeys.JanuaryFifthSelected` | server.js:202-213 | "2024-1-5" is selected by month 1 of 2024 and yields day 5 |
| `DateKeys.NovemberFifthNotSelected` | server.js:202 | "2024-11-5" starts with "2024-1" but is not selected by `^2024-1-` |
| `MongoServer.DeleteExpenses` | server.js:250 | `deleteMany({userId, date: /^prefix/})` removes exactly the user's records with that prefix and keeps every other record with its amount |
| `MongoServer.DeleteOfUser` | server.js:267-269 | `deleteMany({userId})` removes exactly the user's records and keeps every other user's |
| `MongoServer.MonthDates` | server.js:205-208 | the dates `find` returns are exactly the user's dates that start with the month prefix |
| `MongoServer.Ledger.constructor` | server.js:32-65 | the three collections start out empty |
| `MongoServer.Ledger.Register` | server.js:85-101 | a taken id is 409 and changes nothing; otherwise the user is added under its id, with nickname defaulting to ''; a store error at either step is 500 and changes nothing |
| `MongoServer.Ledger.Login` | server.js:104-125 | Ok iff the id exists with that password; on success the session has the token built from `_id`, plus the name and nickname; that token is refused by `authenticateToken` and decodes to `_id` under the corrected check; otherwise 401 |
| `MongoServer.Ledger.UpsertBudget` | server.js:129-149 | a falsy year (0) or missing budgets is 400 and changes nothing; otherwise the (userId, year) entry becomes exactly the new map (replace, not merge), it is created if absent, and no other entry changes |
| `MongoServer.Ledger.LookupBudget` | server.js:158-163 | the stored month map of (userId, year), or `{}` when there is no record; a store error is 500 |
| `MongoServer.Ledger.UpsertExpense` | server.js:172-192 | an empty date or a missing amount is 400 and changes nothing (0 and negative amounts are accepted); otherwise exactly (userId, date) is set to the amount, which is returned, and no other entry changes |
| `MongoServer.Ledger.QueryMonth` | server.js:196-222 | every key is the day number of one of the user's dates with prefix `<year>-<month>-`, and its value is that date's amount; every such date with a readable day is present; when no other date names the same day, the value is exactly that date's amount |
| `MongoServer.Ledger.ResetScope` | server.js:228-258 | month 0: the (userId, year) record is deleted, then the user's expenses with prefix `<year>-`. Otherwise that month is set to 0 only in an existing record (no record is created), then the user's expenses of that month are deleted. A failure after the first step keeps the first step and reports 500 |
| `MongoServer.Ledger.ResetAll` | server.js:262-275 | every budget, then every expense, of the user is removed, and no other user's; a failure of the expense step keeps the budget deletion and reports 500 |
| `MongoServer.MonthResetKeepsOtherMonths` | server.js:250 | after a month reset, the user's expenses of every other month of the year are still there with their amounts |
| `MongoServer.MonthResetKeepsOtherYears` | server.js:250 | after a month reset, the user's expenses of every other year are still there with their amounts |
| `MongoServer.MonthResetEmptiesMonth` | server.js:250 | after a month reset, a query of that month finds nothing |
| `MongoServer.YearResetEmptiesEveryMonth` | server.js:239 | after a year reset, a query of any month of that year finds nothing |
| `MongoServer.YearResetKeepsOtherYears` | server.js:239 | after a year reset, the user's expenses of every other year are still there with their amounts |
| `MongoServer.DeleteKeepsOtherUsers` | server.js:239-250 | a prefix deletion never touches another user's expenses |
| `MemoryServer.Server.constructor` | server_real.js:12-15 | the store starts with no users and no budgets, and the distinct-id invariant holds |
| `Common.OrEmpty` | server.js:94 | `nickname \|\| ''`: a given nickname is kept as it is; the stored nickname is empty iff none was given or the given one was empty (also server.js:118, server_real.js:23 and 39) |
| `MemoryServer.Server.Find` | server_real.js:20 | `users.find(p)` returns the first user satisfying `p`, or nothing iff no user does |
| `MemoryServer.Server.Register` | server_real.js:18-25 | a taken id is 409 and changes nothing; otherwise exactly one user is appended, with nickname defaulting to ''; the ids stay pairwise distinct |
| `MemoryServer.Server.Login` | server_real.js:28-42 | Ok iff some user has this id and password; then the session holds `dummy-token-for-` + id, with that user's name and nickname; otherwise 401 |
| `MemoryServer.Server.UpsertBudget` | server_real.js:46-55 | a falsy year (0) or missing budgets is 400 and changes nothing; otherwise the entry under `String(year)` becomes exactly the new map, the only key added is `String(year)`, every entry under any other key is unchanged, and so is the entry of every other year (there is no user dimension) |
| `MemoryServer.Server.LookupBudget` | server_real.js:58-67 | Ok with the stored map iff the year has an entry with at least one key; otherwise 404 with nothing, so a stored `{}` reads as not found |
| `MemoryServer.Server.DeleteBudget` | server_real.js:70-75 | always 501; it changes nothing |

## Left out

- HTTP plumbing is left out: Express routing, cors, body-parser, dotenv, `mongoose.connect`, `app.listen`, the 404 fallback and console logging. Handlers return a `Status` in place of a response.
- The request body is not modelled as arbitrary JSON. Year, month and amount are integers, and a falsy year is 0. A missing field is `None`, and the date is `Some("")` when it is empty. Floats, `NaN` and the other `Number()` conversions are not modelled.
- `Text.NumberValue`: is partial where JavaScript's `Number()` is total. It gives no value for surrounding whitespace (" 5"), a sign, a fraction ("5.0"), an exponent ("1e1"), hexadecimal ("0x1F") or "Infinity", all of which JavaScript converts, and it does not model `NaN`.
- `Text.Decimal`: renders every integer in plain decimal, whereas JavaScript switches to exponent notation from 1e21.
- `MongoServer.Ledger.QueryMonth`: a record whose third dash field is not a digit string is left out of the result. JavaScript would store it under `NaN` or another `Number()` conversion, such as " 5" becoming 5.
- `MongoServer.Ledger.QueryMonth`: when two selected dates name the same day number, the model does not say which amount wins. The store returns documents in no promised order, and the loop picks them in any order.
- The route shadowing of `DELETE /api/budgets/all` by `/api/budgets/:year/:month?` (server.js:228, 262) is not modelled. Reset-all is a method of its own.
- `MongoServer.Ledger.LookupBudget`: models the lookup the handler intends (server.js:158-163). As written, the handler declares its parameters as `(res, req)` (server.js:153), so `req.params` is read from the response object and the handler throws before it reaches the store.
- Mongoose internals are not modelled: ObjectId casting of `userId` (the user id is an opaque string), schema validation of required fields, and Map serialisation. The `_id` of a new user is a parameter of `Register`.
- Store failures are reduced to the `Fault` parameter. Each awaited store call is either applied whole or throws, which the handler answers with 500.
- Concurrency is not modelled: the find-then-save race in register and concurrent upserts. Every operation runs sequentially.
- Passwords are stored and compared as plain strings, as the code does. Email and phone are stored only.
- In `server_real.js`, the year in POST /api/budgets is modelled as an integer stored under its decimal rendering. A year sent as some other JSON value (a non-numeric string, say) is not modelled.

## Findings

| source | as written | input that shows it | evidently intended | confidence | as-written member | corrected member |
|---|---|---|---|---|---|---|
| server.js:71-80 | the prefix test is applied to `authHeader.split(' ')[1]`, which can never contain the space that `Bearer dummy-token-for-` contains | the header `Bearer dummy-token-for-X`, which is exactly the login token of server.js:115, is answered 403; no header gets through | test the whole header for `Bearer dummy-token-for-` and take the rest as the user id | high, not executed | `Auth.AuthenticateAlwaysDenies` | `Auth.DecodeHeader` |
