# Payments dashboard backend: ledger, statistics and admin-gated user store

This Dafny project models the two parts of the dashboard's NestJS backend that
have behaviour of their own.

- **The payment ledger** (`PaymentsService`).
  - Payments are rows with an id, an amount, a receiver, a status, a method and a creation time.
  - `createPayment` appends a row.
  - `getAll` lists the rows that meet optional filters, newest first.
  - `getOne` looks a row up by id.
  - `getStats` reduces the rows of a trailing window of eight local calendar days.
    It yields today's count, the revenue, the failure count and a per-UTC-day revenue map built by `groupByDay`.
- **The credential store and the admin gate** (`UsersService`, `UsersController`, `RolesGuard`).
  - At start-up the service seeds an `admin` account.
  - It looks users up by name, lists them without their password hashes and creates users with unique names.
  - The controller lets only an admin list or create users.
  - Both of its handlers sit behind the token guard and the role guard.

Modules, one per file:

| module | file | holds |
|---|---|---|
| `Wrappers` | wrappers.dfy | `Option` and `Result` |
| `Calendar` | calendar.dfy | day numbers over millisecond timestamps: UTC day, local day, local midnight |
| `PaymentEntity` | payment_entity.dfy | the `Payment` row, the status and method enums, the `decimal(10,2)` bound |
| `PaymentsQuery` | payments_query.dfy | the listing's filter and newest-first order, the lookup by id (pure) |
| `PaymentsStats` | payments_stats.dfy | the window, the counters, the per-day map as a function, and `GroupByDay` as a loop |
| `Payments` | payments.dfy | class `PaymentsService`: the ledger as a `seq<Payment>` plus the id sequence |
| `UsersEntity` | users_entity.dfy | the `User` row, `Role`, its default, the password-free view, username uniqueness |
| `Users` | users.dfy | class `UsersService`: the user table as a `seq<User>`, the id sequence, the hash function |
| `RolesGuard` | roles_guard.dfy | the guard's admission predicate |
| `UsersController` | users_controller.dfy | the two admin-only handlers and the guard chain in front of them |

Representation choices:

- Amounts are integer cents, so sums are exact.
  The `decimal(10,2)` column holds magnitudes below 10^10 cents.
- Timestamps are integer milliseconds since the epoch.
  The stored column keeps microseconds; "## Left out" says what that changes.
- Calendar days are integer day numbers.
  The UTC day is `t / 86400000`.
  The local day adds the server zone's fixed offset first.
- The revenue map is keyed by UTC day number, which stands for the `YYYY-MM-DD` string the code uses.
- The password hash is a function value `hash` that the user service is built with.
- The clock reading `now` is a parameter.

## Model

| member | source | states |
|---|---|---|
| Calendar.LocalMidnight | backend/src/payments/payments.service.ts:52-58 | the midnight that starts local day `d` lies on day `d`, and the millisecond before it lies on day `d - 1` |
| Calendar.AtOrAfterMidnight | backend/src/payments/payments.service.ts:52-54 | an instant is at or after the midnight starting day `d` exactly when its local day is `d` or later |
| PaymentEntity.ParseStatus | backend/src/payments/payment.entity.ts:17-18 | the status column accepts exactly "success", "failed" and "pending", and a label read back names the status it came from |
| PaymentEntity.ParseMethod | backend/src/payments/payment.entity.ts:20-21 | the method column accepts exactly "upi", "card", "bank" and "cash", and a label read back names the method it came from |
| PaymentEntity.StatusRoundTrip | backend/src/payments/payment.entity.ts:3 | every status survives storing and loading through its label |
| PaymentEntity.MethodRoundTrip | backend/src/payments/payment.entity.ts:4 | every method survives storing and loading through its label |
| PaymentsQuery.Select | backend/src/payments/payments.service.ts:32-39 | each row that meets every supplied filter is kept as often as the ledger holds it, and no other row is kept; absent filters add no condition and both date bounds are inclusive (`Matches`) |
| PaymentsQuery.InsertNewestFirst | backend/src/payments/payments.service.ts:41 | placing a row into a newest-first sequence keeps it newest first, and the result holds the old rows plus that row |
| PaymentsQuery.SortNewestFirst | backend/src/payments/payments.service.ts:41 | the result has non-increasing `createdAt` and is a permutation of the input |
| PaymentsQuery.FindById | backend/src/payments/payments.service.ts:44-46 | a found row is in the ledger with the requested id; nothing is found exactly when no row has that id |
| PaymentsStats.InRangeIffLastEightDays | backend/src/payments/payments.service.ts:52-62 | an instant is in the window exactly when its local day is today or one of the seven days before |
| PaymentsStats.WindowEdges | backend/src/payments/payments.service.ts:52-58 | a payment made seven local days ago is in the window; one made eight days ago is not |
| PaymentsStats.BetweenSelects | backend/src/payments/payments.service.ts:60-62 | the window holds each row whose `createdAt` lies in `[start, end]`, with both ends included, as often as the ledger holds it, and no other row |
| PaymentsStats.CountOnLocalDay | backend/src/payments/payments.service.ts:65 | today's count never exceeds the number of rows counted |
| PaymentsStats.CountFailed | backend/src/payments/payments.service.ts:66 | the failure count never exceeds the number of rows counted |
| PaymentsStats.StatsCountsBounded | backend/src/payments/payments.service.ts:64-71 | `totalPaymentsToday` and `failedTransactions` are each at most the number of rows in the window |
| PaymentsStats.WindowKeepsToday | backend/src/payments/payments.service.ts:60-65 | restricting the ledger to the window loses none of the rows made on today's local date |
| PaymentsStats.StatsTodayCount | backend/src/payments/payments.service.ts:65-69 | `totalPaymentsToday` is the number of ledger rows of any status made on today's local date |
| PaymentsStats.ByDayAppend | backend/src/payments/payments.service.ts:79-80 | one more row adds its amount to the entry of its UTC day, and creates the entry when the day has none |
| PaymentsStats.GroupByDay | backend/src/payments/payments.service.ts:76-83 | the loop's map has a key exactly for each UTC day holding a row, and each value is the sum of that day's amounts |
| PaymentsStats.DayOrder | backend/src/payments/payments.service.ts:78-80 | the order in which the loop creates keys lists each day that holds a row exactly once |
| PaymentsStats.ByDaySumsToTotal | backend/src/payments/payments.service.ts:64-80 | the per-day values, each day counted once, add up to the total of all amounts |
| PaymentsStats.StatsRevenueByDay | backend/src/payments/payments.service.ts:64-72 | `revenueLast7Days` has a key exactly for each UTC day holding a window row, each value is that day's total, and the values add up to `totalRevenue` |
| PaymentsStats.StatsDaysInWindow | backend/src/payments/payments.service.ts:60-79 | every key of the revenue map is a UTC day from the UTC day of the window's start to that of its end |
| PaymentsStats.StatsEmptyWindow | backend/src/payments/payments.service.ts:64-73 | with no row in the window, the three counters are zero and the revenue map is empty |
| PaymentsStats.StatsExample | backend/src/payments/payments.service.ts:48-74 | a worked snapshot: three payments made today, one of them failed, and one made ten days ago give 3 payments today, 350.00 revenue, 1 failure and a single map entry of 350.00 |
| Payments.LookupFindsTheOnlyRow | backend/src/payments/payment.entity.ts:8-9 | with ids that grow along the ledger, the lookup returns the only row with the requested id; a failed lookup means no row has it |
| Payments.PaymentsService.constructor | backend/src/payments/payments.service.ts:9-12 | a service over an existing table with increasing ids and fitting amounts satisfies the invariant |
| Payments.PaymentsService.CreatePayment | backend/src/payments/payments.service.ts:14-22 | an amount that fits the column appends exactly one row, with the given amount, receiver, method and status, the next id and the clock's time, and leaves the existing rows unchanged; the new id is used by no earlier row; an amount that does not fit is refused and nothing changes |
| Payments.PaymentsService.GetAll | backend/src/payments/payments.service.ts:24-42 | the listing is newest first and holds exactly the ledger rows that meet every supplied filter, each as often as the ledger holds it |
| Payments.PaymentsService.GetOne | backend/src/payments/payments.service.ts:44-46 | a found row has the requested id; nothing is found exactly when no row has that id; under the invariant, the row found is the only one with that id |
| Payments.PaymentsService.GetStats | backend/src/payments/payments.service.ts:48-74 | the snapshot is the window's counters and per-day map, as `StatsOf` defines them; the lemmas above state what these are |
| Payments.CreatedPaymentIsRetrievable | backend/src/payments/payments.service.ts:20-46 | the last row appended comes back unchanged from `GetOne` by its id and from the unfiltered `GetAll` |
| UsersEntity.RoleNames | backend/src/users/users.entity.ts:3 | role labels are non-empty and tell the two roles apart; only `Admin` is labelled "admin" |
| UsersEntity.AddKeepsUnique | backend/src/users/users.entity.ts:10-11 | adding a user whose username is not taken keeps usernames unique, and the name is then taken |
| Users.SeedAdminProvidesAdmin | backend/src/users/users.service.ts:19-23 | after seeding, a user named "admin" exists, whether or not one was added |
| Users.SeedAdminIdempotent | backend/src/users/users.service.ts:18-26 | seeding twice gives the same table as seeding once, whatever id and whatever password hash the second run would use |
| Users.SeedAdminKeepsUnique | backend/src/users/users.service.ts:18-23 | seeding keeps usernames unique |
| Users.UsersService.constructor | backend/src/users/users.service.ts:9-12 | a service over an existing table with unique usernames and increasing ids satisfies the invariant |
| Users.UsersService.SeedAdmin | backend/src/users/users.service.ts:18-26 | the table is unchanged when "admin" exists; otherwise exactly one user is added: "admin", with role admin and the hash of "admin123"; afterwards `FindByUsername("admin")` finds a user; the invariant is kept |
| Users.UsersService.FindByUsername | backend/src/users/users.service.ts:28-30 | a user is found exactly when one has that username, and the user found is stored under that username |
| Users.FirstNamed | backend/src/users/users.service.ts:28-30 | the scan finds a user exactly when one has that username, and the user found is in the table under that username |
| Users.UsersService.FindAll | backend/src/users/users.service.ts:32-35 | one view per stored user, in the same order, with the same id, username and role; a view has no password field |
| Users.UsersService.Create | backend/src/users/users.service.ts:37-46 | a taken username fails with "Username already exists" and changes nothing; otherwise exactly one user is appended with the next id, the username, the hash of the password and the given role, or viewer when none is given; the returned view carries the same id, username and role; usernames stay unique |
| RolesGuard.CanActivate | backend/src/users/roles.guard.ts:12-17 | the guard admits a request exactly when `request.user` is present and carries a non-empty role; a request without a user or without a role claim is never admitted |
| RolesGuard.CanActivateAnyRole | backend/src/users/roles.guard.ts:16-17 | admin and viewer alike pass the guard |
| UsersController.Admit | backend/src/users/users.controller.ts:15 | the token guard answers 401 when it attached no user; the role guard then answers 403 unless it admits the user; the request goes on exactly when the role guard admits it |
| UsersController.IsAdminOnlyForAdmin | backend/src/users/users.controller.ts:22 | a caller whose role claim is a role's label passes the admin check exactly when that role is admin |
| UsersController.GetAll | backend/src/users/users.controller.ts:20-24 | a caller whose role is not "admin" gets 403, and the store is not read; an admin gets exactly `findAll()` |
| UsersController.CreateUser | backend/src/users/users.controller.ts:26-33 | a caller whose role is not "admin" gets 403 and the store is unchanged; an admin's request goes to `create` with the body's username, password and role; a taken username gives a 500 and leaves the store, id sequence included, unchanged; a free one appends the user, advances the id sequence by one and returns its view |
| UsersController.HandleGetAll | backend/src/users/users.controller.ts:15-24 | GET /users succeeds exactly when both guards admit the caller and the caller is an admin, and it then returns `findAll()` |
| UsersController.HandleCreateUser | backend/src/users/users.controller.ts:15-33 | with no user attached the answer is 401; a user the role guard refuses, or who is not an admin, gets 403; in both cases the store is unchanged; for an admitted admin it succeeds exactly when the username is free, a taken name gives a 500 with the store unchanged, and a success appends exactly the requested user and advances the id sequence by one |

## Left out

- The JS `Date` API is not modelled. Calendar days come from integer arithmetic on millisecond timestamps.
- The server's time zone is a fixed offset, so daylight-saving changes are not modelled. `setDate`'s month rollover needs no model because day numbers are continuous.
- `getStats` reads the clock three times and the model reads it once. The model therefore does not capture a call that straddles midnight.
- The `createdAt` column is a database timestamp filled by `now()`, which keeps microseconds; the model's timestamps are whole milliseconds.
  - A row stored in the last fraction of a millisecond before local midnight (after 23:59:59.999) lies outside the statistics window, which ends at 23:59:59.999, yet its date read back in JavaScript is today.
    Such a row is then missing from `totalPaymentsToday`, `totalRevenue` and the revenue map.
    PaymentsStats.WindowKeepsToday, PaymentsStats.StatsTodayCount and PaymentsStats.InRangeIffLastEightDays hold only for millisecond timestamps.
  - A row stored after an `endDate` bound's millisecond but within the same millisecond falls outside that bound as well.
- Amounts are summed in floating point after `Number(...)`. The model sums exact integer cents.
- The per-day map's keys are day numbers, not the `YYYY-MM-DD` strings. Both name the same UTC day.
- The map can hold up to nine keys: the eight local days of the window can touch nine UTC days.
- The listing's query parameters arrive as strings. In the model:
  - An absent or empty parameter is `None`; both add no condition.
  - A status or method outside its enum, or a date the database cannot read, makes the database refuse the query. The model cannot state such an input.
  - Date bounds are timestamps.
- The database does not fix the order of rows with equal `createdAt`. The model's sort is stable.
- `getOne` and `findByUsername` return a row and the model returns the first one. With unique ids and names there is only one.
- The order of `find()` is left to the database. The model returns rows in table order.
- Payments.PaymentsService.CreatePayment: ids are promised only to be fresh and increasing. The model does not capture the gaps a refused insert leaves in the id sequence.
- `createPayment` does no validation of its own, so the model refuses only what the column refuses: an amount of 10^10 cents or more in magnitude. Rounding of sub-cent amounts is not modelled.
- The payments controller hands the raw request body to `createPayment` (backend/src/payments/payments.controller.ts:26-27), and `create` plus `save` copy every column field of it; fields that are not columns are dropped.
  - A client-supplied `id` that is already in the table makes `save` update that row instead of appending one. The model always appends under the next id.
  - A client-supplied `createdAt` is not modelled; the model stamps the clock's time.
- The user table's `role` column is a plain string column with default 'viewer'. The model gives it the two values of the `Role` type.
- A duplicate username in `create` raises a plain `Error`, which the framework answers with HTTP 500, not 409 Conflict. The model follows the code.
- The framework's generic 500 body ("Internal server error") and its logging of the thrown message are not modelled. `InternalServerError` carries no message, because the client never sees the thrown one.
- The race between `create`'s duplicate check and its insert is concurrency and is not modelled. The unique constraint would then refuse the second insert.
- bcrypt's salt and cost are not modelled. `hash` is a fixed function, so equal passwords hash alike.
- The start-up log line of `seedAdmin` is I/O and is left out.
- Token issuance and verification are not part of this model. The token guard appears only through its outcome: a user with a username and an optional role claim, or none.
- The payments controller passes routes straight to the service and is not part of this model. So are the React Native screens and the database configuration.
