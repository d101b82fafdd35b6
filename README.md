# Task manager: auth and task ownership, and the client's task derivations

This project models the REST backend and the list logic of a small task
manager. It proves properties of that model in Dafny.

- **Backend.** Users register and log in and receive a signed bearer token. A
  middleware checks that token on every private route. Each user can create,
  list, read, update and delete their own tasks.
- **Client.** The web client loads the caller's tasks. It then derives
  completion statistics, priority counts, the dashboard filters, the sorted list
  of completed tasks and the sidebar's figures.

The code does not use one rule for "this task is completed". It uses four, and
the model keeps each one as written:

| where | rule |
|---|---|
| create (`createTask`) | the string `'yes'` or the boolean `true` |
| update (`updateTask`) | `'Yes'` or `true`; a missing `completed` leaves the flag as it was |
| layout, dashboard, completed page | `true`, `1` or a string equal to `yes` ignoring case |
| sidebar | plain JavaScript truthiness |

The `Completion` module sets the four side by side. They agree on booleans,
which is what the server stores, and they disagree on `'yes'`, `'Yes'`, `1`,
`'no'` and `2`.

Modules, one per source file:
- `TaskController`: the task table, a `TaskStore` class holding `map<TaskId, Task>`.
- `UserController`: the user table, a `UserStore` class holding `map<UserId, User>`, and `CreateToken`.
- `UserModel`: the `user` schema, with its required fields and unique email.
- `Auth`: the bearer-header middleware.
- `Layout`, `Dashboard`, `CompletePage` and `Sidebar`: the client.

Supporting modules:
- `Jwt` and `Bcrypt`: abstract models of the two libraries.
- `JsValue`: dynamically typed JSON values and JavaScript truthiness.
- `ClientTask`: the task object as the client receives it.
- `Text`: digits, `split`, `startsWith` and ASCII case.
- `Seqs`: `filter`, and subsequences.
- `Percent`: the rounded percentage.
- `Wire`: what crosses between server and client: a stored task as the client receives it, the list route's body, and the `Authorization` header.
- `Scenario`: end-to-end runs through the routes.

Abstractions:
- **bcrypt** is modelled as an injective `Hash` with `Compare(p, Hash(q)) <==> p == q`.
- **`validator.isEmail`** is an opaque `string -> bool` constant of the user store.
- **A JWT** is the text `<id>:<iat>:<exp>.<signature>`.
  - The signature is a string that is injective in the key and the payload.
  - `Verify` rejects a missing token, a text that does not decode, a wrong signature, and a clock at or past `exp`.
  - A 24-hour token is `exp = iat + 86400` seconds.
- **The authenticated caller.** Every task route goes through the middleware
  (`backend/routes/taskRoute.js:7-14`), so each task handler takes the caller's
  id as a parameter.
- **Ids and times.** New `_id`s come from a per-store counter. The server clock
  (seconds) and the `createdAt` time given at insertion are parameters. The
  client's timestamps are milliseconds that have already been parsed.

Behaviour of the code that the model keeps:
- **Completion values.** Create and update accept different literals. Create
  stores `true` only for `'yes'` and `true`; update only for `'Yes'` and `true`.
  Neither accepts `1`, which the client counts as complete.
- **Task owners.** `updateTask` copies every body field, `owner` included. So
  the owner can hand a task to another user and lose access to it
  (`TaskController.UpdateCanTransferOwner`, `Scenario.HandOver`).
- **Status codes.** `updateTask` answers 400 "Task Not Found Or Not Yours" for
  a missing or foreign task. `getTaskById` and `deleteTask` answer 404.
- **Deleted users.** For a user whose record is gone, the middleware answers
  401 "User Not Found" before any user handler runs (`Scenario.Me`). The
  handlers' own replies for a missing caller are reachable only if the record
  is deleted between the two lookups:
  - 400 in `getCurrentUser`;
  - a success with no user in `updateProfile`;
  - 404 in `updatePassword`.

## Model

| member | source | states |
|---|---|---|
| `TaskController.TaskStore.Create` | backend/controller/taskController.js:4-16 | inserts exactly one new record under a fresh id, owned by the caller, with the normalised flag and the given creation time; replies 201 with it |
| `TaskController.CreateIgnoresBodyOwner` | backend/controller/taskController.js:6-14 | the stored owner is the caller whatever `owner` the body holds; changing the body's owner changes nothing |
| `Completion.CreateRoundTrip` | backend/controller/taskController.js:12 | a `completed` sent on create reads back as complete in the client exactly when it was `'yes'` or `true`; `1`, `'Yes'` and `'YES'`, which the client itself calls complete, and `'no'` read back as pending |
| `TaskController.TaskStore.List` | backend/controller/taskController.js:26-29 | replies 200 with exactly the caller's stored tasks: each once and nothing else, ordered by `createdAt` newest first |
| `TaskController.TaskStore.Get` | backend/controller/taskController.js:36-40 | returns the task only when both id and owner match; another user's task gets the same 404 "Task Not Found" as a missing id |
| `TaskController.TaskStore.Update` | backend/controller/taskController.js:47-60 | with a match, only that task changes, to the patched record, and the reply is 200 with it; otherwise the store is unchanged and the reply is 400 |
| `TaskController.UpdateCompletion` | backend/controller/taskController.js:49-52 | a supplied `completed` becomes true exactly for `'Yes'` or `true`, so `'yes'` reopens a task; an absent one keeps the flag; id and `createdAt` are untouched |
| `TaskController.UpdateCanTransferOwner` | backend/controller/taskController.js:49-57 | after owner `a` sends an update naming `b`, the filter `{_id, owner: a}` no longer matches the task and `{_id, owner: b}` does; the id is unchanged |
| `Scenario.HandOver` | backend/controller/taskController.js:36-60 | create 201, an update naming another owner 200, then the creator's read 404 and the new owner's read 200 |
| `TaskController.EmptyPatchIsIdentity` | backend/controller/taskController.js:49-56 | a body that supplies no field leaves the task as it was |
| `TaskController.PatchIdempotent` | backend/controller/taskController.js:49-56 | repeating the same update gives the same record |
| `TaskController.TaskStore.Delete` | backend/controller/taskController.js:68-72 | removes exactly the matching task of the caller; with no match, 404 and the store is unchanged |
| `UserModel.InsertConforms` | backend/model/userModel.js:3-17 | adding a record with non-empty name and email, a fresh id and an unused email keeps every record valid and emails unique |
| `UserModel.ReplaceConforms` | backend/model/userModel.js:3-17 | rewriting one record keeps the collection valid when no other record holds its email |
| `Bcrypt.CompareHash` | backend/controller/userController.js:59-61 | `compare(p, hash(q))` succeeds exactly when `p` is `q` |
| `UserController.CreateToken` | backend/controller/userController.js:6-9 | the token carries only the user id with its issue and expiry times; it verifies under the server secret for exactly the 24 hours after issue, and is refused as expired from then on |
| `UserController.UserStore.FindByEmail` | backend/controller/userController.js:55 | finds a record with that email exactly when one exists, and under the unique index it is the only record holding that email |
| `UserController.UserStore.Register` | backend/controller/userController.js:17-40 | 400 for a missing field, an invalid email or a password under 8 characters; 409 for a registered email; each leaves the store unchanged. Otherwise it stores exactly one record holding `Hash(password)` and replies 201 with a token for the new id and only id, name and email |
| `UserController.UserStore.Login` | backend/controller/userController.js:49-64 | 400 for a missing field; the same 401 "Invalid Credentials" for an unknown email and for a wrong password; otherwise 200 with a token for that user's id and the public fields |
| `UserController.UserStore.GetCurrentUser` | backend/controller/userController.js:74-80 | the caller's public fields, or 400 "User Not Found" when the record is gone |
| `Scenario.Me` | backend/routes/userRoute.js:14 | behind the middleware every refusal of `GET /me` is a 401, so the handler's 400 is never the reply; a success carries the public fields of a stored user |
| `UserController.UserStore.UpdateProfile` | backend/controller/userController.js:89-106 | 400 for a missing name or email (no format check); 409 exactly when another id holds the email, so keeping one's own email is allowed; with both fields present and no other id holding the email it succeeds; only the caller's name and email change, and a caller whose record is gone gets 200 with no user |
| `UserController.UserStore.UpdatePassword` | backend/controller/userController.js:115-131 | rejects a missing or short new password; 404 for a missing user; 401 for a wrong current password with the store unchanged; a matching current password and a new one of at least 8 characters always succeed, and then only the caller's digest changes, to `Hash(newPassword)` |
| `Jwt.Verify` | backend/middleware/auth.js:19 | a token is accepted only when present and before its `exp` |
| `Jwt.VerifySign` | backend/middleware/auth.js:19 | a token signed with the verifying key decodes to its claims, and is accepted until `exp` and refused as expired from then on |
| `Jwt.VerifyOtherKey` | backend/middleware/auth.js:19 | a token signed with any other key is refused for its signature |
| `Auth.Authenticate` | backend/middleware/auth.js:6-28 | a missing header, or one not starting with `Bearer`, gets 401 "Not Authorized, token missing"; a token that fails verification gets 401 "Token Invalid or Expired"; a valid token for a user who no longer exists gets 401 "User Not Found"; otherwise `next` is reached once, with the stored user minus the password; every refusal is a 401 |
| `Auth.BearerTokenOf` | backend/middleware/auth.js:15 | `Bearer <token>` yields the token, for any token without spaces |
| `Auth.LaxScheme` | backend/middleware/auth.js:9-15 | the prefix test needs neither the space nor an exact scheme: `Bearer<word> <token>` passes and yields the token |
| `Auth.BearerAlone` | backend/middleware/auth.js:9-15 | `Bearer` alone passes the prefix test, yields no token and fails verification |
| `Auth.IssuedTokenAccepted` | backend/middleware/auth.js:15-19 | the header built from a token issued at T verifies, up to T + 24h, to the id it was issued for |
| `Auth.IssuedTokenExpires` | backend/controller/userController.js:7-9 | from T + 24h that header is refused as expired |
| `Auth.OneHourAndTwentyFiveHours` | backend/controller/userController.js:7 | accepted at T + 1h, refused at T + 25h |
| `Wire.ListBodyReachesClient` | frontend/src/components/Layout.jsx:25-27 | the `{success, tasks}` body that `getTasks` sends gives the layout exactly the list of tasks the server sent, whatever `data` field it also carries |
| `Wire.ServerListsMissDateFilters` | frontend/src/pages/Dashboard.jsx:32-40 | stored tasks reach the client with `dueDate` and never `DueDate`, so on any list the server sends the `today` and `week` filters are empty |
| `Wire.ClientHeaderAccepted` | frontend/src/components/Layout.jsx:21-23 | the header `Bearer ${token}` the layout sends for a token issued at T passes the middleware's prefix test and verifies to that token's id until T + 24h |
| `Layout.ComputeStats` | frontend/src/components/Layout.jsx:41-56 | completed plus pending is the total; pending counts the tasks that are not complete; the percentage lies in 0..100, is 0 when nothing is complete and 100 when everything is |
| `Layout.AllDoneCountsAll` | frontend/src/components/Layout.jsx:42-49 | when every task is complete by the client's rule, the completed count is the total and pending is 0 |
| `Layout.Recent` | frontend/src/components/Layout.jsx:144 | the first min(3, n) tasks, in list order |
| `Layout.Loader.constructor` | frontend/src/components/Layout.jsx:10-12 | starts with no tasks, loading and no error |
| `Layout.Loader.BeginFetch` | frontend/src/components/Layout.jsx:15-16 | a load starts with loading on and the error cleared, the old list kept |
| `Layout.Loader.FetchTasks` | frontend/src/components/Layout.jsx:14-37 | the load always ends with loading off; success replaces the list and leaves no error; with no token, or a failed request, there is an error and the list is not replaced; a 401 calls `onLogout` |
| `Dashboard.ComputeStats` | frontend/src/pages/Dashboard.jsx:19-27 | `total` is the list length; low + medium + high ≤ total; the completed count is the layout's count |
| `Dashboard.EmptyStats` | frontend/src/pages/Dashboard.jsx:19-27 | every count of an empty list is 0 |
| `Dashboard.StatsStep` | frontend/src/pages/Dashboard.jsx:19-27 | one more task raises the total by one and each priority count by one exactly when the task's lowercased priority is that level, and the completed count by one exactly when the task is complete |
| `Dashboard.PriorityIgnoresCase` | frontend/src/pages/Dashboard.jsx:21-23 | a task with priority `High`, `HIGH` or `high` raises the high count by one |
| `Dashboard.NoPriorityCountsNothing` | frontend/src/pages/Dashboard.jsx:21-23 | a task without a priority, added to any list, leaves all three priority counts as they were |
| `Dashboard.FilteredTasks` | frontend/src/pages/Dashboard.jsx:31-51 | the result is an order-preserving subsequence of the list and holds exactly the tasks the filter keeps, each as many times as the list does |
| `Dashboard.PriorityFilterExact` | frontend/src/pages/Dashboard.jsx:42-45 | `high`, `medium` and `low` keep exactly the tasks whose lowercased priority is the filter |
| `Dashboard.OtherFilterKeepsAll` | frontend/src/pages/Dashboard.jsx:48-49 | `all`, and any other unnamed filter, keep the whole list unchanged |
| `Dashboard.WeekFilterWindow` | frontend/src/pages/Dashboard.jsx:39-40 | `week` keeps exactly the tasks with now ≤ `DueDate` ≤ now + 7 days |
| `Dashboard.DateFiltersIgnoreDueDate` | frontend/src/pages/Dashboard.jsx:32-40 | the date filters read `DueDate`, so tasks that carry only `dueDate` are all dropped |
| `CompletePage.Sort` | frontend/src/pages/CompletePage.jsx:20-36 | the sort is a permutation of its input |
| `CompletePage.SortedIsPermutationOfKept` | frontend/src/pages/CompletePage.jsx:12-36 | the page lists exactly the tasks whose completion value is listed in `[true, 1, 'yes']`, each as often as in the list |
| `CompletePage.NewestOrder` | frontend/src/pages/CompletePage.jsx:22-23 | `newest` gives non-increasing `createdAt` |
| `CompletePage.OldestOrder` | frontend/src/pages/CompletePage.jsx:24-25 | `oldest` gives non-decreasing `createdAt` |
| `CompletePage.PriorityOrder` | frontend/src/pages/CompletePage.jsx:26-32 | `priority` puts high before medium before low when every task has one of those priorities |
| `CompletePage.UnknownSortKeepsFilterOrder` | frontend/src/pages/CompletePage.jsx:33-34 | any other sort key keeps the filtered order |
| `CompletePage.CountLabel` | frontend/src/pages/CompletePage.jsx:51-52 | the label ends in `s` exactly when the count is not 1 |
| `CompletePage.LabelExamples` | frontend/src/pages/CompletePage.jsx:51-52 | 0 gives "0 tasks", 1 gives "1 task", 2 gives "2 tasks" |
| `Completion.TotalsAgree` | frontend/src/components/Sidebar.jsx:10-12 | the sidebar's total is the layout's and the dashboard's total for the same list; with no list the total, the completed count and the productivity are 0 |
| `Sidebar.CompletedTasks` | frontend/src/components/Sidebar.jsx:11 | the truthy-completed count never exceeds the total |
| `Sidebar.TruthinessExamples` | frontend/src/components/Sidebar.jsx:11 | `'no'` counts as done, while `false`, `0` and `''` do not |
| `Sidebar.Productivity` | frontend/src/components/Sidebar.jsx:12 | within 0..100; 0 with no tasks; 100 when every task is truthy-completed |
| `Sidebar.Username` | frontend/src/components/Sidebar.jsx:14 | never empty: the user's name when there is a non-empty one, else `User` |
| `Sidebar.Initial` | frontend/src/components/Sidebar.jsx:14-15 | a user with a non-empty name gets that name's first character, uppercased; anyone else gets `U` |
| `Sidebar.AnonymousInitial` | frontend/src/components/Sidebar.jsx:14-15 | with no user the initial is `U` |
| `Completion.ListedIsCompleted` | frontend/src/pages/CompletePage.jsx:13-19 | the completed page's `includes` test accepts exactly the values the layout's test accepts |
| `Completion.RulesAgreeOnBooleans` | backend/controller/taskController.js:12 | on a boolean all four rules give that boolean |
| `Completion.UpdateRoundTrip` | backend/controller/taskController.js:50-52 | a `completed` sent on update reads back as complete exactly when it was `'Yes'` or `true`, so the client's `'yes'` reopens a task; an absent one leaves the client's view as it was |
| `Completion.RulesDisagree` | backend/controller/taskController.js:51 | `'yes'`, `'Yes'`, `1`, `'no'` and `2` are each judged differently by at least two of the rules |
| `Completion.CompletedIsTruthy` | frontend/src/components/Sidebar.jsx:11 | every value the client counts as complete is truthy |
| `Completion.SidebarCountsAtLeastLayout` | frontend/src/components/Sidebar.jsx:11 | the sidebar never counts fewer completed tasks than the statistics panel |
| `Completion.ServerListsCountAlike` | frontend/src/components/Sidebar.jsx:11 | on a list the server sends, whose flags are booleans, the sidebar and the statistics panel count the same completed tasks |
| `Percent.RoundPercent` | frontend/src/components/Layout.jsx:50-51 | the result is 0 for an empty list, and otherwise the nearest integer to 100·done/total, halves rounded up |
| `Percent.PercentFacts` | frontend/src/components/Sidebar.jsx:12 | with done ≤ total the percentage is at most 100, is 0 when nothing is done, and is 100 when everything is |
| `Seqs.FilterIsSubsequence` | frontend/src/pages/Dashboard.jsx:31 | `filter` keeps the surviving elements in their original order |
| `Text.Split` | backend/middleware/auth.js:15 | `split(' ')` always gives at least one piece |
| `Scenario.RegisterLoginRegister` | backend/controller/userController.js:17-64 | register, a login with the wrong password, then the same registration again reply 201, 401 and 409 |
| `Scenario.SignIn` | backend/middleware/auth.js:6-25 | a user's freshly issued token passes the middleware as that user |
| `Scenario.ForeignRead` | backend/controller/taskController.js:36-39 | a task Alice creates with her token reads back as 404 through Bob's token |

## Left out

- Catch-all failure paths are not modelled. These are the 500 replies after a storage or driver error, and the 400 that `createTask` and `updateTask` send when saving throws. The task schema whose validation would decide that is not part of this model.
- UserController.UserStore.UpdatePassword: the short-password case is modelled as a 400 reply. As written, `res.json(400).json(...)` sends the body `400` with status 200 and then throws. The generic server-error reply without a status is left out with the other catch-all paths.
- Mongoose behaviour beyond lookups and updates is left out: `runValidators`, `select` projections, `new: true`, casting of malformed ids and body fields, and strict-mode stripping of unknown fields. Update bodies carry only the task fields, with `owner` as a user id.
- bcrypt's salt and cost, the cryptographic strength of HMAC, and the JWT header segment are not modelled. The model's signature reveals its key, which a real HMAC does not.
- `JWT_SECRET` is taken from the environment in the source. The model uses the fallback value, and one constant serves both files.
- Non-string request fields (for example a numeric password) are left out. So are Unicode case mapping beyond ASCII and UTF-16 lengths.
- An absent body field is the empty string, which the handlers treat like `undefined`.
- Floating point is left out. Percentages use exact rational rounding, so they can differ from `Math.round` on floats at a .5 boundary. Numbers are integers.
- Wire.View: a stored `dueDate` reaches the client only if it is already a timestamp number. A date string becomes no date, because date parsing is left out. A `priority` that is not a string becomes no priority.
- `Date` parsing, local time zones and daylight saving are left out.
  - `toDateString` equality (the `today` filter) is the opaque parameter `sameDay`.
  - The week is 7 × 86,400,000 ms.
  - A `null` `DueDate` (which `new Date` reads as the epoch) is not modelled.
  - A missing `createdAt` (a `NaN` comparison) is not modelled.
- CompletePage.Sort: it is a stable insertion sort, not the engine's own algorithm. For priorities outside high, medium and low, the comparator is inconsistent and the engine's order is unspecified, so the order is proved only when every task has one of the three.
- The text after the count label (" marked as completed") and all JSX rendering, styling, toasts and navigation are left out.
- The `GET` request, localStorage token reads and the `onLogout` callback are I/O. The request's outcome and the stored token are parameters of `FetchTasks`; the result records whether `onLogout` was called.
- Concurrency is left out: async interleaving, and last-write-wins between devices.
- Server setup is left out. Of the routing tables the model keeps only that every private route runs the middleware before its handler.
