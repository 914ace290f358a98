# Racing league API: authentication core in Dafny

This project models the authentication and scoring core of a racing-league
REST API (Express on PostgreSQL), and proves properties of that model. The
modelled parts are:

- the account flows: register, log in, refresh the access token, and enable
  or disable two-factor authentication with TOTP and one-time backup codes;
- the four request guards;
- the Admin role transitions;
- the helpers that score race results and shape API responses;
- the two handlers that join result rows onto drivers.

The PostgreSQL tables become an in-memory `Database.Store`, a class holding:

- a `users` map keyed by `user_id`;
- the `tfa_backup_codes` rows as a sequence;
- the role column's default.

The handlers that write the tables are module-level methods that take the
store as a parameter and declare `modifies` on it. Each chain of early returns is a pure function. It
returns the step the handler takes next: `LoginGate`, `DisableGate`,
`EnableGate`, `RegisterGate`. The method's `ensures` states the reply and
the new tables for every step.

Cryptography and randomness are parameters:

| parameter | stands for | notes |
|---|---|---|
| `verify` | `jwt.verify` under the access secret | None when it throws |
| `verifyRefresh` | `jwt.verify` under the refresh secret | None when it throws |
| `matches` | `bcrypt.compare` | |
| `totp` | TOTP validation with window 0 | |
| `complex` | `checkPasswordComplexity` | |
| `freshSecret` | the value of `generateBase32Secret()` | |
| `digest` | the bcrypt hash | |
| `newId` | `uuid()` | |
| `draws` | `Math.random() * 90000000`, truncated | integers in [0, 90000000) |

Modelling choices:

- A signed token is a record of its claims, its signing key and its
  lifetime in seconds.
- JavaScript's `undefined` and `null` are `Option.None`.
- An empty string is falsy, like an absent one (`Wrappers.Present`).
- A parsed position is an integer or `NaN`.
- Points are `Option<int>`. `None` is the `undefined` that
  `scores[pos - 1]` gives for a position below 1.

Files, one module each:

| file | module | contents |
|---|---|---|
| `wrappers.dfy` | `Wrappers` | `Option`, truthiness |
| `types.dfy` | `Types` | table rows, response records, claims, tokens and replies (from `src/lib/types.ts`) |
| `seqs.dfy` | `Seqs` | `Array.prototype.filter` and its laws |
| `js_strings.dfy` | `JsStrings` | JavaScript's `length`, in UTF-16 code units |
| `headers.dfy` | `Headers` | `header?.split(" ")[1]`, and `split`/`join` as inverses |
| `utils.dfy` | `Utils` | scoring, token construction, `decodeAccessToken`, response mappers |
| `database.dfy` | `Database` | the store and `getUserByEmail` |
| `auth_middleware.dfy` | `AuthMiddleware` | the guards |
| `auth_service.dfy` | `AuthService` | the account flows |
| `admin_service.dfy` | `AdminService` | grant and revoke |
| `driver_service.dfy` | `DriverService` | `getDrivers` and `getDriverById` |

## Behaviour of the code that the model keeps

The model follows the code, including these behaviours:

- **Login factors.** A login token whose length is neither 6 nor 8 is
  never checked, and the tokens are issued (`LoginGate`).
- **Token lengths are UTF-16 lengths.** Login and disable route the
  second factor by JavaScript's `length`, which counts a character above
  U+FFFF twice. The model counts the same way (`JsStrings.JsLength`).
  Three emoji therefore make a 6-unit token that goes to TOTP
  (`LoginRoutesByCodeUnits`).
- **Login failure status.** A failed second factor at login answers 404,
  not 401.
- **Enable keeps old codes.** Enabling two-factor authentication appends
  eight new code rows and deletes none of the old ones.
- **"Already enabled" is unreachable.** That check reads a `tfa` claim,
  and issued tokens never carry one. For a token the service issued, the
  check can never fire (`EnableNeverSeesTfaClaim`).
- **`authSelf` rejects every issued token.** It compares the `user_id`
  claim, but issued tokens carry `id`, so `authSelf` forbids every token
  the service issues (`AuthSelfRejectsIssuedTokens`).
- **Verification failures differ by handler:**
  - in `enableTwoFactorAuth` a throw is caught by the outer handler and
    answered with 500;
  - in `disableTwoFactorAuth` verification is outside any `try`, so the
    handler's promise rejects. The model reads this as Express 4 does: the
    rejection is ignored and the request is never answered (`NoReply`).
    Express 5 would answer 500 instead. Node 15 and later, without an
    `unhandledRejection` handler, would end the process.
- **`getDriverById` scoring is not `calculateRacePoints`.** It scores by
  position without looking at the race type. The two rules therefore
  disagree on every session that is not a Race, a "Sprint" row as much as a
  qualifying one, since `calculateRacePoints` scores those by fastest lap
  or 0 (`InlineRuleIgnoresRaceType`, `InlineRuleDiffersOffRaces`).
- **`getDriverById` shared rows.** It clears `driver` on row objects that
  the query result and the driver arrays share. In the model, a second
  driver row with an id already seen gets no results. The model does not
  require distinct driver ids; `DistinctIdsGetAllRows` states what holds
  when they are distinct.
- **Grant then revoke promotes a Guest.** Revoke always writes "User",
  so a Guest granted and then revoked comes back as a "User"
  (`GrantRevokePromotesGuest`).

## Model

| member | source | states |
|---|---|---|
| Utils.Scores | src/lib/utils.ts:16 | the points for positions 1 to 10: 25, 18, 15, 12, 10, 8, 6, 4, 2, 1 |
| Utils.PositionPoints | src/lib/utils.ts:68 | positions 1..10 score `scores[pos-1]`; above 10 or `NaN` score 0; below 1 is `undefined` |
| Utils.CalculateRacePoints | src/lib/utils.ts:60-75 | "Race" scores by position, "Qualifying" scores 1 exactly when the fastest lap is set, any other type scores 0 |
| Utils.ScoresStrictlyDecreasing | src/lib/utils.ts:16 | the `scores` table is strictly decreasing |
| Utils.PositionPointsBounded | src/lib/utils.ts:68 | race points lie between 0 and 25 |
| Utils.PositionPointsMonotone | src/lib/utils.ts:68 | a better position never scores fewer points, for all positions from 1 |
| Utils.TokenClaims | src/lib/utils.ts:28 | the signed payload is exactly `{id: user_id, email, role}`; no `user_id` or `tfa` claim |
| Utils.CreateAccessToken | src/lib/utils.ts:25-34 | the claims under the access key, valid 3600 seconds |
| Utils.CreateRefreshToken | src/lib/utils.ts:36-44 | the same claims as the access token, under the other key, valid 24 times as long (86400 seconds) |
| Utils.DecodeAccessToken | src/lib/utils.ts:50-58 | null exactly when the token is absent or empty; the payload exactly when verification succeeds; a throw exactly when it fails |
| Utils.ParseResultCompetition | src/lib/utils.ts:127-135 | competition id and name copied |
| Utils.ParseResultTrack | src/lib/utils.ts:119-125 | track id and name copied |
| Utils.ParseResultWeekend | src/lib/utils.ts:110-117 | weekend id and name copied, the competition nested |
| Utils.WithPoints | src/lib/utils.ts:92 | the row with only `points` replaced by `calculateRacePoints` of it |
| Utils.ParseDriverResults | src/lib/utils.ts:91-108 | the response's points equal `calculateRacePoints`; every shown field copied from the row |
| Utils.ParseDriverResultsDeterminesShownFields | src/lib/utils.ts:91-108 | two rows with equal responses agree on every field except `driver` and `points` |
| Utils.ParseDriverResponse | src/lib/utils.ts:77-89 | `driver_id` becomes `id`, the other fields copied, results mapped one to one and in order by `parseDriverResults` |
| Database.Store.Valid | src/lib/utils.ts:18-23 | the `users` and `tfa_backup_codes` tables; `Valid()` holds when every user is stored under its own `user_id` and no two users share an email, which are what the email lookup relies on |
| Database.SameId | src/services/authService.ts:318-323 | `WHERE user_id = $1` with a NULL parameter matches no row; otherwise it matches exactly the row with that id |
| Database.UserByEmail | src/lib/utils.ts:18-23 | none exactly when no stored user has the email; otherwise a stored user with that email |
| Database.UserByEmailFinds | src/lib/utils.ts:18-23 | with unique emails, looking up a user's email finds that user |
| Seqs.Filter | src/services/driverService.ts:29-31 | `Array.prototype.filter`: at most as long as its input, holding exactly the kept elements, in order |
| JsStrings.CodeUnits | src/services/authService.ts:132 | a character takes two UTF-16 code units exactly when it lies above U+FFFF |
| JsStrings.JsLength | src/services/authService.ts:132 | JavaScript's `length`: between the character count and twice it |
| JsStrings.JsLengthBmp | src/services/authService.ts:132 | for characters up to U+FFFF it is the character count |
| JsStrings.JsLengthAppend | src/services/authService.ts:132 | it adds up over concatenation |
| JsStrings.SurrogatePairsCountTwice | src/services/authService.ts:132 | three emoji have length 6 in JavaScript |
| Headers.Split | src/middleware/authMiddleware.ts:17 | `split(" ")` yields at least one piece and no piece contains a space |
| Headers.JoinSplit | src/middleware/authMiddleware.ts:17 | joining the pieces with spaces gives the header back |
| Headers.SplitJoin | src/middleware/authMiddleware.ts:17 | splitting a join of space-free pieces gives the pieces back |
| Headers.BearerToken | src/middleware/authMiddleware.ts:17-21 | a token exactly when the second piece exists and is non-empty; it is that piece |
| Headers.SchemeIgnored | src/middleware/authMiddleware.ts:17 | the first word is never checked: any scheme yields the same token |
| Headers.Verified | src/middleware/authMiddleware.ts:17-24 | no claims without a token; otherwise verification's result |
| AuthMiddleware.Role | src/middleware/authMiddleware.ts:4-8 | the `Role` enum: Guest, User and Admin, valued 0, 1 and 2 (`RoleValue`) |
| AuthMiddleware.Roles | src/middleware/authMiddleware.ts:10 | the `roles` array, `["Guest", "User", "Admin"]` |
| AuthMiddleware.IndexOf | src/middleware/authMiddleware.ts:26 | -1 exactly when absent, otherwise the first position of the element |
| AuthMiddleware.RoleRank | src/middleware/authMiddleware.ts:10 | -1 exactly when the role is missing or unknown, otherwise its position in `roles` |
| AuthMiddleware.RankOfRoleName | src/middleware/authMiddleware.ts:4-10 | the `roles` array and the `Role` enum agree on every role |
| AuthMiddleware.AuthAdmin | src/middleware/authMiddleware.ts:12-34 | 401 exactly when there is no token or it fails to verify; next exactly when the role is "Admin"; otherwise 403 |
| AuthMiddleware.AuthUser | src/middleware/authMiddleware.ts:36-58 | 401 exactly when there is no verified token; next exactly when the role is "User" or "Admin"; otherwise 403 |
| AuthMiddleware.AuthSelf | src/middleware/authMiddleware.ts:60-82 | 401 exactly when there is no verified token; next exactly when the `user_id` claim equals the path id; the role is never read |
| AuthMiddleware.AuthSelfOrAdmin | src/middleware/authMiddleware.ts:84-109 | 401 exactly when there is no verified token; 403 exactly when the `id` claim differs from the path id and the role ranks below Admin |
| AuthMiddleware.AdminPassesUserGuard | src/middleware/authMiddleware.ts:26-50 | whatever `authAdmin` lets through, `authUser` lets through |
| AuthMiddleware.RankGuardsByRole | src/middleware/authMiddleware.ts:26-50 | for each enum role, the rank guards pass exactly when its value reaches the required one |
| AuthMiddleware.AuthSelfRejectsIssuedTokens | src/middleware/authMiddleware.ts:74-78 | every token the service signs is forbidden by `authSelf` |
| AuthMiddleware.AdminPassesSelfOrAdmin | src/middleware/authMiddleware.ts:98-105 | an Admin token passes `authSelfOrAdmin` for every path id |
| AuthService.SessionReply | src/services/authService.ts:150-170 | a 201 reply with an access token and a refresh token for the user |
| AuthService.RegisterGate | src/services/authService.ts:25-42 | before any hashing or store access: 400 on a missing field and 400 on a weak password; it proceeds exactly when fields are present and the password is complex |
| AuthService.InsertConflicts | src/services/authService.ts:88-90 | the insert violates a unique constraint (error 23505) exactly when the new id or the email is already stored |
| AuthService.RegisterUser | src/services/authService.ts:18-94 | a refusal leaves the store alone; a duplicate id or email answers 409 and changes nothing; otherwise exactly the new row (default role, 2FA off) is added and tokens for it issued |
| AuthService.FirstMatch | src/services/authService.ts:396-401 | `rows[0]` of the select: the first row with the user id and code, or none when no row matches |
| AuthService.CodeMatches | src/services/authService.ts:397 | `user_id = $1 AND code = $2` on one row |
| AuthService.BackupCodeUsable | src/services/authService.ts:401 | the select found a row and `rows[0].is_used` is false |
| AuthService.MarkUsed | src/services/authService.ts:405-408 | every matching row marked used, every other row unchanged |
| AuthService.ConsumeOnce | src/services/authService.ts:394-414 | after a code is consumed it is never usable again |
| AuthService.ConsumeLeavesOthers | src/services/authService.ts:405-408 | consuming one code leaves every other code's usability unchanged |
| AuthService.FirstMatchAgrees | src/services/authService.ts:396-401 | tables that agree on the matching rows choose the same first match |
| AuthService.CheckBackupCode | src/services/authService.ts:394-414 | true exactly when a matching row exists and the first one is unused; then every matching row is marked used, otherwise nothing changes |
| AuthService.DigitChar | src/services/authService.ts:387 | a digit's character lies in '0'..'9' |
| AuthService.DecimalString | src/services/authService.ts:387 | `toString()` of a non-negative integer is a non-empty string of digits |
| AuthService.DecimalRoundTrip | src/services/authService.ts:387 | reading the printed number gives the number back |
| AuthService.Pow10 | src/services/authService.ts:387 | the size bound used by `DecimalLength`: the powers 10^7 and 10^8 that bound the codes built at :387 (it computes nothing there) |
| AuthService.DecimalLength | src/services/authService.ts:387 | a number in [10^k, 10^(k+1)) prints with k + 1 digits |
| AuthService.BackupCodeShape | src/services/authService.ts:387 | `floor(10000000 + draw)` prints as 8 digits whose value lies in [10000000, 99999999] |
| AuthService.GenerateBackupCodes | src/services/authService.ts:383-392 | exactly 8 codes, each the decimal string of 10000000 plus its draw, hence an 8-digit code |
| AuthService.LoginGate | src/services/authService.ts:101-151 | in order: 400 missing field, 404 unknown user, 401 2FA on without a token, 401 wrong password; a login that passes all four checks is never refused and carries the found user; then TOTP when the token's JavaScript `length` (UTF-16 code units, `JsLength`) is 6, backup code when it is 8, issuance unchecked for any other length |
| AuthService.LoginRoutesByCodeUnits | src/services/authService.ts:132 | for a user with 2FA on and a matching password, a token of three characters above U+FFFF goes to TOTP validation, since its `length` is 6 |
| AuthService.TfaGateBeforePassword | src/services/authService.ts:117-129 | with 2FA on and no token the answer is 401 whatever the password comparison says |
| AuthService.LoginUser | src/services/authService.ts:96-174 | refusals issue nothing; a TOTP or backup-code failure answers 404; a backup code is consumed exactly on success; the users table never changes |
| AuthService.RefreshUser | src/services/authService.ts:344-367 | 201 exactly when the cookie verifies and its email claim names a stored user; the new access token is for that stored user; otherwise 401 |
| AuthService.RefreshReflectsStoredRole | src/services/authService.ts:356-360 | the refreshed token carries the user's id and the role stored now |
| AuthService.EnableGate | src/services/authService.ts:182-201 | 401 without a token, 500 when verification throws, 400 when the `tfa` claim is truthy, otherwise it proceeds with the claims |
| AuthService.EnableNeverSeesTfaClaim | src/services/authService.ts:195-201 | a token the service issued always passes the "already enabled" check |
| AuthService.NewCodeRows | src/services/authService.ts:226-229 | one unused row `(id, code_i)` per code, in order |
| AuthService.EnableTwoFactorAuth | src/services/authService.ts:176-258 | refusals change nothing; for a stored id the user gets 2FA on and the fresh secret, exactly 8 code rows are appended after the existing ones, and a 200 reply carries a token for the updated row |
| AuthService.UserByClaim | src/services/authService.ts:283-285 | a missing email claim selects no user; otherwise the user with that email |
| AuthService.DisableGate | src/services/authService.ts:265-315 | in order: 401 without a token, no reply when verification throws, 400 without a 2FA token, 404 unknown user, 400 2FA off, 400 when the token's JavaScript `length` (`JsLength`) is neither 6 nor 8; then TOTP (6) or backup code (8) |
| AuthService.ClearTfa | src/services/authService.ts:318-321 | the user under the id claim gets 2FA off and no secret; every other user is unchanged |
| AuthService.CodesWithout | src/services/authService.ts:323 | exactly the rows of other users remain, each as often as before |
| AuthService.DisabledReply | src/services/authService.ts:325-338 | a 200 reply whose access token carries the claimed id and email and the stored role |
| AuthService.DisableTwoFactorAuth | src/services/authService.ts:260-342 | refusals change nothing; a failed factor answers 401; on success the user is cleared and that id's code rows are deleted |
| AuthService.DisableForOwnToken | src/services/authService.ts:318-333 | for a user's own token, disable leaves them with 2FA off, no secret, no code rows, and a token with the same claims |
| AdminService.Grant | src/services/adminService.ts:4-30 | unknown id 500 and 400 for an Admin, both unchanged; otherwise 200 with only that user's role set to "Admin" |
| AdminService.Revoke | src/services/adminService.ts:32-56 | unknown id 500 and 400 for a non-Admin, both unchanged; otherwise 200 with only that user's role set to "User" |
| AdminService.GrantAdmin | src/services/adminService.ts:4-30 | the handler's status and new users table are those of `Grant`; code rows are untouched |
| AdminService.RevokeAdmin | src/services/adminService.ts:32-56 | the handler's status and new users table are those of `Revoke`; code rows are untouched |
| AdminService.GrantTwiceRefused | src/services/adminService.ts:17-19 | after a successful grant a second grant answers 400 and changes nothing |
| AdminService.GrantThenRevoke | src/services/adminService.ts:17-51 | after a successful grant a revoke succeeds and leaves the role "User", whatever it was before |
| AdminService.GrantRevokeRestoresUser | src/services/adminService.ts:17-51 | for a "User", revoke exactly undoes grant |
| AdminService.GrantRevokePromotesGuest | src/services/adminService.ts:17-51 | a "Guest" granted and revoked ends as "User", not as it started |
| AdminService.RefreshAfterGrant | src/services/adminService.ts:21-25 | a token refreshed after a grant carries the "Admin" role |
| DriverService.BelongsTo | src/services/driverService.ts:30 | the filter test `result.driver === driver.driver_id` on one row, the same test as at :63 |
| DriverService.ResultsOf | src/services/driverService.ts:29-31 | the rows whose `driver` is the driver's id, filtered in table order |
| DriverService.ResultsOfMembers | src/services/driverService.ts:29-31 | a driver's rows are exactly those whose `driver` is its id |
| DriverService.ResultsOfCount | src/services/driverService.ts:29-31 | each such row is attached as often as it occurs in the table |
| DriverService.ResultsOfKeepsOrder | src/services/driverService.ts:29-31 | the attached rows keep table order |
| DriverService.Joined | src/services/driverService.ts:29-31 | only `results` changes, to the driver's rows |
| DriverService.GetDrivers | src/services/driverService.ts:7-39 | one response per driver row, in driver order, each the parsed driver with its own rows |
| DriverService.ResponseRowsBelongToDriver | src/services/driverService.ts:28-33 | every result in a driver's response was parsed from a row of that driver |
| DriverService.UnmatchedRowAttachedNowhere | src/services/driverService.ts:29-31 | a row matching no driver id appears under no driver |
| DriverService.InlineScored | src/services/driverService.ts:65-69 | `driver` cleared and points by position; nothing else changes |
| DriverService.InlineScoredAll | src/services/driverService.ts:65-69 | every attached row rewritten this way, in order |
| DriverService.InlineRuleIgnoresRaceType | src/services/driverService.ts:66-68 | a qualifying pole without fastest lap scores 25 inline but 0 by `calculateRacePoints` |
| DriverService.InlineRuleDiffersOffRaces | src/services/driverService.ts:66-68 | for every session type other than "Race", a winner scores 25 inline but at most 1 by `calculateRacePoints` |
| DriverService.InlineRuleAgreesOnRaces | src/services/driverService.ts:66-68 | for races the inline rule and `calculateRacePoints` agree |
| DriverService.Rewritten | src/services/driverService.ts:65-69 | a row of the shared table after one driver's `forEach`: rewritten when it belongs to that driver, otherwise unchanged |
| DriverService.RewriteRows | src/services/driverService.ts:65-69 | the whole shared table after one driver's `forEach`, row by row |
| DriverService.AttachStep | src/services/driverService.ts:62-69 | one more table row extends the attached rows exactly when it matches |
| DriverService.AttachAndScore | src/services/driverService.ts:62-69 | the table's matching rows rewritten in place, and the driver's rows attached, rewritten, in table order |
| DriverService.FoundRows | src/services/driverService.ts:61-64 | a driver finds its rows as first queried, or none when its id came earlier |
| DriverService.NextRows | src/services/driverService.ts:61-70 | processing a driver rewrites exactly the rows of ids seen so far |
| DriverService.AttachedById | src/services/driverService.ts:61-70 | the rows driver `i` ends with: none when an earlier driver row had its id, otherwise its rows, rewritten, in table order |
| DriverService.DriverById | src/services/driverService.ts:61-70 | driver `i` as returned: its own fields with `AttachedById` as its results |
| DriverService.AttachedRowsCleared | src/services/driverService.ts:65-69 | every attached result has `driver` cleared and the inline points |
| DriverService.GetDriverById | src/services/driverService.ts:41-76 | one driver per driver row, in order, each with the rows attached to it as the shared-object loop leaves them |
| DriverService.DistinctIdsGetAllRows | src/services/driverService.ts:61-70 | with distinct driver ids every driver gets all its rows, rewritten |

## Left out

- Cryptography is supplied as oracle parameters: bcrypt hashing and
  comparison, JWT signing and verification, OTPAuth TOTP validation (RFC
  6238) and `generateBase32Secret`. A token is its claims, key and lifetime,
  never its signature.
- `checkPasswordComplexity` and `generateBase32Secret` are imported from
  `src/lib/utils.ts`, which does not define them. They are the `complex`
  and `freshSecret` parameters.
- QR-code rendering and its failure (the 500 in `enableTwoFactorAuth`) are
  not modelled.
- Response bodies and messages are left out, and so are cookies and the
  `Authorization` response header. A reply is its status and the tokens it
  issues.
- `created_at`/`updated_at` timestamps are out of scope. `uuid()` is the
  `newId` parameter. `Math.random` is an integer draw in [0, 90000000),
  which is the floored value the code prints.
- PostgreSQL is an in-memory map and sequence. Database errors and the 500s
  and rethrows they cause are not modelled.
- `RefreshUser` assumes the `cookie-parser` middleware has run, and it has
  not. `src/index.ts:29` mounts the API router before `cookieParser()` at
  `src/index.ts:33`, so in the app as wired `req.cookies` is undefined.
  Reading `refreshToken` from it at `src/services/authService.ts:349` then
  throws outside the `try`, and the request gets no reply. The model takes
  the cookie as parsed.
- `registerUser`'s `rowCount === 0` branch is not modelled. An insert that
  succeeds always returns its row.
- `LoginUser` does not model a body `token` that is a non-string value. The
  model takes the token as a string.
- `DisableGate` does not model a body `token` that is a non-string value
  either. `DisableTwoFactorAuth` takes it as a string too. The source reads
  `req.body.token` at `src/services/authService.ts:269` and its `length` at
  :297, so any JSON value gets through. A number, for example, has
  `length` undefined and is answered with 400.
- `EnableTwoFactorAuth` does not capture one case: an `id` claim that is
  absent or names no user still runs the backup-code insert. The model
  assumes the insert is refused by the `user_id` reference and NOT NULL
  constraint, answering 500 with no change.
- `FirstMatch` takes table order as the order of `rows[0]`. The query has
  no `ORDER BY`.
- `parseInt` on positions is out of scope. A position arrives already
  parsed as an integer or `NaN`. The response's `position` then carries
  this parsed value, whereas `parseDriverResults` copies the column's raw
  text (`src/lib/utils.ts:95`). Texts such as "01" and "1" therefore give
  the same response in the model and different ones in the source.
- The write-back of `result.points` in `parseDriverResults` is not
  modelled. `WithPoints` is the written row, but `getDrivers` does not
  observe it.
- `getDriverById` gets its drivers and results as inputs rather than the
  two `WHERE ... = $1` queries. It is proved for every input, including
  rows of other drivers.
- Concurrency, including the SELECT-then-UPDATE race in `checkBackupCode`,
  is not modelled. Calls are sequential.
- The pass-through CRUD handlers are not modelled:
  - the rest of `src/services/driverService.ts` (`createDriver`,
    `updateDriver`, `deleteDriver`, `getDriverResults`,
    `createDriverResult`, `addDriverToCompetition`);
  - the competition, results and user services.
- Discord commands, status polling, routing and `console.log` are not
  modelled.
