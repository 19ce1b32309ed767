# Outline manager: a model of the backend and proofs about it

The backend is a control loop over two stores. Postgres holds the policy: keys, servers, users, renewals and
usage snapshots. Each Outline server (a "box" below) holds its own map from key id to data limit. Request
handlers and the cron tick are sequences of calls to the one and the other, any of which may fail, with no
transaction around them. This project models the handlers, the enforcer and the tick as methods over both
stores, and proves what they keep, what they bring about, and what whole runs of them add up to.

## How the model is laid out

| file | models |
|---|---|
| `Calendar.dfy`, `Arithmetic.dfy`, `Text.dfy`, `Wrappers.dfy` | instants and Gregorian months, counting, string order and sorting, optional values and results |
| `Models.dfy` | the rows, the derived status of a key, the arithmetic of a renewal |
| `Store.dfy` | the database as a value, its statements, the invariant `Sound`, dynamic links |
| `Repository.dfy` | the repository layer: a class over the tables, one statement per method |
| `Outline.dfy` | the boxes behind the Outline client |
| `Policy.dfy` | the desired limit, repeated passes, runs of renewals |
| `KillSwitch.dfy` | one server and its kill switch as a machine of single calls, and the same run without a switch |
| `Convergence.dfy`, `Enforcement.dfy` | what the enforcer's passes may change, and the enforcer and tick themselves |
| `Runs.dfy` | bounds over whole runs: trips of the kill switch, automatic renewals |
| `KeyHandlers.dfy`, `UserHandlers.dfy`, `ServerHandlers.dfy`, `DynamicKeys.dfy` | the request handlers |
| `Usage.dfy`, `Daily.dfy` | bandwidth over a range, and the daily series |
| `Migrations.dfy`, `Shares.dfy`, `Revenue.dfy` | boot-time migrations, the passcode lockout, the revenue chart |

Failures are modelled call by call. Every call to either store may not get through; it then counts as a fault
(`faults` in `Repository` and `Fleet`) and has no effect on the database. A failed push or delete on a box may
or may not have taken effect there; a failed creation leaves nothing behind unless it returns the key. Contracts
say what holds whatever fails, and, under "no new faults", that the operation succeeds exactly when it should. A
pass over many keys or servers hands out the set it missed, as a ghost result bounded by the number of calls
that failed, and its contract holds of all the others. A `Repository` records every state it goes through in
`history`; a handler that stops after any of its calls leaves the last of these, and `HistorySound` says that
the invariant holds at all of them.

An instant is a parameter, a number of microseconds in one UTC-like zone; a day is 24 hours. Integers are
unbounded. `float64` arithmetic is the exact operation followed by an arbitrary rounding function with relative
error at most 2^-53 (round to nearest, section 4.3.1 of IEEE 754-2019).

## Where the code differs from what is said about it

- A key that comes back into bounds works again after one pass, but is shown as "disabled" until the next:
  `DeriveKeyStatus` (backend/internal/models/models.go:444-459) reads the stored flag that the same pass is about
  to correct (backend/internal/enforcement/enforcement.go:459-487). `Policy.TwoPassesSettle`.
- "Less than 2 days until expiry" (backend/internal/models/models.go:32-40) compares days rounded up
  (backend/internal/models/models.go:464-471), so it means the last 24 hours. `Models.ThresholdIsRunningLow`.
- A user's own link can lead to another holder's key if the lookup among users fails and that key carries the
  same token, since any error goes on to the tokens of keys (backend/internal/handlers/dynamic_key.go:29-38).
  `Store.UserTokenLeadsHome` gives the exact condition, and `Store.LinkCanStray` a state where it fails.
- Cutting a date range in two can count more traffic than the whole, exactly when some counter turns at the
  cut: clamping is per key and per range (backend/internal/repository/usage.go:221-260). `Usage.RangeSplit`.
- A billed edit of a key's plan is logged at the price it asks for, "the new price", before the push
  (backend/internal/handlers/keys.go:507-540); only after the push is that price saved
  (backend/internal/handlers/keys.go:545-553). Wherever the edit stops, the entry is right about what the key is
  worth afterwards if and only if the new price was saved and was the one billed, or the amount is what the key was
  worth all along; with every call through, if and only if the key is on the box of a live server or the amount is
  what it was worth all along. `KeyHandlers.KeyAPI.UpdateKey`; `KeyHandlers.BillCanMislead` leaves such an entry.
- "Looks its default limit up once" per server and sweep also holds for a lookup that fails: its fallback is
  cached, so one failed call has every key of that server renewed at 200 GB for the rest of the sweep, whatever the
  server's default (backend/internal/enforcement/enforcement.go:265-278). The set `fallback` of
  `Enforcement.Enforcer.AutoRenewKeys` says for which servers, `Enforcement.Enforcer.GrantFor` exactly when, and
  `Convergence.FallbackGrantsLess` gives a server of 500 GB.
- A comment has a new server free to reuse a removed one's URL
  (backend/internal/db/migrations/0009_soft_delete_servers.up.sql:14-18); `createServer` restores the removed row
  instead, or refuses on another fingerprint (backend/internal/handlers/servers.go:152-178).
- Resetting a holder's usage pins an unset price to the server's default of that moment and drops the opt-in to
  automatic renewal (backend/internal/handlers/users.go:551-563). `UserHandlers.UserAPI.ResetUserKeyUsage` states
  the effective price.
- A new user whose fresh key could be made but not nominated stays, with the key and without a primary key
  (backend/internal/handlers/users.go:272-275); every other failure takes the user back.
  `UserHandlers.UserAPI.GiveNewKey`.
- Renewing a key of an archived server saves limit and end date and then stops, without log or push
  (backend/internal/enforcement/enforcement.go:385-392). `Enforcement.Enforcer.RenewKey`.
- A wrong passcode whose failure cannot be recorded is not counted
  (backend/internal/handlers/share.go:133-138); the throttle's bound has a term for those.
  `Shares.GuessesAreThrottled`.

## Model

| member | source | states |
|---|---|---|
| `Enforcement.Enforcer.RunOnce` | backend/internal/cron/cron.go:79-111 | From any rows and any remote limits, whatever calls fail: apart from losses no more than the calls that failed, every key on every live server's box ends up known; it is at zero, disabled and shown as expired or exceeded if its end date has passed or its quota is used up, at zero if its server is switched off, and else enabled under its own ceiling if it has one. No server due is left untripped, and no opted-in key granted more than 3 GB is left with less than 3 GB or 24 hours. A row keeps all its terms unless it is renewed; each key is logged at most once: 30 days, unpaid, with the quota, end date and price it then has, or its server's default price. A server's row changes only by its sync mark and its trip |
| `Enforcement.Enforcer.SyncAll` | backend/internal/cron/cron.go:87-97 | Unless the live servers could not be listed, all of them are brought into step but for servers not reached and keys that failed, together no more than the calls that failed; no key's limit, end date, holder, price, token or opt-in changes, nor a server's settings; a newly adopted key is nobody's and has no limit |
| `Enforcement.Enforcer.SyncServer` | backend/internal/enforcement/enforcement.go:41-87 | No more keys fail than calls do, and all the others on the box end up adopted and settled; only this server's rows and limits change, by a run of kill-switch acts; with every call through, each key's name, access data and reported counter are on its row, the counter in a snapshot of its own, followed by one snapshot of the sum; a sync that did not reach the box is marked as failed |
| `Enforcement.Enforcer.SyncKeys` | backend/internal/enforcement/enforcement.go:57-77 | The loop over one box's keys goes on past a key that fails: no more are missed than calls failed, and the rest are adopted and settled |
| `Outline.UsageUnderCanonicalId` | backend/internal/enforcement/enforcement.go:300-313 | A key not reported under its own id has the figure reported for the same number without leading zeros, or zero |
| `Outline.SumIsUnique` | backend/internal/enforcement/enforcement.go:314-320 | That total is one figure, whatever the order of addition |
| `Outline.SumIsOfAll` | backend/internal/enforcement/enforcement.go:314-320 | One key more reported adds its figure to the server's total |
| `Enforcement.Enforcer.ReconcileKey` | backend/internal/enforcement/enforcement.go:459-487 | The limit is always pushed first; the caches follow only after a push that went through, whose every outcome is listed |
| `Enforcement.Enforcer.PushDesired` | backend/internal/enforcement/enforcement.go:459-481 | Zero when out of bounds or switched off, else the key's own ceiling, else no limit; `Convergence.Settled` says by column when each is right |
| `Enforcement.Enforcer.ReconcileKeyByID` | backend/internal/enforcement/enforcement.go:325-339 | A key of a live server is reconciled under the server's current switch; nothing happens to a key of an archived one |
| `Enforcement.Enforcer.ReconcileServerKeys` | backend/internal/enforcement/enforcement.go:345-362 | One key's failure does not stop the others: unless the keys could not be listed, no more are missed than calls failed, and every other row of the server is settled |
| `Convergence.SweepStep` | backend/internal/enforcement/enforcement.go:355-360 | One more key gone over leaves the earlier ones settled, rows being unique per server and Outline id |
| `Convergence.SyncStep` | backend/internal/enforcement/enforcement.go:57-77 | One more remote key synced leaves the earlier ones adopted |
| `Convergence.FleetSweepStep` | backend/internal/enforcement/enforcement.go:95-149 | One server checked, tripped or not, on top of a sweep of others, is again such a sweep: only servers that trip, their rows and their limits are touched |
| `Convergence.SweepKeepsConverged` | backend/internal/enforcement/enforcement.go:95-149 | A sweep in which calls fail puts nothing out of step but the tripped servers and keys those calls were about |
| `Convergence.RepushKeepsConverged` | backend/internal/enforcement/enforcement.go:345-362 | Pushing all keys of one server again under a moved switch keeps the fleet in step, the keys that fail aside |
| `Convergence.RenewalsKeepConverged` | backend/internal/enforcement/enforcement.go:246-289 | A sweep of renewals in which calls fail puts nothing out of step but the keys they were about |
| `Convergence.RenewKeepsConverged` | backend/internal/enforcement/enforcement.go:377-452 | A change to one row and its own limit puts at most that key out of step, and not even that if it ends settled |
| `Convergence.ConvergedRowsSettled` | backend/internal/enforcement/enforcement.go:459-487 | When the fleet is in step, no row of a live server disagrees with its box |
| `Policy.TwoPassesSettle` | backend/internal/enforcement/enforcement.go:459-487 | From any stored caches the limit and the flag are right after one pass and the status after at most two: expired if the end date has passed, else exceeded if the quota is used up, else active; it takes two exactly for a key back in bounds that was stored as disabled, which is shown as "disabled" meanwhile |
| `KillSwitch.SwitchLeavesNoTrace` | backend/internal/enforcement/enforcement.go:454-487 | Over any run of single pushes and saves, adoptions, renewals, edits, trips and re-enables, any of them failing, the rows are those of the same run on a server without a switch, and so is every remote limit, except that a key last pushed while tripped is at zero |
| `KillSwitch.OperationsAreActs` | backend/internal/handlers/servers.go:611-630 | Any run of syncs, sweeps, trips, re-enables and renewals, as the methods of the enforcer promise them, is such a run |
| `KillSwitch.LedAlike` | backend/internal/enforcement/enforcement.go:454-487 | Whatever an operation did to a server's rows, it could have done to the same rows without a switch |
| `KillSwitch.PassIsAct` | backend/internal/enforcement/enforcement.go:459-487 | A pass over one key, whether or not its push and its save happen, is one act |
| `KillSwitch.AdoptionIsActs` | backend/internal/repository/keys.go:25-64 | Adopting or refreshing a key and recording its counter is a run of acts |
| `KillSwitch.RenewalIsActs` | backend/internal/enforcement/enforcement.go:377-452 | A renewal or an edit of a plan, wherever it stops, is a run of acts |
| `Models.ThresholdIsRunningLow` | backend/internal/models/models.go:32-40 | The sweeps' test "fewer than 3 GB or fewer than 2 days left" is: fewer than 3 GB, or at most 24 hours to go |
| `Enforcement.Enforcer.RenewKey` | backend/internal/enforcement/enforcement.go:377-452 | Quota used so far plus what is added, and an end date counted from now, each left alone if nothing is added; a set price raised to the server's default if that is higher; logged at most once, with exactly these figures and the key's own price or else the default; then pushed. Every stopping point is listed, and a fleet in step stays in step but for this key if a call failed |
| `Convergence.RenewalMeans` | backend/internal/enforcement/enforcement.go:377-415 | The same column by column for a renewal that went through |
| `Enforcement.Enforcer.CatchUpPrice` | backend/internal/enforcement/enforcement.go:389-406 | A set price below the server's default is raised to it; nothing else about the row changes |
| `Policy.RenewalIsExact` | backend/internal/models/models.go:484-503 | After a renewal the remaining quota and days are exactly those granted whatever the history, and repeating it at the same instant changes nothing |
| `Policy.PriceRatchet` | backend/internal/enforcement/enforcement.go:394-414 | Over any run of renewals, wherever each of them stops, a set price never falls, is at least every default it was held against and ends at one of them or where it began, and an unset price stays unset |
| `Enforcement.Enforcer.AutoRenewKeys` | backend/internal/enforcement/enforcement.go:246-289 | Exactly the opted-in keys running low are renewed, each once, by 30 days and its server's default or 200 GB; a price stays or is raised to its server's default, and is where no call failed; each renewal is logged at most once, unpaid, with the quota, end date and price the key then has or its server's default price, and exactly once for a live server's key no call failed about; a failed call costs one key its renewal or its push, or has one server counted as one without a default, together no more than the calls that failed; all other keys and limits are left alone |
| `Enforcement.Enforcer.GrantFor` | backend/internal/enforcement/enforcement.go:265-278 | A key is granted its server's default, or 200 GB without one, if and only if the lookup of its server did not fail earlier in the sweep or makes no difference |
| `Convergence.FallbackGrantsLess` | backend/internal/enforcement/enforcement.go:265-278 | A server with a default of 500 GB and a memo, as a failed lookup leaves it, that grants its keys 200 GB |
| `Convergence.StoppedRenewal` | backend/internal/enforcement/enforcement.go:377-452 | Every stopping point of a renewal is one of those runs |
| `Convergence.AutoLogStep` | backend/internal/enforcement/enforcement.go:246-289 | One more key's turn keeps the log right: an entry at most for every key due so far, and one for each nothing went wrong about |
| `Convergence.NotLowAfterSweep` | backend/internal/enforcement/enforcement.go:246-289 | Granted more than 3 GB, a key the sweep got through to is no longer running low |
| `Runs.AutoRenewBound` | backend/internal/enforcement/enforcement.go:246-289 | Sweeps spanning D days and U bytes, any of them failing, renew a key at most 1 + floor(D/29) + floor(U/(grant - 3 GB)) times |
| `Runs.RenewalsArePaidFor` | backend/internal/enforcement/enforcement.go:246-289 | Every renewal after the first has waited 29 days or used up all of the last grant but 3 GB |
| `Runs.SweepIsTurn` | backend/internal/enforcement/enforcement.go:246-289 | What the sweep of renewals does to a row, whatever calls fail, is a turn of those runs; a due key no call failed about has been held against its live server's default price |
| `Runs.SweepsRatchetPrice` | backend/internal/enforcement/enforcement.go:246-289 | Over any run of sweeps without price edits, wherever each stops, a set price never falls, is at least every default it was held against and ends at one of them or where it began, and an unset price stays unset |
| `Runs.SecondSweepRenewsNothing` | backend/internal/enforcement/enforcement.go:246-289 | A second sweep at the same instant finds a key due if and only if the first found it due and did not get through; otherwise it leaves it alone |
| `Enforcement.Enforcer.CheckBandwidthLimits` | backend/internal/enforcement/enforcement.go:95-149 | Every live server with a cap that is not tripped, was not re-enabled in the same year and month, and has come within 2 GB of the cap this month trips, and no other once its total was on record by the start of the month, those aside whose check failed; only servers that trip are touched, with their keys at zero but for those whose push failed; together no more than the calls that failed |
| `Enforcement.Enforcer.CheckServer` | backend/internal/enforcement/enforcement.go:103-148 | One server's turn: untouched, or tripped with every key of it at zero but for no more than the calls that failed |
| `Enforcement.Enforcer.CheckUsage` | backend/internal/enforcement/enforcement.go:110-137 | The tracked figure decides when it is complete; when it is not, Outline's own decides as well, and only then is it asked for |
| `Runs.OneTripPerMonth` | backend/internal/enforcement/enforcement.go:95-149 | Over any run of sweeps, re-enables, syncs, edits, archives and revives under a nondecreasing clock, no server trips twice in one calendar month |
| `Runs.TripsAtMostMonths` | backend/internal/enforcement/enforcement.go:95-149 | So a run trips at most once per calendar month it touches |
| `Runs.SweepIsEvent` | backend/internal/enforcement/enforcement.go:103-148 | What the sweep does to a row is what a sweep event of those runs does, and conversely |
| `Calendar.MonthOfMonotone` | backend/internal/models/models.go:42-55 | Later instants never fall in earlier months |
| `Calendar.SameMonthConvex` | backend/internal/models/models.go:49-55 | Calendar months are intervals |
| `Calendar.StartOfMonthIsFirst` | backend/internal/models/models.go:42-47 | StartOfMonth is the first instant of the month |
| `Calendar.YearsAreGregorian` | backend/internal/models/models.go:42-55 | The month lengths used add up to the Gregorian year |
| `Calendar.MonthTable` | backend/internal/models/models.go:42-55 | The first days of the twelve months, in leap years and others |
| `Store.StatementKeepsSound` | backend/internal/repository/keys.go:209-233 | Every statement keeps: references exist, unique columns are unique, and a user's primary key exists and is theirs |
| `Store.SoundIsConsistent` | backend/internal/repository/keys.go:209-233 | What that invariant is, row by row |
| `Store.RunKeepsSound` | backend/internal/handlers/users.go:394-628 | So it holds after any run of statements, wherever the run stops |
| `Repositories.Repository.HistorySound` | backend/internal/handlers/users.go:81-105 | It holds, row by row, at every state a repository has gone through, so at every stopping point of every handler |
| `Store.PrimaryOfAtMostOne` | backend/internal/repository/users.go:119-148 | No key is primary for two users |
| `Store.DeletingLeavesHistory` | backend/internal/repository/keys.go:321-333 | The cascade takes exactly the deleted key's entries and readings: every other key's, and the server-wide readings, are what they were, and what is left is in order |
| `Store.UserTokenNeverChanges` | backend/internal/repository/users.go:24-46 | No statement changes a user's token |
| `Store.UserTokenLeadsHome` | backend/internal/handlers/dynamic_key.go:29-38 | Everything a user's token can lead to is a key of theirs if and only if the lookup among users gets through or no key of somebody else's carries the same token |
| `Store.LinkStaysWithHolder` | backend/internal/handlers/dynamic_key.go:29-38 | After any run of statements the token a holder was given leads to a key of theirs or to nothing |
| `Store.LinkCanStray` | backend/internal/handlers/dynamic_key.go:29-38 | A state the schema allows in which a failed lookup among users leads somebody to another holder's key |
| `DynamicKeys.LinkAPI.ResolveDynamicToken` | backend/internal/handlers/dynamic_key.go:29-38 | The two lookups compute that relation |
| `DynamicKeys.LinkAPI.FollowLink` | backend/internal/handlers/dynamic_key.go:29-38 | With every call through, a holder's link leads to their primary key, and nowhere exactly if they have none |
| `UserHandlers.UserAPI.ReplaceUserKey` | backend/internal/handlers/users.go:449-513 | At every state gone through the holder's primary is the old key or the new one, and nobody else's record or key differs in any column; a fresh key is on the server chosen, theirs, unused, at its default price, and on the quota and days asked for, or the server's default to within a byte, 200 GB without one, and 30 days; of all keys only the target and the released one change, and no box but the new key's server's; a fleet in step stays in step but for that key, and only if a call failed; when all goes through the old key is released |
| `UserHandlers.NeverStranded` | backend/internal/handlers/users.go:449-513 | A holder who had a working link never loses it on the way |
| `UserHandlers.OthersUntouched` | backend/internal/handlers/users.go:449-513 | At each of these states every key somebody else holds is, as a whole row, what it was, and so is every other user's record |
| `KeyHandlers.MoveAllots` | backend/internal/handlers/keys.go:134-157 | Any allowance that is not negative is accepted for a move, and comes to that |
| `UserHandlers.UserAPI.ClaimFreeKey` | backend/internal/handlers/users.go:81-105 | A key somebody else holds is never taken; a claim that succeeds makes the key theirs and primary, and changes its holder and name only; with every call through it succeeds exactly for a free key |
| `UserHandlers.UserAPI.RenameClaimedKey` | backend/internal/handlers/users.go:107-125 | At most the name changes, in either store |
| `UserHandlers.UserAPI.SetUserPrimaryKey` | backend/internal/handlers/users.go:394-421 | Only a key the user holds can be nominated, and with every call through any of them can |
| `UserHandlers.UserAPI.LinkUserKey` | backend/internal/handlers/users.go:575-606 | Only an unheld key, and it becomes primary only if they had none; nothing of the key but its holder changes, nor any other key or user |
| `UserHandlers.UserAPI.UnlinkUserKey` | backend/internal/handlers/users.go:611-628 | Detaches exactly that key, and its nomination with it |
| `UserHandlers.UserAPI.DeleteUser` | backend/internal/handlers/users.go:333-338 | Their keys stay, unheld |
| `UserHandlers.UserAPI.CreateUserKey` | backend/internal/handlers/users.go:349-382 | The new key is theirs, unused, at its server's default price and on the allowance accepted, and primary only if they had none; no key on record and no other user changes; at most the new key ends up out of step, and only if a call failed |
| `UserHandlers.UserAPI.CreateUser` | backend/internal/handlers/users.go:179-281 | The user has the name given, and the key asked for is theirs, primary and on its allowance, a fresh one at its server's price; earlier users, all keys but the one claimed, and all of the boxes but the one key claimed or made are never touched; a user who cannot be given the key asked for is taken back with no key having changed hands |
| `UserHandlers.UserTakenBack` | backend/internal/handlers/users.go:233-248 | Deleting the half-equipped user undoes everything but what was done to the key meant for them, whose holder is as before |
| `UserHandlers.UserAPI.ApplyKeyPlan` | backend/internal/handlers/keys.go:220-234 | A claimed key is put on the plan outright, logged once with nothing added and nothing owed, and pushed, which succeeds exactly for a key on a live box; nothing but this key falls out of step, and only if a call failed |
| `UserHandlers.UserAPI.ResetUserKeyUsage` | backend/internal/handlers/users.go:527-567 | Never refused for the ceiling on a server within it; on success name, limit, end date and effective price carry over and the counter starts at zero; however it ends, no other user or key changes, every other key's log entries and readings are what they were, in order, and so is every other box; at most the new key ends up out of step, only if a call failed |
| `KeyHandlers.KeyAPI.ProvisionKey` | backend/internal/handlers/keys.go:163-213 | A key is added to both stores, unused, under the name, plan, holder and price given, or to neither unless a clean-up delete failed too, which leaves at most one key more on that box; nothing else on record changes at any state gone through; never past the ceiling; never refused without cause; a fleet in step stays in step, but for the new key if a call failed |
| `KeyHandlers.PlanAllots` | backend/internal/handlers/keys.go:107-132 | An allowance is accepted if each part is zero or at least 200 GB and 30 days, and comes to what was asked for, or the server's default to within a byte, 200 GB without one, and 30 days |
| `KeyHandlers.KeyAPI.CreateInBoth` | backend/internal/handlers/keys.go:179-200 | A key that cannot be recorded is taken back from its box |
| `KeyHandlers.KeyAPI.ReachedCeiling` | backend/internal/handlers/keys.go:166-175 | Rows on record decide |
| `KeyHandlers.KeyAPI.PushInitialLimit` | backend/internal/handlers/keys.go:202-213 | The first push touches only the new key |
| `KeyHandlers.KeyAPI.DiscardRemoteKey` | backend/internal/handlers/keys.go:305-321 | Best effort |
| `KeyHandlers.KeyAPI.DeleteKey` | backend/internal/handlers/keys.go:354-383 | Unless forced, a key its box was not seen to drop stays on record; succeeds exactly when it should, and then takes the row, its own log entries and readings and the nominations of it, and nothing else |
| `KeyHandlers.KeyAPI.UpdateKey` | backend/internal/handlers/keys.go:426-577 | What is given is set, what is not is kept, and clearing a price goes before setting one; refused exactly for an edit that asks for nothing, a quota not above zero or a negative price; a changed plan is logged with nothing added, and free unless billed; wherever the edit stops, an amount billed is what the key is worth afterwards if and only if the price billed was saved or the key was worth that all along; with every call through, if and only if the key is on the box of a live server or was worth that all along; a fleet in step stays in step, but for this key if a call failed |
| `KeyHandlers.AddingKeepsConverged` | backend/internal/handlers/keys.go:163-213 | One key more in both stores puts at most that key out of step |
| `KeyHandlers.AlikeKeepsConverged` | backend/internal/enforcement/enforcement.go:459-487 | Who holds a key, its name, price and opt-in play no part in what its box enforces |
| `KeyHandlers.BillCanMislead` | backend/internal/handlers/keys.go:497-525 | A database, boxes without the key and a billed edit from price 5 to 9; the state the edit leaves has 9 as its last entry and the key worth 5 |
| `KeyHandlers.DefaultSurvives` | backend/internal/handlers/keys.go:113-157 | A server default reaches new keys, moved holders and automatic renewals within one byte |
| `Models.GBRoundTrip` | backend/internal/handlers/keys.go:113-132 | For 0 <= b <= 2^51, bytes to GB and back by two correctly rounded operations gives b or b - 1 |
| `Models.GBInBytes` | backend/internal/models/models.go:484-503 | A figure in GB reaches its bytes to within rounding |
| `ServerHandlers.ServerAPI.CreateServer` | backend/internal/handlers/servers.go:148-187 | Nothing, a new live row with the details submitted under an unused URL, or the removed row with that URL and fingerprint under them, its kill switch as it was; with every call through always one of the decided outcomes |
| `ServerHandlers.ServerAPI.UpdateServerAPIURL` | backend/internal/handlers/servers.go:549-604 | Repoints exactly when no other row, live or removed, has the URL |
| `ServerHandlers.ServerAPI.DeleteServer` | backend/internal/handlers/servers.go:704-711 | Archives the row and touches nothing else |
| `ServerHandlers.ServerAPI.ReenableServerBandwidth` | backend/internal/handlers/servers.go:611-630 | Clears the switch and puts every key of the server back under its own limit, but for no more than the calls that failed; users, renewals and snapshots stay, the key rows are left as without a switch, and a fleet in step stays in step, the keys that failed aside |
| `Convergence.TripThenReenable` | backend/internal/handlers/servers.go:611-630 | A trip followed at the same instant by a re-enable, whatever became of the pushes to zero, leaves every key that was in step and is reached again exactly as it was, and if that is all of them, every box |
| `ServerHandlers.ServerAPI.PushKeys` | backend/internal/handlers/servers.go:685-691 | The loop over the keys just limited goes on past a key that fails: no more are missed than calls failed |
| `ServerHandlers.ServerAPI.SetServerDefaultLimit` | backend/internal/handlers/servers.go:650-702 | The default is cleared or set to the figure given; keys with a ceiling of their own keep it, and only if asked for unlimited ones of that server get the default and are pushed; one failure does not stop the others: a fleet in step stays in step but for no more keys than calls failed |
| `ServerHandlers.DefaultKeepsConverged` | backend/internal/handlers/servers.go:677-691 | Pushing only the keys just limited is enough |
| `ServerHandlers.RunKeepsOneRowPerURL` | backend/internal/handlers/servers.go:148-187 | Over any run of adds, repoints and removals no two rows, live or archived, share a URL |
| `ServerHandlers.HistoryOutlivesRemoval` | backend/internal/repository/servers.go:307-326 | Keys, users, renewals and snapshots survive any such run, and a removed row stays as it was |
| `ServerHandlers.RemovalIsReversible` | backend/internal/repository/servers.go:60-83 | Adding the same URL and fingerprint again restores the same id with every key, renewal and snapshot unchanged |
| `Usage.LatestIndex` | backend/internal/repository/usage.go:233-243 | The most recent reading at or before an instant |
| `Usage.EarliestIndex` | backend/internal/repository/usage.go:236-243 | The earliest reading |
| `Usage.KeysSeenOnServer` | backend/internal/repository/usage.go:234-235 | The keys summed are those with a reading on that server, each once |
| `Usage.ReadingsAreItsOwn` | backend/internal/repository/usage.go:236-252 | A key's readings are its own, all of them, in log order |
| `Usage.OtherServersAside` | backend/internal/repository/usage.go:234-256 | A reading of another server's key makes no difference to a server's figure, wherever in the log it is |
| `Usage.EarliestServerReadingIs` | backend/internal/repository/usage.go:262-281 | The first of the server's own totals, if it has any |
| `Usage.RangeSplit` | backend/internal/repository/usage.go:221-260 | usage(a,b) + usage(b,c) >= usage(a,c), with equality if and only if no key's counter turns at b |
| `Usage.SplitCanExceedWhole` | backend/internal/repository/usage.go:221-260 | Three readings for which two halves count ten bytes more than the whole |
| `Usage.UsageNeverExceedsTraffic` | backend/internal/repository/usage.go:221-260 | However often a counter restarted, a key's figure is at most its real traffic between the two readings compared, and equals it if the counter did not restart between them |
| `Usage.ServerUsageNeverExceedsTraffic` | backend/internal/repository/usage.go:221-260 | A server's figure is at most what its keys together really carried, and equals it without restarts |
| `Usage.SteadyCounterNeverTurns` | backend/internal/repository/usage.go:221-260 | A counter that never restarts adds up exactly |
| `Daily.DailyUsageAllServers` | backend/internal/repository/usage.go:35-75 | For every history, what is listed for a server is what asking for that server alone gives, and no empty series is listed |
| `Daily.DaysAreThoseRead` | backend/internal/repository/usage.go:77-124 | A key's series has one entry for each day in the window it was read on, in order: that day's highest reading less that of the day read before it, and never below zero |
| `Daily.AllOrOne` | backend/internal/repository/usage.go:181-219 | Grouping and LAG over all servers, restricted to one, are grouping and LAG over that one |
| `Daily.FewerDaysIsSuffix` | backend/internal/repository/usage.go:88-124 | A key's series for fewer days is a suffix of its series for more |
| `Daily.WholeHistoryAddsUp` | backend/internal/repository/usage.go:77-124 | Over the whole history the days add up to at least every reading ever taken, and to the last day's highest exactly when the daily maxima never fall |
| `Daily.ReadingCovered` | backend/internal/repository/usage.go:93-98 | Every reading is at most its day's entry |
| `Daily.EntryWasRead` | backend/internal/repository/usage.go:93-98 | Every day's entry is a reading of that day |
| `Migrations.Database.Migrate` | backend/internal/db/migrate.go:36-91 | Whatever fails or is cut short, what was applied is a prefix of the name-sorted list and is exactly what is on record; a boot that succeeds has applied every file that ends in ".up.sql" |
| `Migrations.Database.Boot` | backend/internal/db/migrate.go:36-91 | ... after any number of boots |
| `Migrations.PlanIsMigrations` | backend/internal/db/migrate.go:36-56 | What is to run are the files ending in ".up.sql", each once, sorted by name |
| `Text.AtMostMeans` | backend/internal/db/migrate.go:52-56 | Sorted is by the first character in which two names differ, a name before what it begins |
| `Migrations.RunOnceInOrder` | backend/internal/db/migrate.go:36-91 | Each migration is applied once, after all that sort before it |
| `Shares.UserShare.Verify` | backend/internal/handlers/share.go:115-158 | Every outcome and what it does to the counter, the lock and the hash; locked out exactly before the lock time, after which the right code signs in |
| `Shares.UserShare.Setup` | backend/internal/handlers/share.go:82-109 | A passcode once set is never overwritten here |
| `Shares.UserShare.Reset` | backend/internal/repository/shares.go:100-119 | The admin's reset clears passcode, counter and lock |
| `Shares.LockKeepsPace` | backend/internal/repository/shares.go:121-133 | Each failure from the last allowed one on has pushed the lock one duration further |
| `Shares.LockKeepsPaceSince` | backend/internal/repository/shares.go:121-133 | ... counted from any guess of the run on |
| `Shares.LockNeverMovesBack` | backend/internal/repository/shares.go:121-133 | While failures accrue the lock time never moves back |
| `Shares.GuessesAreThrottled` | backend/internal/handlers/share.go:115-158 | With no success or reset in between, at most M + floor(W/D) wrong codes are looked at in any window W, wherever in the run it begins, not counting failures that could not be recorded; failures counted before the window come off M, down to one |
| `Revenue.MergeByDate` | frontend/src/components/dashboard/revenue-trend-card.tsx:52-66 | The total revenue of all server points is kept; one point per date with a reading, in date order, carrying that date's revenue and its cost at the given rate |
| `Revenue.Resample` | frontend/src/components/dashboard/revenue-trend-card.tsx:93-98 | The loop computes the resampling the lemmas are about |
| `Revenue.LatestOfEachPeriod` | frontend/src/components/dashboard/revenue-trend-card.tsx:92-98 | One entry per period in order, a year being the first four characters of a date and a month the first seven, each the last reading in its period |
| `Revenue.MonthsThenYears` | frontend/src/components/dashboard/revenue-trend-card.tsx:68-98 | Resampling to months and those to years is resampling to years |
| `Repositories.Repository.UpsertKeyFromOutline` | backend/internal/repository/keys.go:25-64 | A known key keeps its token, limit, end date, holder and price; an unknown one is adopted unused, enabled, nobody's, and with none |
| `Repositories.Repository.CreateKey` | backend/internal/repository/keys.go:66-88 | A fresh row, or nothing |
| `Repositories.Repository.SetKeyUser` | backend/internal/repository/keys.go:209-233 | The new holder, and nobody else's nomination of the key left standing |
| `Repositories.Repository.ApplyDefaultLimitToUnlimitedKeys` | backend/internal/repository/keys.go:235-263 | Exactly the unlimited keys of the server, each once |
| `Repositories.Repository.SetKeyLimitAndEndDate` | backend/internal/repository/keys.go:281-288 | These two columns only |
| `Repositories.Repository.SetKeyEnabledStatus` | backend/internal/repository/keys.go:270-273 | These two columns only |
| `Repositories.Repository.DeleteKey` | backend/internal/repository/keys.go:321-333 | The row, its own entries and readings and nominations of it, and nothing else |
| `Repositories.Repository.CreateUser` | backend/internal/repository/users.go:24-46 | A user without primary key |
| `Repositories.Repository.SetUserPrimaryKey` | backend/internal/repository/users.go:119-131 | Callers must have seen that the user holds the key |
| `Repositories.Repository.AdoptPrimaryKeyIfUnset` | backend/internal/repository/users.go:136-148 | Only if none is set |
| `Repositories.Repository.DeleteUser` | backend/internal/repository/users.go:168-182 | Their keys become unheld |
| `Repositories.Repository.GetServer` | backend/internal/repository/servers.go:253-259 | Archived servers are invisible |
| `Repositories.Repository.GetServerByAPIURL` | backend/internal/repository/servers.go:46-58 | Archived servers are visible |
| `Repositories.Repository.ReviveServer` | backend/internal/repository/servers.go:60-83 | The old row under the new details |
| `Repositories.Repository.UpdateServerAPIURL` | backend/internal/repository/servers.go:85-104 | Live rows only |
| `Repositories.Repository.DeleteServer` | backend/internal/repository/servers.go:307-326 | Sets deleted_at of a live row |
| `Repositories.Repository.SetServerBandwidthDisabled` | backend/internal/repository/servers.go:133-141 | Trips |
| `Repositories.Repository.ClearServerBandwidthDisabled` | backend/internal/repository/servers.go:143-155 | Clears and remembers when |
| `Repositories.Repository.CountKeysByServer` | backend/internal/repository/servers.go:194-204 | Rows on record |
| `Outline.Fleet.CreateAccessKey` | backend/internal/outline/client.go:245-260 | A new key, or an error with or without it |
| `Outline.Fleet.DeleteAccessKey` | backend/internal/outline/client.go:266-268 | The key is gone when the call succeeds; a failed call may or may not have removed it |
| `Outline.Fleet.PushLimit` | backend/internal/outline/client.go:304-314 | How a limit push can end |

## Left out

- Concurrent handlers and server rows held across a tick: handlers run one at a time, and a pass reads each row when its turn comes.
- SetKeyUser: its two statements are one step of the model.
- The activity log, note fields, revenue snapshots, alerts and device-count checks: no other state depends on them.
- UpdateKey: the name part (rename on the box, then locally) is not modelled; plan, price and opt-in are.
- OperationsAreActs: creating and deleting keys, the default quota's bulk write and the opt-in toggle are not acts of the kill-switch machine; each has its own in-step clause instead, where it pushes.
- ApplyKeyPlan and RenewKey: notes and the acting admin are not recorded.
- CreateServer and UpdateServerAPIURL: probing the management key beforehand and the sync started in the background afterwards are not modelled.
- UpdateServerConfig and the other plain column edits of a server: easy members; `Runs.ServerEvent.Edit` stands for them where runs are concerned.
- What a box reports (counters, 30-day totals) is arbitrary; `Usage.Explains` says when counters tell of real traffic.
- Malformed ids are ids that are not there; `isUUID` is not modelled.
- Integer overflow and the box's own trailing-window quota semantics.
- UsageInRange: rows recorded at the same instant are told apart by log order, which SQL leaves open.
- ListKeysByServer and the other listings: the order of rows is arbitrary.
- HourlyUsageByKey: the daily derivation with hour buckets.
- MergeByDate: `localeCompare` is lexicographic order, which agrees with it on ISO dates.
- Tokens, slugs and passcode hashes are opaque; nothing is claimed about secrecy.
- Verify: a legacy hash is upgraded at most once per sign-in, as a separate write that may fail; the hash functions are not modelled.
- SummarizeUser, EnrichKeys, dashboards, orders, one-time passwords, admin accounts, settings, HTTP, rate limits and the React components around the pure chart helpers.
