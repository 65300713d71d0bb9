# Teitunnel, modelled and proved in Dafny

Teitunnel publishes local services through Cloudflare Tunnel. This project models the parts of it
that keep state over time, undo what they did, or transform text, and proves what they promise on
every input and over every run. `dafny verify dfyconfig.toml` checks all of it.

Code that changes things step by step is a class or a method here, proved against a specification
function; what the program promises is then proved about that function for all histories.

| Part | Modules |
|---|---|
| The executor: applying a plan to a Cloudflare account and rolling it back | `CloudAccount`, `Ledger`, `Plans`, `Effects`, `Executor`, `Meaning`, `RollbackLimits` |
| The planner: from what the user asked for to a plan, and planning again | `Ingress`, `Planner`, `Readings`, `Accuracy`, `RepeatedDeletions`, `RecordCounts`, `Convergence`, `RouteLaws` |
| Sign-in limits and sessions of the dashboard | `SignInLimiter`, `DashboardServer` |
| The rate limit of the live demo | `RequestStream` |
| Command completion | `CommandWalk` |
| Message functions generated at build time | `MessageNames`, `Placeholders`, `MessageLeaves` |
| The reference page: shell words, escaping, blank lines | `ShellWords`, `Escaping`, `MdxReading`, `BlankLines` |
| Edge settings from the command line | `Protection` |
| Loops that report what they see | `ShareStatus`, `PauseAnnouncer`, `TunnelReport`, `Ticks` |
| Durations, and the tour on the web site | `Durations`, `TourPosition` |
| Shared | `Wrappers`, `Histories`, `Sequences`, `Characters`, `Changes` |

## How the executor is stated

A `Job` is a plan, the account it is applied to, and how route comments are written. `Progress` is
how far a run has come. `Sound(job, p)` says that the account is the initial one with the effects
of exactly the steps in `p.Steps()` and the comments that undone steps left, and that every step
with an undo can still be undone by it; `Meaning` spells that out in the plan's own terms. Which
calls are refused, while applying and while undoing, is an arbitrary function of the call's number
(`Api.refuses`), and every call says exactly when it succeeds; so the outcome is tied to the calls
that were refused, and the theorems hold for all patterns of them. `Stop` and `Try` record where a
run gave up and which undos it tried. A plan is `Accurate` when what it says about the account is so
and no two steps name the same record, configure the same tunnel or create a tunnel, and
`Resolvable` when it uses a new tunnel only after creating it, no tunnel after deleting it, and
expects the versions it was made against. `Schedule` says which step each call of a plan is for.

A snapshot `Reads` an account by looking up names: its records are the answers, one after another, so
a record is listed once for each name that finds it, and records of other names are not listed. The
names are those the program looks up: the route's hostname for adding or removing a route, all routed
hostnames for removing the tunnel. `Accuracy` proves that the plans made from such readings resolve and
exactly when they are accurate, and `Convergence` that planning again after such a plan was applied
changes nothing, and which records are gone. `RouteLaws` says in terms of rules and records alone when a
request is refused and what the account is like after it.

## What turned out not to hold

- A rollback that reports "rolled back" can leave two things behind. Undoing an in-place change of a
  record sends the record as it was, and a comment it did not have is left out of that call, which
  keeps the new one: the record keeps Teitunnel's ownership comment. And the first configuration of
  a tunnel that was there before has no undo. `Executor.Run.Execute` states exactly when the record
  data and the account are restored; `RollbackLimits.CommentStays` and
  `RollbackLimits.FirstConfigurationStays` are runs that end so, with one refused call. (A deleted
  tunnel could not be restored either; the planner puts that step last,
  crates/core/src/engine/planner.rs:1281-1310, so no step fails after it.) docs/ARCHITECTURE.md
  (section 4.4) promises "rolled back cleanly" or the exact leftovers.
- A tunnel whose rules hold two hostnames that differ only in case is removed by a plan that deletes
  a record of theirs more than once: each of the hostnames is looked up, ignoring case, so the record is
  listed twice, and each of them deletes every listing. `RepeatedDeletions.DeletedFourTimes` is such a
  reading; a record under `m` spellings is deleted `m * m` times (`TakenDownSquared`).
  `Accuracy.PlansAreAccurate` states exactly when a plan is accurate.
- Escaped help text can still hold characters that MDX interprets, in two ways. A special character that
  follows an odd run of backslashes loses its escape, since the inserted backslash is itself escaped
  (`MdxReading.BackslashBefore`). And the program takes every backtick for the start or the end of a code
  span, while one without its like later on is plain text in CommonMark (section 6.1), so what follows it
  gets no backslash (`MdxReading.BacktickBefore`). `MdxReading.NothingBare` states exactly when MDX
  interprets nothing, on the reading of section 6.1; where the two agree about code spans, that is when
  nothing was escaped before (`PairedText`), and after a backtick without its like only characters
  that are escaped already are safe (`LoneBacktick`). The other way round, code between double backticks
  is given backslashes that then show (`CodeChanged`).
- The build's guard against a name that is both a message and a plural never fires: the messages of
  a group are visited in ascending order, and a plain name always comes before its plural forms
  (`MessageLeaves.AscendingNeverStops`). Such a name silently becomes one plain message with the
  plural's `_other` text. In other orders the guard fires exactly when a plural form comes first.
- A hostname paused in two accounts is listed twice, and announced twice in a row
  (`PauseAnnouncer.ListedTwice`); `MessagesAlternate` states exactly when the messages alternate.
- Names that are not camelCase can share a generated function (`MessageNames.SnakeCollisions`);
  `MessageNames.SnakeCollide` states exactly which do.
- Checking for a block and recording a failure are separate steps, so with `k` sign-ins of an
  address in flight up to `MAX_FAILURES + k - 1` failures are stored (`StoredCountBound`). Since a
  window opens at its first failure, five minutes can hold almost twice that many, and do
  (`InterleavedBoundIsAttained`, for every `k`).

## Model

| member | source | states |
|---|---|---|
| Executor.Run.Execute | crates/core/src/engine/executor.rs:1371-1467 | for every accurate plan and every pattern of refused calls: "applied" means no call was refused, exactly the plan's steps are in effect, and the hosts to verify and the tunnel (none once the plan deletes one, else the created one, else the known one) are returned; otherwise the named step is the first that was not possible or had a call refused, all steps before it were done, and each of their undos was tried; with leftovers the outcome is "partially applied" and exactly they, the steps without an undo and the comments left are in effect; without, it is "rolled back", the record data is as before if and only if no step before the failed one changed a record without a comment in place, and the account is restored if and only if none was of the kinds that stay; a plan that resolves is applied if and only if no call was refused |
| Executor.Run.RollBack | crates/core/src/engine/executor.rs:2749-2798 | tries every completed step once, latest first, on the account the earlier undos left; a step is a leftover if and only if its own undo was not possible or had a call refused, in order of completion, and without a refused call only if its tunnel was deleted; leftovers and comments no undo takes off stay in effect, nothing else |
| Executor.Run.GiveUp | crates/core/src/engine/executor.rs:1384-1446 | after a failed step the run ends rolled back or partially applied, with the same conditions |
| Executor.Run.UndoOne | crates/core/src/engine/executor.rs:2404-2472 | an undo works if and only if it is possible and no call of it is refused; then it has its effect, an in-place restore keeping the comment the old record did not have, else none |
| Executor.Run.Do | crates/core/src/engine/executor.rs:1561-1685 | a step is done if and only if it is possible and no call of it is refused; then it has its planned effect and returns the undo with the ids the account gave out, else it leaves no trace |
| Executor.Run.Perform | crates/core/src/engine/executor.rs:1424-1448 | a step on its own: done, it joins the steps in effect, with its undo or among those without one; failed, nothing changed |
| Executor.Run.CreateRecords | crates/core/src/engine/executor.rs:1474-1559 | consecutive new records, zone by zone: all of them are in effect afterwards, or the index of a failed one is returned and the run can still be undone exactly |
| Executor.Run.CreateInZone | crates/core/src/engine/executor.rs:1487-1493 | the steps of a zone go out in calls of at most 200 records, each step once |
| Executor.Run.CreateChunk | crates/core/src/engine/executor.rs:1493-1555 | one call creates the records of all its steps, each with its own undo entered after the earlier ones, or of none; then the first step is the failed one, or the first whose tunnel is missing |
| Executor.Run.Planned | crates/core/src/engine/executor.rs:1494-1511 | the records of a call are the planned ones; the first step whose tunnel was not created stops it |
| Executor.ChunkTaken | crates/core/src/engine/executor.rs:1532-1555 | a batch amounts to its steps taken one by one |
| Executor.RolledBackTo | crates/core/src/engine/executor.rs:2776-2788 | after a rollback without leftovers the record data is restored if and only if no step before the failed one leaves a comment, and the account if and only if each of them is undoable |
| Executor.TracesAre | crates/core/src/engine/executor.rs:2418-2430 | a comment is left by exactly the steps before the failed one that changed a record without one in place |
| Effects.NextPossible | crates/core/src/engine/executor.rs:1561-1685 | the next step of a plan that resolves is possible, so only a refused call makes it fail |
| Effects.UndoIsPossible | crates/core/src/engine/executor.rs:2404-2472 | every undo stays possible, except that of the configuration of a tunnel deleted since |
| RollbackLimits.OneRefusal | crates/core/src/engine/executor_tests.rs:864-905 | if at most one call is refused, nothing is left over: a plan that resolves is applied or rolled back |
| RollbackLimits.RefusedAt | crates/core/src/engine/executor.rs:1384-1446 | for every plan that resolves and deletes a tunnel last if at all, as the planner's do: if exactly one call is refused, the run is rolled back and names the step whose call it was; of records that go out together, the first |
| RollbackLimits.FirstsAre | crates/core/src/engine/executor.rs:1487-1493 | the calls for new records of one zone take 200 steps each but the last, and each is named by its first step |
| RollbackLimits.FirstRoutePlan | crates/core/src/engine/planner.rs:809-841 | the planner makes the plan of the next row, with a check of the hostname at its end for a web route, for the first route of a tunnel without rules |
| RollbackLimits.FirstConfigurationStays | crates/core/src/engine/executor.rs:1592-1604 | every run of a given plan whose third call alone is refused ends "rolled back" and not restored |
| RollbackLimits.ConfigureFirst | crates/core/src/engine/executor.rs:1371-1467 | such a run |
| RollbackLimits.CommentStays | crates/core/src/engine/executor.rs:2418-2430 | every run that takes over a record without a comment and is then refused ends "rolled back" with other record data |
| RollbackLimits.TakeOverRecord | crates/core/src/engine/executor.rs:1371-1467 | such a run |
| Executor.RecordRun | crates/core/src/engine/executor.rs:467-486 | the longest run of new records from a step on |
| Executor.MadeTunnel | crates/core/src/engine/executor.rs:1451-1457 | after a whole plan a created tunnel is known exactly if the plan creates one, and it is in the account |
| Effects.Taken | crates/core/src/engine/executor.rs:1561-1740 | every kind of step keeps the invariant of the run, whichever steps came before |
| Effects.Undone | crates/core/src/engine/executor.rs:2404-2472 | an undo takes exactly its own step back, up to the comment it may leave, wherever it stands among the others and whatever else could not be undone |
| Plans.CleanRollback | crates/core/src/engine/executor.rs:2776-2788 | with nothing left to undo the record data is as before if and only if no comment was left, and the account is restored if and only if moreover each step without an undo was harmless |
| Plans.RecordStep | crates/core/src/engine/executor.rs:1605-1685 | a step on a record changes that record only and enters the books |
| Plans.UndoneStep | crates/core/src/engine/executor.rs:2418-2472 | striking one entry keeps the account explained by the others and the comments left |
| Ledger.Enter | crates/core/src/engine/executor.rs:1438-1441 | conservation: records now plus records taken away equal records at the start plus records put in place, when a step is entered |
| Ledger.Strike | crates/core/src/engine/executor.rs:2757-2774 | the same when an undone step is struck out of the middle |
| Meaning.RecordsByPlan | crates/core/src/engine/types.rs:614-648 | after any run the records are those at the start, less what the steps in effect and those that left a comment remove, plus what the steps in effect add and the others left |
| Meaning.RecordInPlace | crates/core/src/engine/executor.rs:488-497 | a record step in effect has its proxied CNAME in the account |
| Meaning.CreatedRecordIs | crates/core/src/engine/executor.rs:1594-1618 | field by field: a new record in effect is in the account, in its zone, under its hostname, a proxied CNAME with ttl 1 that leads to the step's tunnel, commented for its route |
| Meaning.ChangedRecordIs | crates/core/src/engine/executor.rs:1619-1652 | the same for a changed record, whose comment keeps what the old one reserved; a CNAME was changed in place, and only a CNAME |
| Executor.VerifyHostsAre | crates/core/src/engine/executor.rs:1390-1397 | the hosts to verify after a run are those of the plan's verifying steps, in order |
| Meaning.SameStepsSameAccount | crates/core/src/engine/executor.rs:1371-1467 | two runs of a plan that end with the same steps in effect and the same comments left end with the same record data, tunnels, names and rules, whatever was refused or undone in between |
| CloudAccount.Api.CreateRecords | crates/cf-api/src/dns.rs:169-192 | one zone, at most 200 records, all or none |
| CloudAccount.Api.ReplaceRecord | crates/cf-api/src/dns.rs:194-217 | a deletion and a creation together, or neither |
| CloudAccount.Api.UpdateRecord | crates/cf-api/src/dns.rs:152-167 | a patch: in place, for a record of the same kind, keeping the comment when none is given |
| CloudAccount.Api.DeleteTunnel | crates/cf-api/src/client.rs:236-247 | already gone counts as deleted |
| CloudAccount.Api.PutIngress | crates/core/src/engine/executor.rs:2369-2402 | writes the rules unless the version is not the expected one; anything refused changes nothing |
| Ingress.SortIngressIs | crates/core/src/engine/ingress.rs:10-39 | the rules with a hostname are kept, ordered by specificity, and the catch-all stands once, last |
| Ingress.FirstMatch | crates/core/src/engine/ingress.rs:1-39 | whichever rules match a request, the first match in the sorted list has an exact hostname if any match has one, and else a wildcard, the longest path among those, and is the catch-all only if no rule with a hostname matches |
| Ingress.SortedIsStable | crates/core/src/engine/ingress.rs:21-23 | rules of equal specificity keep the user's order |
| Ingress.SortTwice | crates/core/src/engine/ingress.rs:21-39 | sorting what is sorted changes nothing |
| Planner.MakePlan | crates/core/src/engine/planner.rs:801-1367 | the plan, or the refusal, for adding a route, removing one, and removing the tunnel; the next rows say what it comes to |
| RouteLaws.AddRefused | crates/core/src/engine/planner.rs:805-833 | adding a route is refused exactly if its hostname is in no zone, else if another tunnel of the machine serves hostname and path, else if the first rule with that hostname and that path has another service or other options, each with its error |
| RouteLaws.RemoveRefused | crates/core/src/engine/planner.rs:907-915 | removing one is refused exactly without a tunnel, or else if no rule has that hostname and that path |
| RouteLaws.TakeDownRefused | crates/core/src/engine/planner.rs:1230-1231 | removing the tunnel is refused exactly without one |
| RouteLaws.RemovedRules | crates/core/src/engine/planner.rs:916-928 | after an applied removal no rule has that hostname and that path, every other rule with a hostname is in the tunnel as often as before, the catch-all stands last, and other tunnels are as they were |
| RouteLaws.RemovedRecords | crates/core/src/engine/planner.rs:921-937 | it takes no record if a rule has the hostname with another path; else it takes, of the account's records, Teitunnel's own ones of that hostname at the tunnel |
| RouteLaws.AddedRules | crates/core/src/engine/planner.rs:809-841 | after an applied addition the tunnel's rules with a hostname are the old ones, all of them, and the route's, unless one had its hostname and path already, and then nothing is written; a new tunnel has the proposed name, and other tunnels are as they were |
| RouteLaws.AddedRecords | crates/core/src/engine/planner.rs:507-561 | a reading of the hostname then finds one address or CNAME record, proxied and at the tunnel: the old one if it was right already, else a CNAME whose comment keeps what the first record taken over reserved; every other record is in the account as often as before |
| RouteLaws.TakeDownOrder | crates/core/src/engine/planner.rs:1230-1311 | a plan to remove the tunnel empties its rules first, if any has a hostname, in the version read, and deletes the tunnel last |
| Planner.Builder.Add | crates/core/src/engine/planner.rs:809-841 | the checks in order, then tunnel, configuration, records and verification |
| Planner.Builder.Remove | crates/core/src/engine/planner.rs:907-951 | configuration, then the records, if no other route uses the hostname |
| Planner.Builder.TakeDown | crates/core/src/engine/planner.rs:1230-1311 | configuration, the records of all hostnames, the tunnel last |
| Planner.Builder.EnsureTunnel | crates/core/src/engine/planner.rs:321-332 | the machine's tunnel, or a step that creates one |
| Planner.Builder.WriteConfig | crates/core/src/engine/planner.rs:482-498 | a configuration step, unless the sorted rules are the current ones |
| Planner.Builder.EnsureDns | crates/core/src/engine/planner.rs:507-561 | the steps that leave one record for the hostname, none if there is one already |
| Planner.Builder.ReleaseDns | crates/core/src/engine/planner.rs:574-598 | deletions of the records Teitunnel made that point at the tunnel |
| Readings.OneName | crates/core/src/engine/observe.rs:273-310 | a reading of one name lists no record twice |
| Accuracy.PlansAreAccurate | crates/core/src/engine/planner.rs:805-1311 | a plan made from a reading of the names its request looks up resolves, deletes a tunnel last if at all, and is accurate if and only if it does not take down a tunnel for which two different routed hostnames both own a record at the tunnel |
| Accuracy.SharedIsCollision | crates/core/src/engine/planner.rs:1232-1242 | such hostnames differ only in case, and they are what makes two of the sorted, duplicate-free hostnames share a record |
| Accuracy.HostnamesAre | crates/core/src/engine/planner.rs:1232-1236 | the hostnames are those of the rules, in ascending order, so each once |
| Accuracy.ReleasePart | crates/core/src/engine/planner.rs:1240-1242 | from a reading of all hostnames, which may list a record several times, the records of all of them are released once each if and only if no two share one |
| Accuracy.DnsPart | crates/core/src/engine/planner.rs:507-561 | from a reading of the hostname alone, the record steps name different records, as they were read |
| RepeatedDeletions.DeletedTimes | crates/core/src/engine/planner.rs:574-588 | each hostname that is a spelling of a record's name deletes each listing of the record |
| RepeatedDeletions.TakenDownSquared | crates/core/src/engine/planner.rs:1230-1242 | taking down a tunnel deletes a record of Teitunnel's as often as the square of the number of routed hostnames that are spellings of its name |
| RepeatedDeletions.DeletedFourTimes | crates/core/src/engine/observe.rs:280-307 | a reading for the rules "A.x" and "a.x" whose plan deletes their one record four times and is not accurate |
| RecordCounts.ReadingCounts | crates/core/src/engine/observe.rs:285-307 | a reading lists records with given data as often as the account has them, times the looked-up names that find them |
| Convergence.AddConverges | crates/core/src/engine/planner_tests.rs:454-463 | after a plan to add a route was applied, made from a reading of the route's hostname, any later reading of that hostname plans nothing for adding it again |
| Convergence.RemoveConverges | crates/core/src/engine/planner_tests.rs:454-463 | after a plan to remove a route was applied, there is no such route to remove |
| Convergence.RemoveReleases | crates/core/src/engine/planner.rs:936-951 | removing the last route of a hostname takes exactly Teitunnel's own records of the hostname at the tunnel out of the account, and what a later reading finds there is what was not Teitunnel's; removing another route takes no record |
| Convergence.TakeDownConverges | crates/core/src/engine/planner_tests.rs:454-463 | after a plan to remove the tunnel was applied, no snapshot that is true of the account has it |
| Convergence.TakeDownReleases | crates/core/src/engine/planner.rs:1240-1242 | removing the tunnel takes exactly the own records of all its hostnames out of the account, and for each of them, unless two share one, a later reading finds what was not Teitunnel's |
| Convergence.PublishRoute | crates/core/src/engine/planner.rs:809-841 | adding a route, from a reading of its hostname through plan and execution: it is applied if and only if no call is refused, and then no later reading of the hostname has anything left to plan for it; otherwise the run gave up with the outcome, leftovers and restoration that `Execute` states; a request that cannot be planned makes no call |
| Convergence.RecordsSettled | crates/core/src/engine/planner.rs:507-561 | in a reading of the hostname after the plan, it resolves by one record, proxied, at the tunnel, whatever it resolved by before |
| Convergence.AppliedIsDone | crates/core/src/engine/executor.rs:1451-1467 | an execution that reports "applied" has done all of the plan |
| SignInLimiter.Limiter.Blocked | apps/cli/src/serve.rs:89-95 | drops the windows that ended, and answers yes exactly for an address with MAX_FAILURES in a window that did not |
| SignInLimiter.Limiter.Failed | apps/cli/src/serve.rs:97-101 | counts the failure in the open window, or opens one; prunes nothing |
| SignInLimiter.StoredCountBound | apps/cli/src/serve.rs:89-102 | in every interleaving of check, verify and record with at most k in flight, the stored count plus those still in flight is at most MAX_FAILURES + k - 1 |
| SignInLimiter.WindowsInInterval | apps/cli/src/serve.rs:84-102 | the failures in an interval belong to the window open at its start or the one window opened inside it |
| SignInLimiter.FailuresPerInterval | apps/cli/src/serve.rs:84-102 | any half-open interval as long as the window holds at most 2(MAX_FAILURES + k - 1) - 1 failures of an address, in every interleaving |
| SignInLimiter.AttemptsAreInterleavings | apps/cli/src/serve.rs:269-284 | sign-ins one at a time are the interleaving with one in flight |
| SignInLimiter.FailedSignInsPerInterval | apps/cli/src/serve.rs:269-284 | one at a time, at most 2 MAX_FAILURES - 1 failures in any such interval |
| SignInLimiter.Burst | apps/cli/src/serve.rs:97-101 | wrong attempts in a row all count while there is room, in the window the first one finds or opens |
| SignInLimiter.BoundIsAttained | apps/cli/src/serve.rs:84-102 | a run of sign-ins one at a time with exactly that many failures in one interval |
| SignInLimiter.InterleavedBoundIsAttained | apps/cli/src/serve.rs:84-102 | for every k an interleaving with at most k in flight and exactly 2(MAX_FAILURES + k - 1) - 1 failures in one interval |
| DashboardServer.Server.BeginLogin | apps/cli/src/serve.rs:258-274 | a login up to the question put to the password store: 403 without the header, else 429 with a full window, else on to the question; only the limiter's table changes |
| DashboardServer.Server.FinishLogin | apps/cli/src/serve.rs:275-300 | a login from the store's answer on: 500 if it failed, 401 and one more failure for a wrong password, 500 without a token, else 200 and a session under it |
| DashboardServer.Server.HandleLogin | apps/cli/src/serve.rs:258-300 | the two together, for a login during which nothing else happens, with a clock reading for each |
| DashboardServer.Server.HandleLogout | apps/cli/src/serve.rs:305-308 | ends that session only |
| DashboardServer.Server.SessionValid | apps/cli/src/serve.rs:136-143 | drops sessions that ran out and answers for the cookie |
| DashboardServer.StoredSessions | apps/cli/src/serve.rs:136-143 | a stored session is the one started last; a missing one was ended or ran out |
| DashboardServer.SessionsAgreeWithHistory | apps/cli/src/serve.rs:136-143 | a cookie is accepted if and only if the latest answered login or logout for it in the full history, in which logins wait while others are handled, is a login less than SESSION_TTL ago |
| DashboardServer.LimiterSeesLogins | apps/cli/src/serve.rs:263-284 | however requests interleave with waiting logins, the limiter's table, the logins in flight and the wrong passwords answered are those of the checks and failures among them |
| DashboardServer.RefusalsPerInterval | apps/cli/src/serve.rs:263-284 | over any request history in which at most k logins of an address wait for the password store at any time, it gets at most 2(MAX_FAILURES + k - 1) - 1 wrong passwords answered in an interval as long as the window |
| RequestStream.Stream.Arrived | apps/web/components/live-demos.tsx:69-87 | the new rows, recent arrivals and deadline |
| RequestStream.TrimmedRecent | apps/web/components/live-demos.tsx:70-71 | the trimmed list is what the full history holds in the window, at any later time |
| RequestStream.OneDeadline | apps/web/components/live-demos.tsx:76-82 | the one deadline kept covers exactly the cooldowns of all blocks so far |
| RequestStream.DecisionsAgree | apps/web/components/live-demos.tsx:69-84 | a row is refused if and only if the full arrival history says so |
| RequestStream.RefusedIff | apps/web/components/live-demos.tsx:69-84 | a row is refused if and only if LIMIT earlier arrivals came less than LIMIT_WINDOW before it, or one less than COOLDOWN before it started a block; any other is admitted |
| RequestStream.AdmittedPerWindow | apps/web/components/live-demos.tsx:32-36 | at most LIMIT rows are admitted in any half-open interval of length LIMIT_WINDOW |
| RequestStream.CooldownRefuses | apps/web/components/live-demos.tsx:74-82 | the arrival that starts a block and every one less than COOLDOWN after it are refused |
| CommandWalk.Walk | apps/cli/src/complete.rs:209-232 | the command and the positional count reached by walking the words before the cursor |
| CommandWalk.FirstAnswers | apps/cli/src/complete.rs:221-223 | the subcommand found is the first that answers to the word, and none is found if none does |
| CommandWalk.EntersIs | apps/cli/src/complete.rs:221-223 | a word enters the first subcommand with that name or alias, unless it is hidden |
| CommandWalk.LongTakes | apps/cli/src/complete.rs:174-191 | the first option with a long name takes the next word exactly if it is set or added to, and never with an equals sign |
| CommandWalk.ShortTakes | apps/cli/src/complete.rs:174-191 | so does the first with a letter |
| CommandWalk.ItemUnderstood | apps/cli/src/complete.rs:174-191 | the first word of each kind of item is taken as what it is, and the next word is skipped exactly when it is its value |
| CommandWalk.WalkItems | apps/cli/src/complete.rs:215-232 | walking a written line passes its items and goes on with the rest |
| CommandWalk.WalkArrives | apps/cli/src/complete.rs:209-232 | for every command tree and every line of subcommands, flags, options with values and positionals, the walk ends at the intended subcommand with the intended count, whatever the values look like |
| CommandWalk.WalkArrivesBeforeValue | apps/cli/src/complete.rs:224-228 | the same while the value of a last option is still to be typed |
| CommandWalk.WalkStaysVisible | apps/cli/src/complete.rs:221-223 | on any words at all the walk goes down visible subcommands only |
| ShellWords.Words | apps/cli/src/docs.rs:592-626 | one pass over the line with its buffers and flags, cut at the word that ends the command |
| ShellWords.Cut | apps/cli/src/docs.rs:620-625 | the words before the first comment, redirection or pipe word |
| ShellWords.SplitTyped | apps/cli/src/docs.rs:590-626 | however words are typed, bare and quoted stretches mixed and any blank space between, splitting gives them back up to the word that ends the command |
| ShellWords.EveryListCanBeTyped | apps/cli/src/docs.rs:590-626 | every list of words, empty ones and ones with both quotation marks included, has a line that splits into it |
| Escaping.Text | apps/cli/src/docs.rs:923-941 | the loop builds the escaped text |
| Escaping.TextRoundTrip | apps/cli/src/docs.rs:923-941 | every text can be read back from its escaped form |
| Escaping.CellRoundTrip | apps/cli/src/docs.rs:918-921 | so can every table cell |
| Escaping.CodeSpan | apps/cli/src/docs.rs:923-941 | a code span between backtick strings of any length, anywhere: it is left as it is if and only if each special character in it follows an odd number of the text's backticks |
| Escaping.CodeSpanVerbatim | apps/cli/src/docs.rs:923-941 | so a span without backticks inside is left as it is between backtick strings of an odd length, after an even number of backticks |
| Escaping.CellBackticks | apps/cli/src/docs.rs:918-941 | text and cell have the backticks of the value |
| Escaping.InsertedBefore | apps/cli/src/docs.rs:923-941 | before each `<`, `>`, `{` and `}` of the value that follows an even number of backticks stands an inserted backslash, and nowhere else is one inserted |
| MdxReading.NothingBare | apps/cli/src/docs.rs:923-941 | after an even number of backticks every `<`, `>`, `{` and `}` of the result directly follows a backslash; MDX interprets none of them, read with the code spans and escapes of sections 6.1 and 2.4 of CommonMark, if and only if each one of the value outside code spans is escaped already exactly where the program adds no backslash |
| MdxReading.NothingBareInCell | apps/cli/src/docs.rs:918-921 | the same holds of a cell; and a pipe in it still ends the cell if and only if a pipe of the value, in code or not, follows an odd number of backslashes |
| MdxReading.PairedText | apps/cli/src/docs.rs:918-941 | where backticks outside code spans are single, not escaped and come in pairs, MDX interprets nothing in text or cell if and only if no special character of the value outside code was escaped |
| MdxReading.LoneBacktick | apps/cli/src/docs.rs:923-941 | with one more backtick after such a text, which nothing closes, if and only if moreover every special character after it was escaped |
| MdxReading.BackslashBefore | apps/cli/src/docs.rs:918-941 | a backslash of the value's own before such a character or a pipe takes the inserted one's effect away |
| MdxReading.BacktickBefore | apps/cli/src/docs.rs:923-941 | after a backtick without its like a `<` stays as it is, for MDX to interpret |
| MdxReading.CodeChanged | apps/cli/src/docs.rs:923-941 | code between backtick strings of an even length is code with or without the backslashes it is given, one before each special character |
| BlankLines.Collapse | apps/cli/src/docs.rs:663-666 | the rewrite loop ends, equals the one-pass form, and leaves no three newlines in a row |
| BlankLines.ReplacedShortens | apps/cli/src/docs.rs:664-666 | a pass that finds three newlines makes the page shorter |
| BlankLines.PassKeepsSqueezed | apps/cli/src/docs.rs:664-666 | a pass does not change the one-pass form |
| BlankLines.NothingToSqueeze | apps/cli/src/docs.rs:664-666 | a page without three newlines in a row is its own one-pass form |
| BlankLines.SqueezedHasNoTriple | apps/cli/src/docs.rs:663-666 | the one-pass form never has three newlines in a row |
| BlankLines.Finish | apps/cli/src/docs.rs:663-669 | the page is the collapsed one up to its last character that is not blank, and one newline |
| BlankLines.FinalPage | apps/cli/src/docs.rs:663-669 | the final page has no three newlines in a row, ends in exactly one, and finishing it again changes nothing |
| MessageNames.SnakeCase | crates/core/build.rs:37-59 | the loop spells the name, or stops at a character no key may have |
| MessageNames.SnakeRoundTrip | crates/core/build.rs:37-59 | a camelCase name can be read back from its function name |
| MessageNames.SnakeIsUsable | crates/core/build.rs:37-59 | a name is generated exactly for keys of ASCII letters, digits and underscores, is no reserved word and does not start with a digit |
| MessageNames.SnakeInjective | crates/core/build.rs:37-59 | different camelCase names get different function names |
| MessageNames.SnakeCollide | crates/core/build.rs:37-59 | two keys share a function if and only if they are spelled the same, or differ by the underscore put before a leading digit |
| MessageNames.SnakeCollisions | crates/core/build.rs:37-59 | an underscore or a leading capital is enough for two names to collide |
| Placeholders.Scan | crates/core/build.rs:62-78 | the scan ends on every text and returns the names among its holes |
| Placeholders.HolesOfPrinted | crates/core/build.rs:62-78 | of any printed list of literals and placeholders exactly the placeholders are found, in order |
| Placeholders.EveryTextIsPrinted | crates/core/build.rs:62-78 | every text is such a printed list and an unclosed rest |
| Placeholders.FirstAppearances | crates/core/build.rs:61-73 | the names come without duplicates, and are exactly the alphanumeric ones |
| Placeholders.NameOrNot | crates/core/build.rs:61-73 | which holes those are: ASCII letters and digits, at least one |
| Placeholders.NamesInOrder | crates/core/build.rs:61-73 | a name listed before another also appears before it |
| MessageLeaves.FirstBase | crates/core/build.rs:80-82 | a base is found exactly when the key ends in a plural suffix, and the key is that base and a suffix |
| MessageLeaves.Place | crates/core/build.rs:92-115 | what visiting one key does to the leaves |
| MessageLeaves.GroupLeaves | crates/core/build.rs:88-115 | the leaves after all keys, or the stop |
| MessageLeaves.GroupingIsOrderFree | crates/core/build.rs:88-115 | grouping succeeds if and only if no plural form is visited before the plain message of its name, and then yields leaves that depend on the set of messages only: every text key in its one leaf |
| MessageLeaves.AnyOrder | crates/core/build.rs:88-115 | when no name is both, every order gives the same leaves |
| MessageLeaves.SomeOrderStops | crates/core/build.rs:107-112 | when some name is both, some order stops the build |
| MessageLeaves.AscendingNeverStops | crates/core/build.rs:92-112 | in ascending order it never stops |
| MessageLeaves.FunctionsAreDistinct | crates/core/build.rs:88-125 | camelCase leaves get different functions |
| Protection.Upsert | apps/cli/src/protect.rs:226-232 | the untouched entries in order, then the last rule for each name, ignoring case |
| Protection.UpsertedIsClosed | apps/cli/src/protect.rs:226-232 | replacing rule by rule amounts to that |
| Protection.UpsertTwice | apps/cli/src/protect.rs:226-232 | giving the same rules again changes nothing |
| Protection.UpsertKeepsUnique | apps/cli/src/protect.rs:226-232 | names stay unique if they were |
| Protection.ApplySwitches | apps/cli/src/protect.rs:258-283 | the plain switches, setting by setting: a negative one wins over a positive one, and what no option names stays |
| Protection.Apply | apps/cli/src/protect.rs:253-304 | with `--off` every setting has its default; else the switches hold as above, each header that has an option carries the last of its rules and nothing else, and every other entry is kept, or none after clearing |
| Protection.LastRuleWins | apps/cli/src/protect.rs:226-232 | the same of a list and the rules given for it |
| Protection.ApplyTwice | apps/cli/src/protect.rs:253-304 | for every set of options, applying them again changes nothing, and header names stay unique |
| ShareStatus.Reporter.See | apps/cli/src/share.rs:369-426 | one round of the loop: flags, lines and how it ends; `Run` says what that comes to |
| ShareStatus.Reporter.SeeUp | apps/cli/src/share.rs:377-412 | a look at a live share |
| ShareStatus.Reporter.Announce | apps/cli/src/share.rs:387-409 | the announcement, up to where printing fails |
| ShareStatus.Run | apps/cli/src/share.rs:366-433 | over any looks, the loop ends at the first that finds the share gone or failed, cannot print the announcement it is the first to make, or is stopped, and with that look's failure message, with failed output, or with success, and not before; the announcement is the first live look's URL, the bearer note if a token is asked for, and the note that recording failed, up to where printing fails |
| ShareStatus.LinesTellChanges | apps/cli/src/share.rs:366-426 | over every run the announce, lost and reconnected lines tell exactly the changes between up and down that were seen |
| ShareStatus.ConnectionLines | apps/cli/src/share.rs:366-426 | the URL is announced at most once, each "Reconnected" directly follows a "Connection lost", and two losses never follow one another |
| ShareStatus.CheckExplainedOnce | apps/cli/src/share.rs:380-385 | what is explained is the first check found after the announcement, once |
| ShareStatus.FirstLater | apps/cli/src/share.rs:380-385 | which check that is |
| PauseAnnouncer.Announcer.Tick | apps/cli/src/sharing.rs:46-62 | the lines of a tick and the list it remembers |
| PauseAnnouncer.MessagesAlternate | apps/cli/src/sharing.rs:35-62 | over every run a hostname's messages alternate starting with "paused" if and only if no list that newly has it, or last had it, lists it twice, and then the latest one agrees with the current list |
| PauseAnnouncer.DistinctListsAlternate | apps/cli/src/sharing.rs:46-62 | lists without duplicates always alternate |
| PauseAnnouncer.ListedTwice | apps/cli/src/sharing.rs:54-58 | a hostname listed twice is announced twice |
| TunnelReport.Reporter.Report | apps/cli/src/up.rs:134-146 | one poll: the lines for changed states and what is remembered |
| TunnelReport.WordsAre | apps/cli/src/up.rs:15-25 | which states each wording stands for |
| TunnelReport.TunnelLinesTellChanges | apps/cli/src/up.rs:134-158 | over every run the lines about a tunnel are its states without immediate repetitions |
| Changes.CompressedTellsChanges | apps/cli/src/up.rs:136-145 | without immediate repetitions nothing is said twice in a row and the latest line is the latest state |
| Ticks.Loop.Tick | apps/cli/src/sharing.rs:37-45 | whether schedules are looked at, and the wrapping counter |
| Ticks.CounterIsModulo | apps/cli/src/sharing.rs:45 | the counter is the number of ticks modulo 2^32 |
| Ticks.NextCheck | apps/cli/src/sharing.rs:22-45 | however long a loop runs, the next look comes exactly one period after the last, or 2^32 modulo the period across a wrap (the share loop's 15 ticks and the route host's 10) |
| TourPosition.Position | apps/web/lib/chapters.ts:6-18 | the card is the last whose top reached the line, or the first; the progress times the cards to pass is the cards passed and how far the next has come from the bottom of the window to the line |
| TourPosition.ProgressInRange | apps/web/lib/chapters.ts:2-18 | the progress is in [0, 1], and 1 exactly when the last of two or more cards is active or about to be |
| TourPosition.ProgressNeverGoesBack | apps/web/lib/chapters.ts:6-18 | when all cards move up by the same amount the progress never goes back, even when the scan jumps |
| Durations.AcceptedIsExact | apps/cli/src/share.rs:31-55 | a duration is accepted if and only if the exact product of its number and unit is between one second and seven days, and then is that product |
| Durations.RenderedIsAccepted | apps/cli/src/share.rs:34-55 | every decimal rendering of such a duration, in any unit, is accepted as it |
| Durations.DecimalValue | apps/cli/src/share.rs:40-42 | reading a decimal rendering gives the number back |
| Durations.UnitsAre | apps/cli/src/share.rs:31-55 | a number with `s`, `m`, `h` or nothing is that many seconds, minutes, hours or minutes, if between one second and seven days, and else refused |
| Durations.DaysAre | apps/cli/src/snapshot.rs:182-200 | for every text: days in digits, with or without a `d`, are accepted from 1 to 365; any other text exactly if it is a duration, as the smallest number of whole days that covers it |
| Durations.DaysRendered | apps/cli/src/snapshot.rs:182-200 | a number of days written out, with or without the `d`, is accepted as itself from 1 to 365 |
| Durations.DaysCoverDuration | apps/cli/src/snapshot.rs:182-200 | a Snapshot kept by a duration is kept for the smallest number of whole days that covers it |

## Left out

- Executor.Run.Do: models the steps on tunnels and DNS records; connectors, Access, load balancing,
  networks, edge rules, Workers, Snapshots, reservations and leases have steps of the same shape that
  are not part of this model.
- Executor.Run.Execute: does not model a call that failed for the caller but took effect, retries,
  the per-account lock, the progress events, the activity log, the local index of owned records, or
  starting the connector at the end.
- CloudAccount.Api.PutIngress: keeps only a tunnel's rules; the other settings a write preserves are not
  modelled, nor a concurrent edit between the reading and the write.
- Planner.MakePlan: models the steps on tunnels and DNS records of three requests; logins, load
  balancing, leases, edge rules, Workers and the other requests are not part of this model, nor are
  warnings, confirmations, the fresh name of a new tunnel and finding a hostname's zone (both are part
  of the snapshot).
- SignInLimiter.Limiter.Failed: does not model the 32-bit width of the count, and each call reads the
  clock once where the code reads it once per entry.
- MdxReading.NothingBare: reads a paragraph's inline text; block structure, links and HTML are not part
  of this model.
- Convergence.PublishRoute: plans from a reading of the account it then applies the plan to, as the executor
  does (crates/core/src/engine/executor.rs:1065); what others change in between, and the cached readings
  that are only shown, are not part of this model.
- DashboardServer.Server.HandleLogin: password hashing, random tokens and cookie headers are parameters
  or left out, so a session whose cookie could not be written does not occur.
- CommandWalk.Walk: ends where the candidates begin; the later look at the word before the cursor does
  not know whether the walk took it as a value.
- MessageLeaves.GroupLeaves: stops before the checks and the output text of `emit`'s second loop, and
  does not descend into nested groups.
- RequestStream.Stream.Arrived: arrival times are real numbers, not floating-point ones.
- TourPosition.Position: computes in real numbers; rounding and NaN are not modelled.
- ShareStatus.Run: what a look finds, and whether printing works, are inputs; the 1-second wait, the QR
  code and cleaning up after the loop are left out.
- Rate-limit and header parsing, candidate lists, the pages around the escaped text, and the web and
  desktop interfaces: easy members or input and output.
