# Sessions, one-time pads, passwords and the login limit of userservice

This project models the authentication core of userservice in Dafny and proves what it
guarantees.

**Sessions and pads.** `internal/validation/validator.go` keeps two kinds of expiring Redis
hashes, tokens and pads, and per user a set that indexes them. The index is lazy: expired keys
stay in it until a later login evicts them. The login limit, the one-time use of pads and
"clear all sessions" rest on that index alone. It is modelled three times over:

- `Handlers` writes each operation as an automaton that issues one Redis command after another.
  `Interleaving` runs any number of them at once, one command at a time, between clock ticks and
  store errors; a failing command may or may not have taken effect. `WorldInvariant` proves what
  every step keeps, `Concurrency`, `Delisting`, `LoginBound` and `LoginBoundSharp` what follows.
  One-time use is false of a pad whose SADD took no effect: `UnissuedPad` shows the run, and
  `PadLifetime` proves exactly which pads a CompleteOTP uses up, the indexed ones.
- `Validator.Core` is the code itself: a class with the same methods, loops and early exits over
  a Redis client whose commands may fail (`Redis`). `Call` sends only the command the automaton
  sends next, so every method's effect and answer belong to a run of the interleaved system
  (`SoloRun`).
- `SessionSpec` is the system as its users see it: live keys with an owner and a deadline, no
  index. While no command has failed every method of `Core`, and `Replay` for whole runs, gives
  exactly its state and its answers. `SessionRuns` proves what runs of it guarantee.

**Passwords and lockout.** `AuthSpec` has the functions of `internal/relational/basicauth.go` on
the users table, with the failure counter as a byte, and proves the lockout over whole runs and
the password change. `AuthInterleaving` splits them into SELECT and UPDATE steps acting on stale
rows. There an accepted change can be lost, because Login's UPDATE writes back the password it
has read; `AuthDurability` shows the run and proves exactly when an accepted change lasts.
`Relational.Conn` is the code, with failing statements.

**Adding users.** `UserSpec` states what `AddUser` comes to and when it ends. The code searches
the whole MySQL message for `users.PRIMARY`, and that message quotes the offending value. A clash
on a name that itself contains `users.PRIMARY` is therefore taken for a clash of ids and retried
for ever (`internal/relational/user.go:87-88`). `AddUserEnds` shows that this is the only way not
to end.

**Both stores together.** `RouterSpec` and `Router.UserService` are `PostLogin`, `authnPad` and
`PatchLogin`. PatchLogin is not all or nothing; `RouterSpec` proves exactly which requests leave
both stores alone and what each refusal leaves behind.

Assumptions: a generated uuid was never generated before; Redis runs each command atomically;
MySQL runs each statement atomically, reports the primary key first and names its keys
`users.PRIMARY` and `users.name`.

Check the project with `dafny verify --resource-limit 2000000 dfyconfig.toml`.

## Model

| member | source | states |
|---|---|---|
| RedisStore.OnlyHSetRevives | internal/validation/validator.go:36-46 | of the nine commands, faults included, only HSET can bring a dead or absent hash to life; in particular EXPIRE never creates a key |
| RedisStore.SetsChangeByName | internal/validation/validator.go:43-45 | only SADD puts a key into an index and only SREM takes out the keys it names |
| RedisStore.FieldsChangeByName | internal/validation/validator.go:39-42 | where the fields of any hash come from after any command, faults included |
| RedisStore.KeyResults | internal/validation/validator.go:36-38 | EXISTS and EXPIRE tell whether the key lives, and after EXPIRE it lives if and only if it did and was given time |
| RedisStore.SAddResult | internal/validation/validator.go:43 | the number SADD answers is the number of keys by which the set has grown |
| RedisStore.SRemResult | internal/validation/validator.go:45 | the number SREM answers is the number of keys by which it has shrunk |
| RedisStore.KeyTextsAreDistinct | internal/validation/validator.go:96-97 | `token:`, `pad:` and `logins:` texts never collide, so hashes and indexes may be kept apart |
| Handlers.Begin | internal/validation/validator.go:92-273 | every operation starts at a command it can send |
| Handlers.Resume | internal/validation/validator.go:92-355 | every result leads to a control point of the same operation with its command well defined (indexes in range, no empty SREM) |
| WorldInvariant.RunKeepsInv | internal/validation/validator.go:92-355 | every interleaving, with every pattern of faults and ticks, keeps: hashes whole and owned, indexes holding only their user's keys, issued live keys indexed, and each request's knowledge of dead keys |
| WorldInvariant.StepKeepsInv | internal/validation/validator.go:92-355 | the same for one step of any kind |
| WorldInvariant.OnlyDeadAreRemoved | internal/validation/validator.go:157-344 | every SREM that checkCount, Logout or clearLogins sends names dead keys only |
| WorldInvariant.HeldKept | internal/validation/validator.go:157-344 | no command, of any request and with any fault, takes a live key out of its user's index |
| WorldInvariant.CoverageKept | internal/validation/validator.go:126-238 | so every issued key that lives is still in its user's index after the command, one just issued included |
| WorldInvariant.HashKept | internal/validation/validator.go:104-107 | a hash is built whole and taken away whole: tokens have exactly userid and remote, pads also redirect, and userid is the owner |
| WorldInvariant.ClearStep | internal/validation/validator.go:279-292 | each HDEL of clearTokens kills its key, and every key of the user issued or indexed before the call is dead or still to come in the listing |
| WorldInvariant.EnumerateStep | internal/validation/validator.go:294-305 | the listing clearLogins works from names every live key of the user issued or indexed before the call |
| Concurrency.IssuedLiveKeysAreIndexed | internal/validation/validator.go:92-238 | under any interleaving and any faults a token or pad answered with 200 is, while it lives, in its user's index and in nobody else's, and its hash holds exactly the user, the remote address and, of a pad, the redirect of its request |
| Concurrency.LiveHashesAreWhole | internal/validation/validator.go:152-284 | in every reachable state a live token has exactly userid and remote and a live pad also redirect, and the HDEL of Logout or clearTokens removes the whole key |
| Concurrency.PadIsNewToItsIndex | internal/validation/validator.go:223-232 | OTP's "no row was updated" branch is unreachable: an SADD that works always adds |
| Concurrency.FaultsAreAnswered | internal/validation/validator.go:92-355 | a failing command ends its request with 500 and an empty value, except that LoginOTP answers "/" and OTP, once past checkCount, the text of the error |
| Concurrency.CompleteOtpSweepsAll | internal/validation/validator.go:262-313 | when CompleteOTP answers 200 for a user, every key of that user issued before the call began, or in an index by then, is dead and stays dead, whatever ran beside it |
| Concurrency.CompletedPadIsDead | internal/validation/validator.go:262-313 | the user answered is the one the pad was issued to, and the pad is dead for good though no command names it |
| Concurrency.PadsWorkOnce | internal/validation/validator.go:240-313 | once CompleteOTP on a pad that was issued, or that an index names, has answered 200, every later LoginOTP or CompleteOTP on it can only answer 500, in every continuation |
| Concurrency.LogoutIsFinal | internal/validation/validator.go:136-195 | once Logout has answered 204, every later Valid or Logout of that token is refused, in every continuation |
| Delisting.LogoutDelists | internal/validation/validator.go:136-165 | once Logout has answered 204 for a token issued or indexed before, the token is in no index, in every continuation |
| Delisting.CompletionDelists | internal/validation/validator.go:262-313 | once CompleteOTP has answered 200, no key of that user issued or indexed before is in any index, in every continuation |
| Concurrency.DeadKeysAreRefused | internal/validation/validator.go:136-277 | a request that starts on a dead key fails: 500 for a pad, 307 (500 on a store error) for a token |
| UnissuedPad.StrayPadSurvivesCompletion | internal/validation/validator.go:223-277 | for a pad that was never handed out, because its SADD failed, one-time use is false: CompleteOTP answers 200 and a later LoginOTP still redirects |
| PadLifetime.CompletionKillsTheIndexed | internal/validation/validator.go:223-313 | of the live pads whose OTP is over, a CompleteOTP that answers 200 leaves alive exactly those that no index named when it began and whose deadline has not come |
| PadLifetime.PadsWorkOnceExactly | internal/validation/validator.go:223-313 | one-time use, if and only if: such a pad is good for nothing but 500 from then on exactly when some index named it before the call, or its deadline has come |
| LoginBound.LoginsAreBounded | internal/validation/validator.go:92-355 | with at most k Logins and OTPs for a user in progress at any moment, errors and expiries included, the index never exceeds maxLogins - 1 + k (nothing at all if maxLogins is below 1) |
| LoginBound.RunKeepsBound | internal/validation/validator.go:315-355 | the inductive form: index size plus requests past checkCount |
| LoginBound.EvictionMakesRoom | internal/validation/validator.go:342-354 | the slow path of checkCount admits only when its SREM removed at least one member |
| LoginBoundSharp.BoundIsReached | internal/validation/validator.go:92-355 | the bound is exact: for every limit and every k some error-free run reaches it |
| SoloRun.SoloIsRun | internal/validation/validator.go:92-355 | a request handled alone, faults and all, is a run of the interleaved system from any state of the others |
| SoloRun.HandlingIsRun | internal/validation/validator.go:92-355 | so is every effect and answer that a method of Core promises through Handles |
| Redis.Client.Do | internal/validation/validator.go:36-46 | one command: its effect and result, or an error with or without the effect |
| Redis.Enumerate | internal/validation/validator.go:44 | SMEMBERS lists each member once, in no particular order |
| Validator.Core.constructor | internal/validation/validator.go:60-90 | a service may start over any store an orderly service left behind, whatever its limits were; the token lifetime is AuthnTimeout times 60 seconds |
| Validator.Core.Call | internal/validation/validator.go:36-46 | a method can only send the command its automaton is due to send, and moves on with its result |
| Validator.Core.Probe | internal/validation/validator.go:328-340 | the probing loop finds exactly the dead members |
| Validator.Core.Recount | internal/validation/validator.go:328-354 | the slow path: 200 if and only if fewer than maxLogins members live; the dead members, all of them and nothing else, have left the index |
| Validator.Core.CheckCount | internal/validation/validator.go:315-355 | an exact lazy counter: fast path and full scan both answer 200 if and only if fewer than maxLogins members live, 429 otherwise; the fast path evicts nothing, the slow one every dead member |
| Validator.Core.Create | internal/validation/validator.go:104-121 | the HSET and EXPIRE that Login and OTP both send |
| Validator.Core.IssueToken | internal/validation/validator.go:104-133 | Login past checkCount: the token is stored whole, expires in AuthnTimeout and is in the index, or 500 |
| Validator.Core.Login | internal/validation/validator.go:81-134 | with 200 a cookie that carries the new token and expires exactly when its hash does, whatever failed before; without, one that clears the browser's; while nothing fails, state and answer of SessionSpec.Answer |
| Validator.Core.OTP | internal/validation/validator.go:197-238 | with 200 a new pad that is indexed and expires in fifteen minutes; while nothing fails, its hash as asked, and state and answer of SessionSpec.Answer |
| Validator.Core.IssuePad | internal/validation/validator.go:209-237 | OTP past checkCount: the pad is stored whole, expires in fifteen minutes and is in the index, or 500 |
| Validator.Core.Touch | internal/validation/validator.go:167-195 | Valid's two commands, also run by Logout: 204 if and only if the token lives |
| Validator.Core.Valid | internal/validation/validator.go:81-195 | with 204 the token lived, and the cookie carries it and expires exactly when it now does; otherwise the cookie clears the browser's; while nothing fails, state and answer of SessionSpec.Answer |
| Validator.Core.Drop | internal/validation/validator.go:142-162 | Logout's last three commands: 204 and one session less if the owner is found, else 403 and nothing changed |
| Validator.Core.Logout | internal/validation/validator.go:136-165 | removes exactly one session, and with 204 its token from the index and no other key from any; while nothing fails, state and answer of SessionSpec.Answer |
| Validator.Core.LoginOTP | internal/validation/validator.go:240-260 | location and status, a 302 only to the stored redirect of a named user's pad; the store never changes |
| Validator.Core.ClearTokens | internal/validation/validator.go:279-292 | deletes exactly the listed hashes, or stops at a store error |
| Validator.Core.ClearLogins | internal/validation/validator.go:294-313 | the user's index empty and every hash it named gone |
| Validator.Core.CompleteOTP | internal/validation/validator.go:262-277 | answers the pad's owner and removes all that user's sessions and pads, index included; everybody else's hashes and index are untouched |
| Validator.Core.Serve | internal/validation/validator.go:27-34 | any operation of the interface: effect and answer of a solo run always, of SessionSpec while nothing fails |
| Validator.Core.Replay | internal/validation/validator.go:92-355 | refinement over whole runs: as long as no command fails, any sequence of requests and waits gives the state and the journal of SessionSpec |
| SessionAbstraction.IndexIsLiveSet | internal/validation/validator.go:315-326 | the index without its stale members is the set of live keys of the user |
| SessionAbstraction.CountedIsExact | internal/validation/validator.go:99-131 | over a counted store with room the three creating commands do what SessionSpec says, and store what was asked |
| SessionAbstraction.CountedOutIsExact | internal/validation/validator.go:99-103 | over one without room a refusal changes nothing that lives, as SessionSpec says |
| SessionAbstraction.CreatedStands | internal/validation/validator.go:104-131 | over any store the three creating commands leave the key with its deadline, in the user's index |
| SessionAbstraction.TouchIsExact | internal/validation/validator.go:172-192 | EXPIRE on a live token is SessionSpec's touch, on any other nothing |
| SessionAbstraction.LogoutFlow | internal/validation/validator.go:136-165 | the touch and the two deletions of Logout remove one session and nothing else, with the status SessionSpec gives |
| SessionAbstraction.SweepIsExact | internal/validation/validator.go:294-313 | clearing the index of a user removes exactly that user's live keys |
| SessionAbstraction.SweepSparesOthers | internal/validation/validator.go:294-313 | clearing the index of a user changes no other user's hash or index |
| SessionRuns.SlidingExpiry | internal/validation/validator.go:81-195 | Valid answers 204 if and only if the journal shows the token issued, not logged out or swept since, and last touched less than AuthnTimeout minutes ago; the stored deadline is the last touch plus MaxAge |
| SessionRuns.LogoutNeverForbids | internal/validation/validator.go:136-165 | Logout answers 204 if and only if Valid would, 307 otherwise, and never 403 |
| SessionRuns.IssuedTokenStaysValid | internal/validation/validator.go:92-195 | the same from any state, for a token just issued there |
| SessionRuns.OtpRoundTrip | internal/validation/validator.go:197-260 | a pad answered with 200 redirects to exactly the stored location if and only if less than fifteen minutes have passed and no CompleteOTP has succeeded for its user (400 for no user or no location, else 500) |
| SessionRuns.CompletionRoundTrip | internal/validation/validator.go:197-313 | for exactly as long CompleteOTP on it answers 200 and the user it was issued to, and removes that user's keys and no others |
| SessionRuns.GrantsAreExact | internal/validation/validator.go:92-238 | Login and OTP answer 200 if and only if fewer than maxLogins keys live, else 429; the new key's owner, location and deadline, and that no other key changes |
| SessionRuns.TokenRequestsAreExact | internal/validation/validator.go:136-195 | Valid and Logout change their own token alone, and nothing about a dead one |
| SessionRuns.LimitIsKept | internal/validation/validator.go:315-355 | one request at a time, no user ever has more than maxLogins live tokens and pads |
| AuthSpec.HashIsInjective | internal/relational/conn.go:99-115 | under one salt, different passwords have different hashes |
| AuthSpec.ValidateRules | internal/relational/basicauth.go:148-157 | which new passwords validate refuses, and how, told by the passwords and not their hashes: shorter than eight, or the name or the current password |
| AuthSpec.ChangeAccepts | internal/relational/basicauth.go:33-53 | ChangePassword succeeds if and only if the row exists, is not locked, the old password is right, and the new one is long enough, is not the name and is not the old one |
| AuthSpec.ChangeIsReal | internal/relational/basicauth.go:33-53 | after it the new password and no other logs in, the counter is zero, other rows are unchanged |
| AuthSpec.RefusedChangeKeepsPassword | internal/relational/basicauth.go:36-41 | a refused change leaves the stored password and all other rows alone |
| AuthSpec.ChangeLeaves | internal/relational/basicauth.go:33-53 | once its login is accepted, exactly one password logs in afterwards: the new one if the change goes through, the old one if not |
| AuthSpec.ResetIsReal | internal/relational/basicauth.go:108-125 | from any state, locked or not, after ResetPassword the seed and nothing else logs in |
| AuthSpec.LoginAnswers | internal/relational/basicauth.go:55-106 | answer and new row of Login for each case, told by the row: missing, locked, wrong password, right password |
| AuthSpec.ChangeAnswers | internal/relational/basicauth.go:33-53 | answer and new row of ChangePassword for each case: login refused, too short, name or current password, accepted |
| AuthSpec.ResetAnswers | internal/relational/basicauth.go:108-125 | answer and new row of ResetPassword for a missing and an existing user |
| AuthSpec.PasswordTracksChanges | internal/relational/basicauth.go:33-125 | over any run the stored password is the one last set by an accepted change or a reset, and no user comes, goes, or has the name, address or number touched |
| AuthSpec.CounterTracksRejections | internal/relational/basicauth.go:55-106 | over any run the counter is the number of rejections in a row, stopped at maxfailure + 1; with a limit of 255 the byte wraps instead |
| AuthSpec.LockedAfterTooMany | internal/relational/basicauth.go:61-62 | a login is answered "too many" if and only if more than maxfailure attempts in a row were rejected and the limit is below 255 |
| AuthSpec.OnlyResetUnlocks | internal/relational/basicauth.go:61-125 | while locked no attempt changes the table, and of all events only a reset of that user unlocks |
| AuthSpec.TimestampsTrackAttempts | internal/relational/basicauth.go:70-106 | loginsuccess and loginfailure are the times of the last accepted attempt or reset and of the last wrong password |
| AuthInterleaving.AloneIsSpec | internal/relational/basicauth.go:33-125 | the SELECT and UPDATE steps, run alone and without faults, add up to Login, ChangePassword and ResetPassword |
| AuthInterleaving.CountersStayBounded | internal/relational/basicauth.go:55-146 | under any interleaving with stale rows and any faults FailureCount stays at most maxfailure + 1 |
| AuthInterleaving.IncrementNeverWraps | internal/relational/basicauth.go:84 | so the byte increment never wraps, however stale the row it started from |
| AuthDurability.StoredDecides | internal/relational/basicauth.go:55-68 | a stored password is the only one that logs in while the user is not locked |
| AuthDurability.LastsExactly | internal/relational/basicauth.go:70-106 | a stored password lasts, whatever runs and fails, until a change or reset replaces it, if and only if no login of the user in progress has read another one |
| AuthDurability.AcceptedChangeLasts | internal/relational/basicauth.go:33-125 | in any run, a change or reset answered without an error has stored its password, and it lasts under exactly that condition |
| AuthDurability.AcceptedChangeCanBeLost | internal/relational/basicauth.go:91-100 | for every unlocked user and acceptable new password an error-free run of seven steps in which the change is answered without an error and then the old password logs in and the new one does not |
| Relational.Conn.GetAuthByAttrs | internal/relational/basicauth.go:15-31 | a row with this id and this name, or no rows, or a failure |
| Relational.Conn.UpdateBasicAuth | internal/relational/basicauth.go:127-146 | writes the authentication columns of one row; "not updated" if and only if there is none |
| Relational.Conn.SoftLogin | internal/relational/basicauth.go:55-68 | the decision about a row, without changing the table |
| Relational.Conn.Login | internal/relational/basicauth.go:70-106 | AuthSpec.Login unless a statement fails; then the table is as before or as if none had, and the counter stays in bounds |
| Relational.Conn.ChangePassword | internal/relational/basicauth.go:33-53 | AuthSpec.ChangePassword unless a statement fails; then the table is as before, as after the login, or as after the change |
| Relational.Conn.ResetPassword | internal/relational/basicauth.go:108-125 | AuthSpec.ResetPassword unless a statement fails; then the table is as before or as after the reset |
| Relational.Conn.AddUser | internal/relational/user.go:62-97 | comes to UserSpec.AddOutcome for whatever ids are drawn; when a statement fails the user has been added once or not at all |
| UserSpec.PrimaryTest | internal/relational/user.go:87-89 | the test for "users.PRIMARY" holds of every clash of ids, and of a clash of names if and only if the name contains that text |
| UserSpec.AddUserEnds | internal/relational/user.go:62-97 | with distinct ids AddUser ends if and only if it is not the case that the name is taken and contains "users.PRIMARY"; then within one INSERT more than there are users, adding the user if and only if the name is free, and answering UserExists if and only if it is taken without containing that text |
| UserSpec.AddUserCanRetryForever | internal/relational/user.go:87-88 | a concrete user for whom no supply of ids is enough |
| UserSpec.AddUserKeepsNamesUnique | internal/relational/user.go:62-97 | one row more under an unused id, or the table unchanged; names stay unique |
| UserSpec.AddedUser | internal/relational/user.go:73-97 | the new row under the new id has the name, mail address and number asked for, no failures, and only the empty password logs in on it |
| UserSpec.UnreachableIsRefused | internal/relational/user.go:65-67 | a user with neither address nor number, and nobody else, is refused before anything is tried |
| Router.UserService.Enter | internal/router/basicauth.go:38-46 | PostLogin once the body is read |
| Router.UserService.PostLogin | internal/router/basicauth.go:30-47 | RouterSpec.PostLogin while neither store fails; with 301 the cookie of a session that is stored and expires with it; whatever fails, 301 only for the right password of an unlocked user, no other row changes, and the failure is answered 400 or 500 |
| Router.UserService.AuthnPad | internal/router/basicauth.go:49-87 | RouterSpec.AuthnPad while neither store fails; whatever fails, a seed only for a pad of this user, no other row changes, and the failure is answered 500 |
| Router.UserService.Renew | internal/router/basicauth.go:101-110 | PatchLogin once the old password is settled |
| Router.UserService.PatchLogin | internal/router/basicauth.go:89-111 | RouterSpec.PatchLogin while neither store fails; the authn-pad cookie expired whenever one was sent with a readable request; whatever fails, 204 only with the old password or a pad of this user, and then the new password stored and the cookie of a stored session; no other row changes, and the failure is answered 500 |
| RouterSpec.PostLoginIsExact | internal/router/basicauth.go:30-47 | 301 if and only if the row exists, is not locked, the password is right and fewer than maxLogins keys live; the new token joins them, otherwise no session changes |
| RouterSpec.PostLoginLeaves | internal/router/basicauth.go:30-47 | status and new users table for each case, told by the row: missing or locked, wrong password, no room, room |
| RouterSpec.WrongPasswordsLock | internal/router/basicauth.go:30-47 | after a row of wrong passwords through PostLogin the right one is accepted if and only if there were no more than maxfailure of them |
| RouterSpec.PlainChangeIsExact | internal/router/basicauth.go:89-111 | PatchLogin without a pad: exactly when it answers 204, and that the user's other sessions stay |
| RouterSpec.PadResetGoesThrough | internal/router/basicauth.go:49-111 | PatchLogin with a pad answers 204, from any failure count, if and only if the pad lives and is this user's, the row exists, maxLogins is at least 1, and the new password is long enough and neither the name nor the seed |
| RouterSpec.PadResetLeaves | internal/router/basicauth.go:49-111 | afterwards only the new password logs in, the counter is zero, the new session is the user's only live key, the pad is dead, and nobody else's row or sessions changed |
| RouterSpec.PadAttemptIsFelt | internal/router/basicauth.go:49-111 | PatchLogin with a pad leaves both stores alone if and only if there is no user id, or the pad is dead, or it has no owner |
| RouterSpec.DeadPadIsRefused | internal/router/basicauth.go:49-94 | and the status of those: 400 without a user id, 500 for a dead pad, 400 for one without an owner |
| RouterSpec.PadRefusalsLeave | internal/router/basicauth.go:49-111 | with a live pad of a named user, whoever asks: its owner's sessions and pads are gone; and the answer and the password of each case (another user, no row, bad new password, no room, none of these) |
| RouterSpec.PlainRefusalsLeave | internal/router/basicauth.go:89-111 | without a pad: answer and effect of each case (no row or locked, wrong password, bad new password, no room after the change), and that no refusal ends a session |
| RouterSpec.PlainAttemptIsFelt | internal/router/basicauth.go:89-111 | without a pad nothing changes if and only if there is no such user, or the user is locked, or a refused new password finds the login already recorded as of now |
| RouterSpec.RejectedPasswordStillResets | internal/router/basicauth.go:49-111 | a bad new password leaves the sessions cleared and the unseen seed as password |

## Left out

- Validator.Core: `Probe`, `Recount`, `Create`, `IssueToken`, `IssuePad`, `Touch` and `Drop` are parts of checkCount, Login, OTP, Valid and Logout made into methods of their own; HTTP, logging, metrics and the `track` builder are not modelled.
- Validator.Core.Login: the clock of the server that sets the cookie's expiry and the clock of Redis are one, counted in whole seconds, and `AuthnTimeout * 60` does not overflow.
- PadLifetime.PadsWorkOnceExactly: a pad whose OTP is still in progress may be indexed during the CompleteOTP or not, so for it the outcome depends on the run.
- Handlers.Resume: SMEMBERS never answers `redis.Nil`, so that branch of clearLogins, which ends like an empty listing, is not a separate one.
- Relational.Conn.GetAuthByAttrs: the columns mtime, ctime, dtime and locked are not modelled.
- Relational.Conn.UpdateBasicAuth: column widths, DATETIME truncation and changed against matched rows are left to MySQL; one row is affected if and only if the id exists.
- Relational.Conn.ChangePassword: the two readings of the clock inside one call are one.
- Relational.Conn.AddUser: the collation that decides when two names clash is equality, and an INSERT without an error adds one row, so UserNotAddedError does not occur.
- Router.UserService: `Enter` and `Renew` are parts of PostLogin and PatchLogin made into methods of their own.
- Router.UserService.PatchLogin: JSON, routing, headers and the half-second sleep in authnPad are reduced to inputs, a status code and a cookie; DeleteLogin, which sends the pad by mail and SMS, is left out.
- AuthSpec.HashIsInjective: the real digest and random salt that are commented out in the source; the hash is the concatenation and the salt the constant that the code uses.
- Passwords are sequences of characters standing for bytes; `len` counts bytes in the source.
- Address and contact CRUD, user update and deletion, the mail and SMS senders and configuration loading: single statements or I/O.
