# Proofs about the vault service's accounts, statement caches and generated models

This project models the account and session service of go-mpc-vault (`internal/auth/service.go`) with its six tables,
the shared statement caches, eager loading, bulk operations and relation lists of the generated models
(`internal/models`), and the push service (`internal/push/service.go`), and proves what they keep over every run, every
interleaving and every input. `dafny verify dfyconfig.toml` checks all of it.

## How it is laid out

**Accounts and sessions.** `Schema` has the tables (users, profiles, access, refresh, reset and confirmation tokens) and
the statements run on them, constraints and cascades included. `Protocol` is the service as a state machine: every
operation reads a snapshot (`Read`) and, unless it can answer at once, later runs one transaction (`Commit`), for which
it keeps its copy of the user row; the updates write that copy back by whitelist. `Run` performs whole calls one after
the other; `Interleaving` lets any number of clients be between their two steps while others commit, the clock advances
and the environment deactivates users. `Effects` and `Consistency` say what one transaction does to each table and what
all of them keep. `RateBounds`, `Sessions` and `Accounts` hold the theorems about atomic runs; `ConcurrentRates`,
`ConcurrentSessions` and `SecondUse` say what is left of them under interleaving, and by which exact conditions.
`Outcomes` says of single calls which answer is given exactly when and what every table is afterwards, row by row, and
that what a logout or deletion took away stays refused over runs. `Service` is the program statement by statement, a
class over a database in which any statement, the commit included, may fail; each method is proved to refine
`Protocol`, its transaction also on its own, on later tables and for an account read at any earlier time, and `Failures`
carries that to whole runs.

**Statement caches.** `CacheKey` has the key encoders and their unique decodability, `TableColumns` the column lists of
all tables, and `StatementCache` the step model of concurrent lookup, build, execute and store.

**Batched forms against simple ones.** `EagerLoad` (nested-loop join against one query per object), `Bulk` (one
statement with flat numbered arguments against one row at a time), `Relations` (parent's list against foreign-key
column). **`Push`** is the fold over an unordered map of providers.

## What is assumed

- One clock that never runs backwards; a read phase and a commit each take place at one instant of it. Row timestamps,
  which the generated `Insert` takes from `time.Now`, are identified with that clock. Durations are whole seconds, as
  `internal/config/server_config.go:219-227` makes them, so `expires_in` is the access token validity.
- Generated identifiers come with each call (`Gen`). Theorems that need them to be new say so (`Fresh`); otherwise the
  database refuses a duplicate.
- Hashing is ideal: a stored hash is the salt and the password, or text that does not decode as a hash.
- Foreign keys hold, and the rows of the six tables go with their user by ON DELETE CASCADE, as the migrations declare.
  The branch for a token whose owner cannot be loaded is therefore dead in consistent tables; it replies with an error here.
- A transaction commits as a whole at one moment, or is rolled back.
- In `Service` a token is looked up together with its user by one `Statement`, where the program issues two queries
  (`qm.Load`); a fault in either has the same outcome.
- User names are already normalised. UpdatePassword and DeleteUserAccount act on the account of an authenticated user;
  in the read phase that account is read from the table, and an unknown user is unauthorized. In `Service` the account
  passed in is arbitrary, so it may be stale.
- Where several reset tokens are reusable, any one may be returned, as the query has no order (`Service.MayReply`).
- Deactivating a user, and other tables starting or ceasing to reference one, are steps of the environment.
- A relation struct `R` is a flag on its object, with the fields next to it; a variadic argument list is a value that
  shares no memory with a relation list. Query results come in table order.
- A push provider's answer to one message depends on the tokens it is sent and concerns no others; a token has one row.

## Where the code differs from its documentation

- `DeleteUserAccount` announces that it deletes the user and all related data (`internal/auth/service.go:489`). Rows of
  `organizations`, `address_book`, `signing_requests`, `approvals` and `audit_logs` reference users without a cascade
  (`migrations/20250601000001-create-organizations.sql:5`, `migrations/20250601000004-create-risk-control.sql:9`,
  `migrations/20250601000005-create-signing-requests.sql:6`, `migrations/20250601000006-create-audit-logs.sql:5`), so the
  deletion is refused for a user they mention: `Outcomes.ReferencedUserStays` is such a run, `Outcomes.DeletionOutcome`
  has the exact condition.
- `WithTransaction` does not report a failed commit: the deferred function assigns to a variable that is not a result
  (`internal/util/db/db.go:46-58`). The caller gets a success reply although nothing was stored: in `Failures.LostLogout`
  a logout is answered as done and both tokens live on. `Service.Service.Logout` says when exactly that happens to it.
- The Upsert cache ignores the options in its key although they shape the statement. It is invisible exactly if no option
  makes a difference (`StatementCache.UpsertOptionsVisible`), and `UpsertOptionsCollide` has two calls for which it does.
- `AddSpendingLimits` ignores how many rows its updates match. Given an object that has no row it succeeds, and the list
  has an id that the table lacks (`Relations.AddWithoutRow`). A successful call keeps list and table in agreement if and
  only if it inserts, or every object has a row and no id is listed twice; a call that fails at its j-th statement, if and
  only if the statements before gave the asset no row it does not list (for insertions: j is 0).
- `RemoveSpendingLimits` clears rows by id and the list by identity. Given a second object for a listed row, a reloaded
  one, say, it succeeds, clears the row and keeps the listed object (`Relations.RemoveByCopy`). It keeps the agreement if
  and only if every listed object with the id of a removed one is itself removed.
- Two clients can refresh with the same token: whenever an active user has a live one, a schedule exists in which both
  calls commit and both new tokens live (`SecondUse.RefreshedTwice`). A refresh that commits trades its token for the new
  one if and only if no refresh with the token, logout naming it or password change has committed since it read the token
  (`SecondUse.RefreshIsFirstUse`); else the user has one token more.
- Likewise two completions can both go through (`SecondUse.CompletedTwice`). One that commits is what confirms the user
  if and only if no other completion of the user has committed since it read the token (`SecondUse.CompletionIsFirst`).
- A password change is meant to end all other sessions. A login, completion or refresh that was read before it and commits
  after it leaves its new token in force (`ConcurrentSessions.PendingSessionOutlivesChange`, with a schedule in
  `RefreshOutlivesChange`). Without such a pending call nothing but the returned token and later logins with the new
  password is left (`SessionsSinceUncontestedChange`).
- The debounce times are checked outside the transactions that insert. Under interleaving two reset tokens of a user are
  still at least min(reuse, validity) apart (`ConcurrentRates.ResetTokensSpaced`), but no more than that
  (`ReuseGapAttained`), and two confirmation tokens can be issued at the same instant (`ConfirmationsTogether`).
- A reset token is not deleted by its use: it is accepted again until it expires (`Accounts.ResetAcceptedAgain`).

## Model

| member | source | states |
|---|---|---|
| Consistency.ReadIsSafe | internal/auth/service.go:251-358 | an operation that decides to open a session has seen a user whose confirmation is not outstanding |
| Consistency.CommitKeepsSound | internal/auth/service.go:418-620 | every transaction keeps: unique names, one profile per user, existing owners, unconfirmed users inactive and without any session row |
| Consistency.RunKeepsSound | internal/auth/service.go:59-620 | those invariants hold after every atomic run |
| Effects.CommitUsers | internal/auth/service.go:589-611 | the whole users table after any transaction: which columns of which row change, and that a failed one changes nothing |
| Effects.CommitSessions | internal/auth/service.go:573-618 | a transaction that opens a session returns the two tokens it inserts, adds exactly these two rows and keeps the others it should |
| Effects.SessionCommits | internal/auth/service.go:565-620 | a transaction that opens a session commits exactly if its user exists and no remaining token has an identifier generated for it; else it changes nothing |
| Effects.SessionTables | internal/auth/service.go:565-620 | all tables after it, in one equation |
| Effects.CommitTokens | internal/auth/service.go:509-563 | reset tokens are never removed but with their user, confirmation tokens only with it or when used to activate |
| Effects.CommitOther | internal/auth/service.go:224-249 | a transaction that opens no session adds no session row and removes just the ones it names |
| Effects.CommitProfiles | internal/auth/service.go:433-440 | any transaction on any tables leaves every profile row that stays as it was, adds one only with a new user and drops one only with its user |
| Effects.CallEffect | internal/auth/service.go:59-620 | a whole call either commits a transaction that its request and the tables justify, or changes nothing and grants nothing |
| Interleaving.NextKeepsSafe | internal/auth/service.go:251-358 | with stale snapshots pending, every step of any client keeps: whoever is about to be given a session is not unconfirmed |
| Interleaving.UnconfirmedOwnNoSession | internal/auth/service.go:509-620 | in every interleaving a user who still requires confirmation is inactive and owns no access or refresh token, and every user has a profile |
| Interleaving.CommitIsIntended | internal/auth/service.go:589-611 | a commit alters name, password, scopes, activity and confirmation of a user only as its kind of call is meant to |
| Interleaving.NoLostUpdates | internal/auth/service.go:92-94 | in every interleaving each account is what its committed changes, replayed in commit order, make it |
| Interleaving.StoredPasswordIsLastWritten | internal/auth/service.go:92-94 | the stored hash is that of the last committed UpdatePassword or ResetPassword of the user, else the one Register stored |
| Interleaving.SessionsLeaveStatusAlone | internal/auth/service.go:608-611 | no interleaving of logins, refreshes, logouts and password changes alters name, scopes, is_active or requires_confirmation |
| ConcurrentSessions.SessionsSinceCommittedChange | internal/auth/service.go:88-114 | in every interleaving, from a committed password change to the next, each live refresh token of the user descends from the returned one, from a session that was pending at that commit, or from a later login that gave the new password |
| ConcurrentSessions.ReadIsTraced | internal/auth/service.go:251-358 | once the password is the new one, every session of the user that a call decides on is a login with it or a refresh of a token so descended |
| ConcurrentSessions.FinishDescends | internal/auth/service.go:573-620 | a commit that changes no password keeps that |
| ConcurrentSessions.SessionsSinceUncontestedChange | internal/auth/service.go:88-114 | the same without the exception, if no session of the user was pending at the change |
| ConcurrentSessions.PendingSessionOutlivesChange | internal/auth/service.go:573-606 | the exception is real: any login, completion or refresh of the user that was pending at a committed change can commit next, and its token lives on beside the returned one |
| ConcurrentSessions.RefreshOutlivesChange | internal/auth/service.go:309-358 | the failing schedule: whenever an active user has a live refresh token, a refresh read before a password change and committed after it goes through |
| ConcurrentSessions.RunKeepsHeld | internal/auth/service.go:309-358 | in every interleaving a refresh that is pending holds an issued token that no other user can come to own |
| ConcurrentSessions.RefreshTokensConserved | internal/auth/service.go:224-249 | over any schedule without a committed change or deletion: count at the end plus logouts of live tokens equals count at the start plus sessions opened plus refreshes whose token was gone when they committed |
| SecondUse.AccountSince | internal/auth/service.go:528-545 | in every interleaving a user exists exactly if it did and no deletion of it committed since, and awaits confirmation exactly if it did and no completion of it committed either |
| SecondUse.GoesThrough | internal/auth/service.go:573-620 | a session transaction commits, however late, exactly if its user has not been deleted since it was decided on |
| SecondUse.LiveUntilConsumed | internal/models/refresh_tokens.go:759-780 | in every interleaving a refresh token is in the table exactly if it was and no refresh with it, logout naming it, password change or deletion of its user committed since |
| SecondUse.RefreshIsFirstUse | internal/auth/service.go:309-358 | the exact condition for single use of a refresh token, in terms of what committed between read and commit |
| SecondUse.CompletionIsFirst | internal/auth/service.go:509-563 | the exact condition for a completion to be the one that confirms the user, likewise |
| SecondUse.RefreshedTwice | internal/auth/service.go:333-349 | the failing schedule for single use: two clients that read one token both commit, and the user has one token more |
| SecondUse.CompletedTwice | internal/auth/service.go:529-553 | the same for a confirmation token: two completions that read it both commit, and each returns a session |
| ConcurrentRates.CommitShape | internal/auth/service.go:186-211 | a transaction, however long ago decided on, issues at most one reset token, to a user with no other within min(reuse, validity) |
| ConcurrentRates.ResetTokensSpaced | internal/auth/service.go:186-211 | in every interleaving any two reset tokens ever issued to a user are created at least min(reuse, validity) apart |
| ConcurrentRates.UnexpiredResetsBounded | internal/auth/service.go:186-211 | so at most ceil(validity / that) of them are unexpired at any moment, and at most floor + 1 acceptable |
| ConcurrentRates.ReuseGapAttained | internal/auth/service.go:172-211 | and no more: whenever a user has no unexpired reset token, a schedule issues it two just that far apart, whatever the debounce |
| ConcurrentRates.ConfirmationsTogether | internal/auth/service.go:377-400 | whenever a user awaits confirmation without an unexpired token, a schedule issues it two at the same instant, whatever the debounce |
| RateBounds.IssueResetShape | internal/auth/service.go:172-211 | InitPasswordReset inserts at most one token, to a user with no other within min(max(debounce, reuse), validity) |
| RateBounds.RegisterShape | internal/auth/service.go:377-456 | Register inserts at most one confirmation token, to a user with no other within min(debounce, validity) |
| RateBounds.CallShape | internal/auth/service.go:59-620 | any call issues at most one such token, as far from the others as said, and one that vanishes belonged to a user who can never be issued another |
| RateBounds.TokensSpaced | internal/models/password_reset_tokens.go:429-439 | in every atomic run any two tokens of a kind ever issued to a user, removed ones included, are created at least the gap apart |
| RateBounds.UnexpiredTokensBounded | internal/auth/service.go:172-211 | at most ceil(validity / gap) of all tokens ever issued to a user are unexpired at any moment, and at most floor + 1 still acceptable to ResetPassword |
| RateBounds.BoundFromEmpty | internal/models/confirmation_tokens.go:429-439 | from an empty database on, the token table itself never holds more unexpired tokens of a user than that |
| Sessions.CommittedLive | internal/auth/service.go:573-620 | the set of a user's refresh tokens after each kind of committed call |
| Sessions.CallCounts | internal/auth/service.go:309-358 | one call: a login or activation adds one refresh token, a logout naming one drops it, a refresh keeps the count, a password change leaves just the returned one |
| Sessions.CommitCounts | internal/auth/service.go:333-349 | one transaction on any tables, whenever it was decided on: a session opened adds one token, a logout drops a live one it names, a refresh adds one exactly if its token is gone |
| Sessions.RefreshTokensConserved | internal/auth/service.go:224-249 | over any run without a password change: count at the end plus logouts equals count at the start plus logins and activations |
| Sessions.CountSincePasswordChange | internal/auth/service.go:573-606 | after the last password change the count is one plus logins minus logouts since |
| Sessions.RefreshTable | internal/auth/service.go:333-349 | a successful refresh was given an existing token and removes it; no other token can appear but the returned one |
| Sessions.OneLiveTokenPerFamily | internal/auth/service.go:309-358 | rotation: tokens chained by Refresh form families, each with at most one live token after every atomic run |
| Sessions.RotationFromEmpty | internal/auth/service.go:309-358 | the same from an empty database, with no assumption but new identifiers |
| Sessions.GoneForGood | internal/models/refresh_tokens.go:759-780 | a refresh token that was deleted never comes back |
| Sessions.AcceptedOnceRefusedEverAfter | internal/auth/service.go:309-358 | a refresh token accepted once is answered with unauthorized after any further run, without effect |
| Sessions.RotationCounts | internal/auth/service.go:333-349 | at commit time a refresh keeps the number of tokens exactly if its token still exists, else there is one more |
| Sessions.PasswordChangeResetsSessions | internal/auth/service.go:573-606 | after a password change the user's session rows are exactly the returned pair and other users' rows are untouched |
| Sessions.ChangeSetsPassword | internal/auth/service.go:82-94 | the password then stored is the one given, and the user's tokens all belong to the family of the returned one |
| Sessions.SessionsDescendFromChange | internal/auth/service.go:251-358 | while the password stays, every live refresh token descends from the given roots or from a successful login of that user with that password |
| Sessions.SessionsSincePasswordChange | internal/auth/service.go:88-114 | until the next change every live refresh token descends from the pair it returned or from a later successful login of the user with the new password |
| Accounts.LoginOutcome | internal/auth/service.go:251-307 | for a named user: deactivated exactly if it is inactive, unauthorized exactly if it is active and its stored hash is not one of the given password, else a session; and all tables afterwards, unchanged but for the session |
| Accounts.RegisterAwaits | internal/auth/service.go:418-456 | registering a free name while confirmation is required leaves an inactive account with that name and hash |
| Accounts.RunKeepsAwaiting | internal/auth/service.go:371-406 | until it is activated nothing changes such an account, repeated registration with other passwords included |
| Accounts.ActivationConfirms | internal/auth/service.go:529-545 | an activation makes the user active and confirmed, keeps name and password, and only a user awaiting confirmation can be activated |
| Accounts.FirstPasswordCounts | internal/auth/service.go:371-406 | after the completion Login accepts exactly the password of the first Register, whatever was registered in between |
| Accounts.StaysConfirmed | internal/auth/service.go:534-536 | a confirmed user never requires confirmation again |
| Accounts.ActivatedAtMostOnce | internal/auth/service.go:528-545 | after the first completion every other token of the user changes nothing, even after a deactivation |
| Accounts.ResetTokenHandedOut | internal/auth/service.go:186-211 | a token InitPasswordReset returns, reused or new, is valid for at least validity minus reuse |
| Accounts.RunSpares | internal/auth/service.go:117-144 | a run that neither deletes nor deactivates the user keeps its reset tokens and keeps it able to log in |
| Accounts.ResetAccepted | internal/auth/service.go:117-144 | ResetPassword accepts such a token up to its last instant and stores the new password |
| Accounts.ResetRoundTrip | internal/auth/service.go:117-222 | reset round trip: request, any sparing run, reset within validity minus reuse, then Login with exactly the new password |
| Accounts.ResetAcceptedAgain | internal/auth/service.go:117-144 | a reset token accepted once is accepted again after any sparing run, up to the same last instant |
| Outcomes.RefreshOutcome | internal/auth/service.go:309-358 | which answer Refresh gives, by an exact condition on the rows for each, and all tables afterwards: nothing changes, or the token is traded for the returned pair |
| Outcomes.ResetOutcome | internal/auth/service.go:117-144 | the same for ResetPassword, with each of its four refusals; the last instant of the validity still counts |
| Outcomes.UpdateOutcome | internal/auth/service.go:59-115 | the same for UpdatePassword: a session or an error, unauthorized exactly for an active user whose decodable hash is of another password; an undecodable hash is an error of its own |
| Outcomes.ChangeOutcome | internal/auth/service.go:88-112 | the transaction of a password change on any tables, whatever the copy of the user it kept: the new hash, exactly the returned pair as sessions of the user, every other row as before |
| Outcomes.CompletionOutcome | internal/auth/service.go:509-563 | the same for CompleteRegister; the last instant of the validity no longer counts, a user not awaiting confirmation gets an empty result without error, and an activation uses up its token and no other |
| Outcomes.ResetStartOutcome | internal/auth/service.go:146-222 | InitPasswordReset of a named user: no token exactly for an unusable user or within the debounce time, else a reused token of the user within the reuse time, else exactly one new row |
| Outcomes.UnknownName | internal/auth/service.go:149-160 | an unknown name gets no token and no error from InitPasswordReset, and unauthorized from Login |
| Outcomes.RegisterOutcome | internal/auth/service.go:371-406 | Register of a taken name: conflict, another token, or none within the debounce, by exact conditions; at most one confirmation row is added and nothing else changes |
| Outcomes.RegisterNewOutcome | internal/auth/service.go:408-462 | Register of a free name inserts exactly one user row, one profile row and, if confirmation is required, one token row, each given in full; every other row of every table is as before |
| Outcomes.ProfilesKept | internal/auth/service.go:433-440 | no call of any kind changes a profile row that stays; one appears only for the user just registered and goes only with its user |
| Outcomes.LogoutOutcome | internal/auth/service.go:224-249 | Logout always succeeds and removes just the tokens it names, whether or not they exist |
| Outcomes.DeletionOutcome | internal/auth/service.go:465-507 | which answer DeleteUserAccount gives, by an exact condition for each: it succeeds for an active user with the right password whom no other table holds on to, with a database error if one does; then nothing mentions the user, and all rows of everybody else, in every table, are as before |
| Outcomes.ReferencedUserStays | migrations/20250601000001-create-organizations.sql:5 | the failing run: a user registered and then referenced cannot delete its account |
| Outcomes.TokensGoneForGood | internal/auth/service.go:59-620 | a token of any of the four kinds that is gone stays gone in every run |
| Outcomes.LoggedOutForGood | internal/auth/service.go:224-249 | after a logout naming them, over any further run, the access token is gone and the refresh token is answered with unauthorized |
| Outcomes.DeletedForGood | internal/auth/service.go:489-499 | after a deletion every refresh, reset and confirmation token the user had is refused, over any further run |
| Service.Database.Begin | internal/util/db/db.go:20-25 | opens a transaction on the current tables, or fails and changes nothing |
| Service.Database.End | internal/util/db/db.go:27-58 | commits if the body succeeded, restores otherwise; a failed commit stores nothing and is not reported |
| Protocol.WhitelistShields | internal/models/users.go:3170-3206 | an Update by whitelist keeps a column for every caller's copy of the row if and only if the whitelist does not name it |
| Protocol.WriteLastAuthenticated | internal/auth/service.go:608-611 | for every copy, stale or lacking requires_confirmation, the update changes just the time of authentication and of update |
| Protocol.WritePassword | internal/auth/service.go:92-94 | likewise, just the password and the time of update |
| Protocol.WriteActivation | internal/auth/service.go:534-536 | likewise for the row read at completion: just the two flags and the time of update |
| Service.Service.AuthenticateUser | internal/auth/service.go:565-620 | for any, even stale, account: returns the pair and has done all inserts and updates, or reports failure |
| Service.Service.UpdatePassword | internal/auth/service.go:59-115 | refines the protocol: all or nothing whichever statement fails, for any account passed in, and which error reports it |
| Service.Service.ResetPassword | internal/auth/service.go:117-144 | likewise |
| Service.Service.InitPasswordReset | internal/auth/service.go:146-222 | likewise |
| Service.Service.FinishPasswordReset | internal/auth/service.go:186-217 | the transaction of InitPasswordReset on whatever tables it finds |
| Service.Service.Logout | internal/auth/service.go:224-249 | likewise; it loses its commit if and only if the statement after its deletions fails and none before it does |
| Service.Service.Login | internal/auth/service.go:251-307 | likewise; a failed lookup is answered with unauthorized, every later fault with a database error |
| Service.Service.FinishLogin | internal/auth/service.go:288-301 | the transaction of Login on whatever later tables, for an account that may be stale |
| Service.Service.Refresh | internal/auth/service.go:309-358 | likewise |
| Service.Service.FinishRefresh | internal/auth/service.go:333-349 | the transaction of Refresh on whatever later tables, for an account that may be stale |
| Service.Service.Register | internal/auth/service.go:360-463 | likewise |
| Service.Service.RegisterAgain | internal/auth/service.go:371-406 | likewise; its insert is not in a transaction |
| Service.Service.RegisterNew | internal/auth/service.go:408-462 | likewise; user, profile and token come together or not at all |
| Service.Service.DeleteUserAccount | internal/auth/service.go:465-507 | likewise |
| Service.Service.CompleteRegister | internal/auth/service.go:509-563 | likewise |
| Service.Service.CompleteInTransaction | internal/auth/service.go:513-556 | the transaction body: its work is what the protocol says, and any failure makes it report one |
| Service.Service.FinishRegister | internal/auth/service.go:534-553 | its writing part on whatever tables, for a row that may be stale |
| Failures.Handle | internal/auth/service.go:59-563 | a call of any kind is all or nothing, and which error it reports if a statement fails |
| Failures.Serve | internal/auth/service.go:418-460 | failure atomicity over runs: the tables end as after the run of just the calls during which nothing failed; each of these replies as in that run, so does one during which a commit was lost, and every other call reports a database error, or unauthorized if it is a Login; faults and lost commits are counted call by call |
| Failures.LostLogout | internal/util/db/db.go:46-58 | the failing input: a logout answered as done although its commit failed, with both tokens still live |
| CacheKey.MakeCacheKey | internal/models/boil_types.go:34-52 | the two loops write the key that the lemmas are about |
| CacheKey.MakeUpsertKey | internal/models/users.go:3315-3341 | the inlined key of Upsert, likewise |
| CacheKey.DecimalReads | internal/models/boil_types.go:37 | the kind of a column list is written as the decimal numeral of its number |
| CacheKey.KeyTexts | internal/models/boil_types.go:34-52 | the text of some keys in full, with and without defaults |
| CacheKey.InsertKeyInjective | internal/models/boil_types.go:34-52 | unique decoding: over a prefix-free set of names the key determines kind, columns and non-zero defaults |
| CacheKey.UpsertKeyInjective | internal/models/users.go:3315-3340 | the Upsert key determines all five of its fields |
| CacheKey.SortedNamesPrefixFree | internal/models/users.go:405 | an alphabetical list whose neighbours part from one another is prefix-free throughout |
| TableColumns.ExpiringTokens | internal/models/access_tokens.go:169 | the table's columns are a prefix-free set of names without dot or leading digit (confirmation and reset tokens have the same) |
| TableColumns.AddressBook | internal/models/address_book.go:288 | as above |
| TableColumns.AppUserProfiles | internal/models/app_user_profiles.go:111 | as above |
| TableColumns.Approvals | internal/models/approvals.go:151 | as above |
| TableColumns.Assets | internal/models/assets.go:221 | as above |
| TableColumns.AuditLogs | internal/models/audit_logs.go:196 | as above |
| TableColumns.Chains | internal/models/chains.go:212 | as above |
| TableColumns.OrganizationMembers | internal/models/organization_members.go:130 | as above |
| TableColumns.Organizations | internal/models/organizations.go:194 | as above |
| TableColumns.PushTokens | internal/models/push_tokens.go:124 | as above |
| TableColumns.RefreshTokens | internal/models/refresh_tokens.go:110 | as above |
| TableColumns.SigningRequests | internal/models/signing_requests.go:265 | as above |
| TableColumns.SpendingLimits | internal/models/spending_limits.go:180 | as above |
| TableColumns.UserCredentials | internal/models/user_credentials.go:198 | as above |
| TableColumns.Users | internal/models/users.go:405 | as above |
| TableColumns.VaultKeys | internal/models/vault_keys.go:139 | as above |
| TableColumns.Vaults | internal/models/vaults.go:201 | as above |
| TableColumns.WalletBalances | internal/models/wallet_balances.go:145 | as above |
| TableColumns.Wallets | internal/models/wallets.go:203 | as above |
| StatementCache.NextKeepsCoherent | internal/models/users.go:3101-3162 | every step of any goroutine keeps: a cache entry is what all arguments with its key call for |
| StatementCache.CacheInvisible | internal/models/users.go:3101-3162 | if keys determine statements, in every schedule of any number of goroutines each executes the statement built afresh from its own arguments |
| StatementCache.CollisionVisible | internal/models/users.go:3101-3162 | if two arguments share a key and not a statement, a schedule exists in which one executes the other's |
| StatementCache.FailedStatementsAreNotKept | internal/models/users.go:3140-3162 | in every schedule in which no execution succeeds the cache stays as it was |
| StatementCache.SuccessfulStatementIsKept | internal/models/users.go:3140-3162 | a statement built and executed with success is executed once and is then found under the key of its arguments |
| StatementCache.InvisibleExactlyIfKeyDetermines | internal/models/users.go:3101-3162 | both directions together |
| StatementCache.InsertCacheInvisible | internal/models/users.go:3177-3228 | Insert and Update over any prefix-free set of names cannot tell that the cache is there |
| StatementCache.UpsertCacheInvisible | internal/models/users.go:3313-3419 | nor can Upsert called without options |
| StatementCache.UpsertOptionsVisible | internal/models/users.go:3377 | with options the Upsert cache is invisible if and only if no option changes any statement |
| StatementCache.UpsertOptionsCollide | internal/models/psql_upsert.go:61-69 | two Upserts that differ in the conflict target only: the second executes the statement of the first |
| StatementCache.InsertCache.Insert | internal/models/users.go:3101-3164 | executes what the arguments call for, stores it exactly if it was executed without error, and keeps the cache right for all arguments |
| EagerLoad.AttachToUser | internal/models/users.go:881-892 | the inner loop: the token goes to the end of the list of the first user with its user id, and points back |
| EagerLoad.Queried | internal/models/users.go:837-850 | the query returns exactly the rows with one of the user ids, each once and in table order |
| EagerLoad.UsersQueried | internal/models/access_tokens.go:328-340 | the same for the users of the tokens |
| EagerLoad.LoadAccessTokens | internal/models/users.go:793-895 | exactly the rows of the given users are fetched, and the lists after the nested loops are the lists before with each fetched token appended once, at its first matching user |
| EagerLoad.JoinedOwned | internal/models/users.go:881-892 | what the join adds to one user's list, repeated ids in the slice included |
| EagerLoad.LoadAccessTokensOfOne | internal/models/users.go:870-879 | the single load replaces the list by the rows of the one user |
| EagerLoad.BatchGivesSingleLoad | internal/models/users.go:830-892 | of the batch each user owns the rows that a query of its own returns, in the same order |
| EagerLoad.LoadFreshBatch | internal/models/users.go:793-895 | for distinct users with empty relations the batch gives each the list of a single load: exactly its rows of the table, in order |
| EagerLoad.OwnedPartitions | internal/models/users.go:881-892 | the lists partition the fetched tokens, counted with multiplicity |
| EagerLoad.LandsInExactlyOneList | internal/models/users.go:881-892 | every fetched token is in exactly one list |
| EagerLoad.AttachToToken | internal/models/access_tokens.go:374-385 | the inner loop of the many-to-one join |
| EagerLoad.LoadUser | internal/models/access_tokens.go:280-388 | exactly the users of the tokens are fetched; every token gets the one user with its user id, and the reverse list of each fetched user is exactly its tokens of the slice, in order |
| EagerLoad.LoadUserOfOne | internal/models/access_tokens.go:364-372 | the single load |
| EagerLoad.BatchGivesSingleUser | internal/models/access_tokens.go:335-385 | batch and single load find the same row, or both none |
| Bulk.ListColumns | internal/models/organization_members.go:775-783 | names and values listed in step, each column once, for any iteration order of the map |
| Bulk.UpdateAll | internal/models/organization_members.go:765-810 | one statement has the effect on the table of updating object after object by primary key, for keys of any width, duplicates and any column order: the columns are set in exactly the rows that agree with some object in all key columns; no columns are an error unless there are no objects |
| Bulk.DeleteAll | internal/models/organization_members.go:987-1017 | likewise for deletion: exactly the rows that agree with no object remain, in order |
| Bulk.UpdateEachMeans | internal/models/organization_members.go:785-793 | what updating object after object comes to, row by row and column by column |
| Bulk.DeleteEachMeans | internal/models/organization_members.go:987-1017 | the same for deletion |
| Bulk.FlatAt | internal/models/organization_members.go:785-789 | the index arithmetic: argument r * width + j is key value j of object r |
| Bulk.SelectedBySomeKey | internal/models/organization_members.go:791-793 | the repeated where clause with its numbered placeholders selects a row if and only if it has the key of some object |
| Bulk.UpdateAgrees | internal/models/users.go:3251-3296 | the rendered update against one-by-one updates |
| Bulk.DeleteAgrees | internal/models/users.go:3474-3504 | the rendered deletion against one-by-one deletions |
| Relations.SwapRemoveAllContents | internal/models/users.go:2275-2288 | the swap-with-last loops leave the list minus one occurrence of each removed object that was present |
| Relations.Asset.RemoveFromList | internal/models/assets.go:876-887 | the inner loop in place removes the first occurrence by moving the last element there; all other elements keep their places |
| Relations.Asset.AddToTable | internal/models/assets.go:772-797 | the statements of Add: all rows moved or inserted, or those before the first that fails; and which objects then carry the foreign key |
| Relations.Asset.AddSpendingLimits | internal/models/assets.go:770-817 | when it fails; for success and failure the exact condition on the input for list and table to stay in agreement, every row of the table, other assets' included, and every field of the objects |
| Relations.AdditionCorresponds | internal/models/assets.go:772-803 | complete addition: agreement if and only if it inserts, or every object has a row and no id is listed twice |
| Relations.PartialAddition | internal/models/assets.go:772-797 | addition cut short at statement j: agreement if and only if j is 0, for updates if no unlisted row was moved before |
| Relations.InsertionsGoThrough | internal/models/assets.go:773-777 | insertions all succeed if and only if no statement fails and the ids are new to the table and to each other |
| Relations.AddWithoutRow | internal/models/assets.go:778-796 | the failing input: an update of an object without a row succeeds and leaves list and table in disagreement |
| Relations.Asset.ReleaseLimits | internal/models/assets.go:826-848 | releases exactly the rows of this asset and detaches every listed object, or does nothing if the statement fails |
| Relations.Asset.SetSpendingLimits | internal/models/assets.go:825-851 | establishes the agreement whatever held before, by the exact condition, and what a failure leaves; each object listed before and not given again has lost its foreign key and its reference to the asset, also if a later statement fails; every row of the table, other assets' included |
| Relations.Asset.RemoveFromTable | internal/models/assets.go:861-871 | the statements of Remove: exactly the objects up to the first failure, the failing one included, have lost foreign key and reference, and exactly the rows before it are cleared |
| Relations.Asset.RemoveSpendingLimits | internal/models/assets.go:856-891 | the list loses exactly the given objects, each of which loses foreign key and reference; agreement if and only if no listed object is bypassed by another with its id; after a failure, if and only if no listed object was concerned; every row of the table |
| Relations.RemovalCorresponds | internal/models/assets.go:875-888 | clearing rows by id and swapping objects out of the list correspond if and only if each listed object with the id of a removed one is removed |
| Relations.RemoveByCopy | internal/models/assets.go:862-887 | the failing input: removing a second object for a listed row clears the row and keeps the listed object |
| Relations.Perform | internal/models/assets.go:770-891 | any one of the three succeeds and keeps the agreement if and only if it is allowed |
| Relations.Maintain | internal/models/assets.go:770-891 | any sequence of Add, Set and Remove succeeds and keeps the agreement throughout if and only if each is allowed where it comes |
| Push.PushService.SendToUser | internal/push/service.go:63-107 | for every iteration order a successful call leaves exactly the rows that are not one of the user with a token its provider answered to be invalid, in the same order; a failed one has dealt with some of the providers so, and it fails exactly if there is no provider or one of two statements per provider fails |
| Push.PushService.SendThrough | internal/push/service.go:69-104 | one pass of the loop, whichever providers came before |
| Push.PushService.TokensOf | internal/push/service.go:71-82 | a provider is sent the tokens of all the user's rows for it, one each and in table order, and no others |
| Push.SentIsTokensFor | internal/push/service.go:71-82 | that describes one list only |
| Push.PushService.CollectInvalid | internal/push/service.go:85-94 | a token is collected if and only if some answer for it is not valid |
| Push.RowsRemaining | internal/push/service.go:91-104 | which rows remain, by the answers to what each provider was sent |
| Push.SentAsFromTheStart | internal/push/service.go:71-82 | deletions on behalf of earlier providers do not change what a later one is sent |
| Push.DeletionExtends | internal/push/service.go:95-104 | each provider's deletion adds exactly its reports to what has been removed so far |

## Left out

- Statement-level interleaving inside transactions, isolation levels, and more than one reading of the clock within a read phase or a commit.
- Errors of the salt generation and of hashing a new password, and panics inside a transaction.
- Bulk.UpdateAll: does not model that the database refuses an update that breaks a uniqueness constraint, because the constraints are not part of the slice methods; the number of rows affected is not modelled either.
- LoadAccessTokens on relations that are already loaded is not compared with a single load: the batch appends where the single load replaces, which its contract states.
- Clean-up of the reverse list by the to-one Remove methods: it compares a key already set to null and skips equal entries.
- SQL text, column-set inference and value binding of SQLBoiler and strmangle: building a statement is an arbitrary function of the cache arguments, and clauses are modelled by their numbered placeholders.
- Query modifiers of the eager loads, and embedded structs passed to them.
- The `updated_at` columns of token and profile rows.
- The other generated tables and relations, LoadSpendingLimits among them: the same templates.
- GetAppUserProfile, the push provider count and the message texts.
- HTTP, gRPC, WebAuthn, mail, i18n, configuration, probes, logging, migrations as a procedure; the signing, vault and organization services.
