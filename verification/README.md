# Verified model of the account service

A Dafny model of the account service's session protocol, credentials, hash strings, signing-seed
decoding and login rate limiter, with proofs. `dafny verify dfyconfig.toml` checks everything.

## What is modelled

**The session protocol, with concurrent callers** (`Protocol`, `ProtocolInvariant`,
`ProtocolTheorems`, `ProtocolTiming`, `Finality`). A state machine whose steps are single store calls: any number of
`Refresh` calls (look up, read the user, insert, replace, revoke the loser, return) and `Login` calls
are in flight, interleaved with each other and with every revocation and status change the service
issues, in any order and with arbitrary clock readings. Proved for every interleaving: the shape of
rotation chains, the single winner of a rotation race, conservation of live tokens, what presenting a
rotated token does, exactly when a revocation is final and, for a clock that does not run backwards, how
long a chain can live.

**The credential table, with concurrent callers** (`CredentialRace`). The reads and writes of logins that
rehash, password changes and resets, interleaved: a run that loses a password just set, and exactly when
that can happen.

**Whole calls** (`Accounts`, `AccountsInvariant`, `Effects`, `AccountsTheorems`, `Sessions`,
`Credentials`). Each service call is one step with one clock reading over users, credentials and tokens.
`Effects` says of each call which rows it changes, to what, and what it returns. Proved over every run from
the empty database: exactly how long a session lives, permanence of revocation, reuse detection, disabled
users, token lifetimes, the access-token window, and the refinement of stored credentials to a map from
user to last password.

**The code's own form** (`Fake`, `Service`). The in-memory store is a class with three maps, the chain
walk, the scan and bulk loops over maps in arbitrary order, and the in-place exchange sort. Each method
is proved to do what the SQL statement of the Postgres store says (`Tables`). The service is a class
whose methods make the store calls in the source's order; each is proved to be one step of the
whole-call model. `Simulation` proves that the own steps of a refresh, or of an accepted login, in the
concurrent model, with no other step between them, leave exactly the state the whole-call step says;
`Refinement` extends this to every call, so that every run of whole calls is one of the interleavings.

**Text formats** (`Base64`, `Scanning`, `Phc`, `Seed`). Base64 follows sections 4 and 5 of RFC 4648,
without padding section 3.2, and the Go decoder: line breaks are skipped, unused trailing bits are not
checked. PHC strings are split, scanned and decoded as the code does, including what it lets through
(text before the first `$`, white space and text after a number, a signed version).

**The rate limiter** (`RateLimiting`). The limiter class, and an account of its decisions on whole call
traces.

Chains are followed with `Hop(t, a, n)`, the n-th successor of a token; `replaced_by` holds at most one
successor, so a chain needs no explicit path.

## Assumptions

- Drawn token ids, token hashes and user ids are new; SHA-256 is applied before the model starts, so a
  client presents a hash. An empty cookie is one more string that matches no row.
- In the concurrent model a client presents only a token that was handed out, or a string that matches
  no row (such a call ends without a write and needs no step).
- The clock does not run backwards between whole calls. The concurrent model assumes this only in
  `ProtocolTiming`.
- Store calls fail only for the reasons the domain gives, and minting a token succeeds.
- argon2id is a function argument that returns as many bytes as asked for. The credential results are
  for runs in which no password presented for a user collides with that user's current one under the salt
  and parameters of the stored hash (`Credentials.Collides`); `Credentials.WrongPasswordRefused` is such a
  run. A collision would matter twice: it would log in, and the lazy rehash would then store a hash of the
  presented password. `CredentialRace` takes verification to be equality of passwords, which is what
  `CredentialRace.StoredStandsForHash` says of hashes without a collision.
- Each store call is atomic, as it is under the mutex of the in-memory store. In Postgres the recursive
  query and the update it feeds (internal/store/postgres.go:218-234) are one statement, but below the
  serializable isolation level it works on its snapshot and can miss a link committed meanwhile;
  `ProtocolTheorems.ReuseKillsChain` rests on this assumption.
- Role and status take the values the schema's CHECK constraints admit.
- Case folding of user names is a function argument.

## Where the code and its comments differ

- The comment on `Refresh` says that a revoked token revokes its chain; the code does so for a replaced
  token only. `ProtocolTheorems.RevokedTailMeansDead` shows that a revoked token without successor ends
  a chain that holds no unrevoked token anyway.
- A revocation is not final while a refresh that has already read the token is in flight, because the
  replace guard tests `replaced_by` only. `Finality.LogoutRace` is such a run and
  `Finality.RevocationFinalIffNotHeld` gives the exact condition.
- The lazy rehash writes back what its login verified, whatever was stored since, so a password just set
  can be lost. `CredentialRace.LostChange` is such a run and `CredentialRace.PasswordSurvivesIffNotStale`
  gives the exact condition.
- "Weaker parameters" does not compare parallelism (`Phc.VerifyHashed`).
- A limiter call naming a key twice can exceed the limit; `RateLimiting.LimitKeptIffDistinct` says that
  this is the only way, and `RateLimiting.LoginKeysDistinct` that logins never do it.

## Model

| member | source | states |
|---|---|---|
| `Chains.ChainsPartition` | internal/store/store.go:109-111 | belonging to one rotation chain is an equivalence relation when no token replaces two: chains are linear and disjoint |
| `Chains.HopsAfterLink` | internal/store/storetest/fake.go:177-189 | linking to an isolated token adds one hop at the end of one chain and changes no other walk |
| `Chains.LinkKeepsLinear` | internal/service/service.go:224-232 | a rotation to a fresh token keeps the links acyclic, with existing targets and in-degree at most one |
| `Chains.StoreAloneAllowsCycle` | internal/store/storetest/fake.go:177-189 | the store's guard alone does not: two accepted replacements close a cycle on which the walk never ends |
| `Tables.RevokeKeepsSound` | internal/store/postgres.go:204-244 | every revoking statement keeps the table sound: linear, replaced rows revoked, chains with one owner, hashes unique |
| `Tables.InsertKeepsSound` | internal/store/postgres.go:173-180 | inserting a fresh token keeps the table sound and leaves the token isolated |
| `Tables.LinkKeepsSound` | internal/store/postgres.go:189-202 | the guarded replacement keeps the table sound when it links an isolated token of the same owner |
| `Tables.ChainsHomogeneous` | internal/service/service.go:220-224 | all tokens of a chain share one user and one device name |
| `Tables.ForwardWalkKillsChain` | internal/service/service.go:188-209 | revoking forward from a revoked token leaves no unrevoked token in its chain, ancestors included; without a successor there was none before |
| `Tables.ChainRevocationIsLocalAndIdempotent` | internal/store/postgres.go:218-234 | chain revocation writes no other user's row, and a second call changes nothing |
| `ProtocolInvariant.StepKeepsInv` | internal/service/service.go:109-239 | every store call of every in-flight call keeps the protocol invariant |
| `ProtocolInvariant.ReachableInv` | internal/service/service.go:159-239 | the invariant holds in every state of every interleaving |
| `ProtocolTheorems.ChainShape` | internal/service/service.go:224-232 | under every interleaving the links are disjoint acyclic lines over existing tokens, replaced tokens are revoked, chains keep their user and device |
| `ProtocolTheorems.SingleWinner` | internal/service/service.go:228-232 | over any run at most one refresh presenting a given token returns a session |
| `ProtocolTheorems.LoserNeverLinked` | internal/service/service.go:228-232 | a call that loses the replace step never returns a session; its token is never linked or handed out, and is revoked once the call is over |
| `Counting.HeadsEqualTails` | internal/store/postgres.go:189-202 | a user's chains have as many first tokens as last ones |
| `ProtocolTheorems.Conservation` | internal/service/service.go:159-239 | a user's unrevoked tokens never outnumber that user's logins plus the refreshes holding a created, not yet linked token |
| `ProtocolTheorems.ReuseKillsChain` | internal/service/service.go:200-209 | after the chain revocation of a presented rotated token, no token of the chain is unrevoked, under every interleaving |
| `ProtocolTheorems.RevokedTailMeansDead` | internal/service/service.go:200-209 | presenting a revoked token that was not rotated needs no write: its chain is dead |
| `ProtocolTheorems.NoSessionWhileDisabled` | internal/service/service.go:211-218 | no call started after a disable and finished before a re-enable returns a session for the user |
| `Finality.StepKeepsFinal` | internal/store/postgres.go:191-194 | without a call that holds its last token, a dead chain stays dead through every step |
| `Finality.RevocationFinalIffNotHeld` | internal/service/service.go:211-232 | the chain of any token, once all revoked, gets an unrevoked token in some continuation if and only if an in-flight refresh read its last token and can still link a live successor |
| `Finality.LogoutRace` | internal/service/service.go:191-255 | a concrete run in which a logout during a refresh revokes every token of the chain, and its continuation in which the chain has an unrevoked token again |
| `ProtocolTiming.SlidingExpiryWithDelay` | internal/service/service.go:168-201 | under every interleaving with a monotone clock, issue and expiry never decrease along a chain; the k-th successor expires within k + 1 lifetimes plus k times the longest delay between a refresh's two clock readings, less a tick each |
| `ProtocolTiming.DelayBoundIsReached` | internal/service/service.go:172-201 | for every lifetime and delay some run has a first successor expiring exactly at that bound |
| `Simulation.RefreshIsItsStoreCalls` | internal/service/service.go:191-239 | a refresh as one step leaves the state its own store calls leave when run in sequence with no other step between them: table, grant and used call id, all else unchanged |
| `Simulation.LoginIsItsStoreCalls` | internal/service/service.go:110-186 | likewise for a login that opens a session |
| `Refinement.CallIsSteps` | internal/service/service.go:76-418 | every whole call, of whatever kind, is a sequence of steps of the concurrent model from any state at rest that shows its database; what it returns is its grant |
| `Refinement.RunIsInterleaving` | internal/service/service.go:76-418 | every run of whole calls is an interleaving from the empty store that ends with the same users and tokens, nothing in flight, and as grants exactly the sessions the calls opened |
| `Refinement.SessionsWithinLogins` | internal/service/service.go:159-239 | hence, over any run of calls, a user's unrevoked tokens never outnumber that user's successful logins |
| `Fake.Store.constructor` | internal/store/storetest/fake.go:28-35 | the new store is empty |
| `Fake.Store.CreateUser` | internal/store/storetest/fake.go:37-59 | refuses exactly the names taken up to case; otherwise adds one active user and nothing else |
| `Fake.Store.GetUserByUsername` | internal/store/storetest/fake.go:72-82 | finds a row with the name up to case if there is one; with unique names the scan order does not matter |
| `Fake.Store.UpdateUser` | internal/store/storetest/fake.go:102-125 | writes exactly the given fields of an existing user |
| `Fake.Store.SetCredential` | internal/store/storetest/fake.go:145-154 | upserts one credential |
| `Fake.Store.CreateRefreshToken` | internal/store/storetest/fake.go:156-162 | inserts the row |
| `Fake.Store.GetRefreshTokenByHash` | internal/store/storetest/fake.go:164-174 | finds the row with the hash if there is one; with unique hashes the scan order does not matter |
| `Fake.Store.ReplaceRefreshToken` | internal/store/storetest/fake.go:176-189 | the guarded update of the SQL store, succeeding exactly when the row has no successor |
| `Fake.Store.RevokeRefreshToken` | internal/store/storetest/fake.go:191-203 | the guarded single-row update, succeeding exactly on an unrevoked row |
| `Fake.Store.RevokeRefreshTokenChain` | internal/store/storetest/fake.go:205-221 | the walk ends on every acyclic table and revokes exactly the unrevoked rows the recursive query collects |
| `Fake.Store.RevokeUserRefreshTokens` | internal/store/storetest/fake.go:223-239 | the loop, in any order, revokes exactly the user's unrevoked rows but the spared one |
| `Fake.SortNewestFirst` | internal/store/storetest/fake.go:252-258 | the in-place exchange sort permutes the array into newest-first order |
| `Fake.Store.ListUserSessions` | internal/store/storetest/fake.go:241-260 | exactly the user's rows that are neither revoked nor replaced nor expired, each once, newest first, whatever the iteration order |
| `AccountsInvariant.StepKeepsInv` | internal/service/service.go:76-418 | every call keeps the database invariant: sound tokens, unique names, owned rows, disabled users locked out, lifetimes |
| `AccountsInvariant.ReachableInv` | internal/service/service.go:76-418 | the invariant holds after every run of calls |
| `Effects.RefreshOpensIffLive` | internal/service/service.go:191-239 | a refresh with a stored token opens a session exactly if that token is neither revoked nor replaced nor expired (its user is then active); it adds one row for the same user and device with a full lifetime, revokes and links the presented row, writes nothing else and returns the user and flag as stored |
| `Effects.RefreshUnknown` | internal/service/service.go:192-199 | a refresh with a string that matches no row is an invalid session and writes nothing |
| `Effects.RefusedRefreshWrites` | internal/service/service.go:200-209 | a refused refresh writes nothing unless the presented token was rotated; then it revokes exactly the unrevoked tokens of the whole chain |
| `Effects.AccessTokenDescribesUser` | internal/auth/token.go:80-117 | the access token names the stored, active user with the stored name and the one stored role, is dated to the whole second, verifies until a second before its lifetime is over and never from then on |
| `Effects.LoginInsertsOneRow` | internal/service/service.go:144-186 | an opened session is one new row with the full refresh lifetime, an empty device name as absent; a refused login writes nothing |
| `Effects.LoginLeavesStrongHash` | internal/service/service.go:144-148 | after a login that opens a session the stored hash verifies the password and asks for no rehash under the current parameters, with its flag kept; a hash that asked for none, and every other user's, is left alone |
| `Effects.LogoutRevokes` | internal/service/service.go:241-255 | logout always succeeds and revokes the row with the presented hash, if any and unrevoked, and nothing else |
| `Effects.RevokeSessionRevokes` | internal/service/service.go:406-418 | revoking a session succeeds exactly for one of the user's own live tokens, and then revokes that row alone; otherwise nothing is written |
| `Effects.UpdateUserWrites` | internal/service/service.go:280-296 | each named field of an existing user gets its value and the others are kept, the new row is returned, a disable revokes all unrevoked tokens of the user, and nothing else is written; an unknown user is not found |
| `Effects.CreateUserWrites` | internal/service/service.go:326-373 | creation is refused exactly for a name taken up to case; otherwise it adds one active user of the given role whose temporary password verifies and must be changed |
| `Effects.BootstrapWrites` | internal/service/service.go:76-107 | without a name or on a store with users bootstrap does nothing; a missing password is an error; otherwise it creates the first administrator, who must change the password |
| `Effects.ResetPasswordWrites` | internal/service/service.go:343-373 | a reset succeeds exactly for an existing user: the temporary password verifies and must be changed, and every unrevoked token of the user is revoked |
| `Effects.ChangePasswordWrites` | internal/service/service.go:298-324 | a change succeeds exactly if the current password verifies: the new one then verifies and need not be changed, and every unrevoked token of the user but the spared one is revoked; each refusal has its error and writes nothing |
| `AccountsTheorems.DeadChainFrozen` | internal/store/store.go:67-70 | a chain without unrevoked token keeps its tokens and their rows from then on |
| `AccountsTheorems.RevocationIsFinal` | internal/service/service.go:191-209 | a token once revoked keeps its row for the rest of the run and every refresh with it fails |
| `AccountsTheorems.ReuseIsFinal` | internal/service/service.go:188-239 | after a refresh with a rotated token, its chain never has an active token, never grows, and no member ever refreshes |
| `AccountsTheorems.DisabledHasNoLiveToken` | internal/service/service.go:280-296 | in every reachable state a disabled user has no unrevoked token |
| `AccountsTheorems.DisableIsFinal` | internal/service/service.go:280-296 | after an update that disables a user, no token issued to the user before refreshes again, even after re-enabling |
| `AccountsTheorems.SignedOutForGood` | internal/service/service.go:241-418 | a session ended by a logout, a revocation from the list, a reset, another session's password change or a disable never refreshes again |
| `AccountsTheorems.OnlyUpdateWritesUser` | internal/service/service.go:76-418 | a user's row is never removed and is written by updates of that user only |
| `Sessions.EndsIffWritten` | internal/service/service.go:76-418 | for a live token, the calls listed in `Sessions.Ends` leave it revoked or replaced, and every other call leaves its row as it is |
| `Sessions.LiveIffNotEnded` | internal/service/service.go:76-418 | a session opened at one call of a run is live at a later state exactly when no call in between ended it |
| `Sessions.RefreshOpensIffNotEnded` | internal/service/service.go:159-239 | over any run, the token handed out by a login or refresh, on any device, refreshes if and only if its lifetime has not passed and no call since has ended the session; otherwise the answer is an invalid session |
| `AccountsTheorems.SlidingExpiry` | internal/service/service.go:168-176 | issue and expiry never decrease along a chain; the k-th successor expires within k + 1 lifetimes of the login |
| `AccountsTheorems.DisabledWindow` | internal/auth/token.go:103-117 | after an update that disables a user and is not undone, no access token of that user, whenever minted, verifies at or after that instant plus the lifetime |
| `AccountsTheorems.DemotedWindow` | internal/httpserver/middleware.go:49-58 | after an update that takes the admin role away and is not undone, no access token carrying it verifies past the same window |
| `Credentials.CredentialsRefine` | internal/service/service.go:109-157 | stored hashes represent a map from user to last password and flag, across bootstrap, create, reset, change and lazy rehash |
| `Credentials.LoginIffLastPassword` | internal/service/service.go:109-157 | for every name and password, login succeeds exactly for the last password of an active user and reports the flag; it reports a disabled account exactly to the last password of a disabled user; anything else is invalid |
| `Credentials.ChangeIffLastPassword` | internal/service/service.go:301-318 | a password change succeeds exactly for the last password set; unknown users and wrong passwords each have their own refusal |
| `Credentials.WrongPasswordRefused` | internal/service/service.go:131-142 | a run with two users and two passwords meeting the collision hypothesis, in which the other's password is refused and the right one lets in |
| `Credentials.LoginReportsMustChange` | internal/service/service.go:298-373 | from an imposed password until its owner changes it, every login reports must-change |
| `Credentials.BootstrapThenLogin` | internal/service/service.go:76-157 | on an empty store, bootstrap and a login with the same password form a run that opens an administrator session told to change the password |
| `CredentialRace.StoredStandsForHash` | internal/auth/password.go:84-104 | without a collision, verification accepts exactly the password a hash was made from and asks for a rehash exactly when its parameters are weaker |
| `CredentialRace.PasswordSurvivesIffNotStale` | internal/service/service.go:122-148 | a user's password and flag survive every continuation that does not set them again if and only if no login in flight verified other ones and is to rehash them |
| `CredentialRace.ChangeSurvivesIffNoOldLogin` | internal/service/service.go:301-318 | a password change can be lost exactly when, as it is written, a login of the user that verified another password or flag is about to rehash |
| `CredentialRace.LostChange` | internal/service/service.go:144-148 | a concrete run, for any two passwords: a login during the change brings the old password back, to be changed again |
| `Service.AccountService.Bootstrap` | internal/service/service.go:76-107 | the method is the bootstrap step and keeps the invariant |
| `Service.AccountService.Login` | internal/service/service.go:109-157 | the store calls of a login, in order, are the login step |
| `Service.AccountService.OpenSession` | internal/service/service.go:159-186 | inserts one row with the full lifetime, an empty device name as absent; the access token names the user, the user name and the role and verifies for its lifetime to within a second |
| `Service.AccountService.Refresh` | internal/service/service.go:188-239 | the store calls of a refresh, in order, are the refresh step; the chain walk's precondition is met |
| `Service.AccountService.Logout` | internal/service/service.go:241-255 | the method is the logout step |
| `Service.AccountService.UpdateUser` | internal/service/service.go:280-296 | the method is the update step, revoking all sessions on a disable |
| `Service.AccountService.ChangePassword` | internal/service/service.go:298-324 | the method is the password-change step |
| `Service.AccountService.CreateUser` | internal/service/service.go:326-341 | the method is the user-creation step |
| `Service.AccountService.ResetPassword` | internal/service/service.go:343-373 | the method is the reset step |
| `Service.AccountService.CurrentSessionID` | internal/service/service.go:375-387 | returns the id of exactly the row with the presented hash that is neither revoked nor replaced nor expired |
| `Service.AccountService.ListSessions` | internal/service/service.go:389-404 | describes exactly the user's rows that are neither revoked nor replaced nor expired, newest first, and marks at most one, the caller's |
| `Service.AccountService.IsListed` | internal/service/service.go:407-415 | the search of the list finds exactly the user's own rows that are neither revoked nor replaced nor expired |
| `Service.AccountService.RevokeSession` | internal/service/service.go:406-418 | succeeds exactly for such a row, and then revokes that row and writes no other |
| `Base64.SymbolTables` | internal/auth/token.go:69-72 | the symbols are those of the RFC 4648 tables |
| `Base64.DecodeEncode` | internal/auth/password.go:78-81 | decoding undoes encoding for every byte string and each of the four encodings |
| `Base64.DecodersAgree` | internal/auth/token.go:68-78 | any two decoders that accept a text return the same bytes |
| `Base64.AcceptedIffText` | internal/auth/token.go:68-78 | a text is accepted exactly if, its line breaks skipped, it is symbols of the alphabet, not one more than a multiple of four, and the padding; it gives three bytes for four symbols |
| `Base64.LineBreaksIgnored` | internal/auth/token.go:68-78 | a line break anywhere in the text changes nothing |
| `Seed.ParseSigningSeed` | internal/auth/token.go:66-78 | returns the bytes of every accepting decoder, and fails exactly when all four reject |
| `Seed.ParseEncodedSeed` | internal/auth/token.go:66-78 | a seed in any of the four encodings is recovered exactly |
| `Scanning.ScanDecimal` | internal/auth/password.go:114-118 | a printed number followed by a non-digit scans back to itself and leaves the rest |
| `Phc.Parse` | internal/auth/password.go:106-133 | accepted hashes have a key of 16 to 128 bytes and parameters in range |
| `Phc.ParseVariant` | internal/auth/password.go:106-133 | on every six-part text with printed numbers, salt and key: another name, then another version than 19, then a key length outside 16 to 128 is rejected, each with its reason; further text before the first separator and after version and parameters is ignored |
| `Phc.ParsePrint` | internal/auth/password.go:67-133 | parsing a printed hash returns the same parameters, salt and key exactly for keys of 16 to 128 bytes |
| `Phc.PrintedExample` | internal/auth/password_test.go:22 | under 8192 KiB, one iteration and one thread every hash begins with `$argon2id$v=19$m=8192,t=1,p=1$` |
| `Phc.VerifyHashed` | internal/auth/password.go:84-104 | a hash matches exactly the passwords with the same derived key, and asks for a rehash exactly when its memory, iterations or key length are below the current ones |
| `Phc.RehashSettles` | internal/auth/password.go:84-104 | a rehashed credential verifies and asks for no further rehash under the same parameters |
| `RateLimiting.RateLimiter.constructor` | internal/httpserver/middleware.go:70-75 | all counters start at zero and the first window ends one window after creation |
| `RateLimiting.RateLimiter.Allow` | internal/httpserver/middleware.go:77-93 | the two loops decide and charge as the step function says |
| `RateLimiting.CountersAreExact` | internal/httpserver/middleware.go:77-93 | after every trace each counter is the number of granted uses of its key in the current window |
| `RateLimiting.GrantedIffUnderLimit` | internal/httpserver/middleware.go:84-92 | a call is granted exactly when each of its keys was used fewer than limit times before it in its window |
| `RateLimiting.CountersWithinLimit` | internal/httpserver/middleware.go:84-92 | with distinct keys per call no counter exceeds the limit |
| `RateLimiting.LimitKeptIffDistinct` | internal/httpserver/middleware.go:84-92 | charging an admitted call keeps every counter within the limit exactly when the call names no key twice |
| `RateLimiting.LoginKeysDistinct` | internal/httpserver/handlers.go:50 | the two keys of a login differ |
| `RateLimiting.IntervalBound` | internal/httpserver/middleware.go:77-93 | any interval of length L > 0 grants a key at most (ceil(L / window) + 1) * limit calls |
| `RateLimiting.OneWindowBound` | internal/httpserver/middleware.go:77-93 | any interval one window long grants at most twice the limit |
| `RateLimiting.OneWindowBoundIsReached` | internal/httpserver/middleware.go:77-93 | for every limit and window some trace with distinct keys and a monotone clock reaches twice the limit |

## Left out

- HTTP routing, cookies, JSON bodies and status codes: no invariants of their own.
- argon2id, SHA-256, Ed25519, UUID generation and JWT serialisation: an access token is its claims, and it verifies strictly before its expiry; argon2id panics on zero iterations or threads, which `Phc.Usable` rules out for every hasher of a run.
- The SQL text, migrations and connection pool: the statements are taken as set-based updates; created-at and updated-at columns and `ListUsers` are not modelled.
- `GetUser`, `GetCredential` and `CountUsers` of the store are plain map reads, written inline; `UpdateProfile` is `UpdateUser` with a display name only.
- The hashing semaphore, the dummy hash that evens out login timing, and constant-time comparison: not functional properties.
- `temporaryPassword` and `clientIP`: their results are arguments.
- Failures of the database between the store calls of one call, and of minting: such a call may leave a token row without a session.
- Tokens and credentials are separate state machines under concurrency: neither table's writes read the other, except that a refused or disabled login ends early, which both machines allow at any time.
