# Verification of the service template's stateful core

A FastAPI service template whose hard part is one protocol: logging in hands out a signed JWT pair and stores one
row per refresh token; refreshing exchanges a refresh token, once, for a new pair. Whether a refresh token is good is
written in two places, the JWT's claims and the row, at different clock readings, joined only by a hash, and rows are
deleted as they expire. This project models that protocol and proves that the two places together behave like a bag of
single-use capabilities, in every run. Five smaller pieces follow: resolving the caller behind proxies, pagination,
accounts and seeding, the event bus, the OpenAPI error map, and rate-limit buckets.

## How it is built

* `Types`, `Jwt`, `Requests`: entities, claims, and what each request does to the committed store, the signed claims
  and the counters, as functions of its clock readings, the identifier it draws and the database call (if any) that
  raises.
* `Database`, `Repositories`, `UseCases`, `Routes`, `Cli`: the classes of the code, step by step in its own order, over
  a session with a working copy; each method is proved to do what the function in `Requests` says.
* `Machine`: every run. A request is one transaction; between requests time passes and an administrator activates and
  deactivates accounts, deletes accounts (their rows go with them) and deletes rows. The clock never runs backwards,
  but each request reads it as often as the code does. A history records what was handed out and exchanged for what.
* `Invariants`: the invariant `Machine.Inv` holds initially and after every step (`Invariants.ReachableHolds`); the
  theorems about runs assume it, so they hold in every reachable state.
* `Answers`: what each request answers and commits, spelled out field by field and message by message.
* `Acceptance`, `SingleUse`, `Lifetimes`, `Chains`, `Capabilities`, `Cleanup`, `Conservation`, `Counters`: the theorems about runs.
* `Interleaving`: refreshes split into lookup, write and commit, interleaved arbitrarily.
* `Accounts`, `Forwarding`, `Pagination`, `EventBus`, `ErrorResponses`, `RateLimits`: the smaller pieces.

## What is assumed

* Signatures are unforgeable: decoding succeeds exactly on claims the service signed, strictly before their `exp`. Claims
  signed by a request that is then rolled back stay signed. The library keeps `exp` and `iat` in whole seconds, and the
  model truncates them. `exp` and `jti` are those of sections 4.1.4 and 4.1.7 of RFC 7519.
* SHA-256 is injective on identifiers, a drawn identifier was never drawn before, and argon2 verifies exactly the
  password hashed. A registration may draw an account identifier that is taken; it then fails.
* Time is one integer line of microseconds. Any one database call of a request may raise, the commit included.
* The database's `lower` and Python's `lower` are two arbitrary functions. What is proved about accounts holds for
  emails on which they agree, and `Accounts.SafeExactlyWhen` shows that condition exact.
* A use case starts on a session that has made no database call, as the routes give it.

Some promises hold only under a condition, and the theorem states it exactly.

* "Refresh token has expired." answers only a request that decodes the JWT before its `exp` and reads the clock again
  after the row's later expiry (`Acceptance.ExpiredRefusalStraddles`); it does happen
  (`Lifetimes.ExpiredRefusalHappens`).
* The client address is independent of the caller's text exactly when no more hops are trusted than there are proxies
  (`Forwarding.IndependentExactlyWhenTrusted`).
* The code takes no row lock. Two requests that present at once a token the service would accept from either can both
  exchange it (`Interleaving.WithoutSerialisingTwice`), which is why the API contract asks clients to serialise
  refreshes; with that, every interleaving exchanges it at most once (`Interleaving.ExchangedAtMostOnce`) and is
  atomic refreshes in commit order (`Interleaving.SerialisedIsAtomic`).
* Emails stay distinct to the lookup exactly when the two foldings agree on what is registered, or no other email is
  the same to the database (`Accounts.SafeExactlyWhen`). With a database whose `lower` folds fewer letters than
  Python's, an email with such a letter does not resolve once registered (`Accounts.UnlikeFoldsHide`).

Refreshing is section 6 of RFC 6749 and rotation section 4.14.2 of RFC 9700.

## Model

| member | source | states |
|---|---|---|
| Jwt.WholeSeconds | {{cookiecutter.project_slug}}/app/security/jwt.py:22-32 | a claim's time is the whole second at or before the instant given |
| Jwt.Signer.CreateToken | {{cookiecutter.project_slug}}/app/security/jwt.py:15-32 | signs exactly one more set of claims: `sub`, type, `iat`, `exp` from the delta or else the default lifetime of the type, and `jti` only when given |
| Jwt.Signer.DecodeToken | {{cookiecutter.project_slug}}/app/security/jwt.py:52-54 | gives the claims exactly when they were signed here and `exp` is strictly later than now |
| Jwt.ClaimsAreExact | {{cookiecutter.project_slug}}/app/security/jwt.py:15-60 | every claim: subject, type, identifier, `iat` and `exp` in whole seconds, the lifetime given or the configured minutes or days |
| Databases.Session.Close | {{cookiecutter.project_slug}}/app/database/session.py:14-22 | a request that returned and whose commit did not raise commits its working copy; any other leaves the committed store as it was |
| Repositories.UserRepository.GetById | {{cookiecutter.project_slug}}/app/modules/users/repositories/user_repository.py:23-24 | the account with that identifier or none, in one database call |
| Repositories.UserRepository.GetByEmail | {{cookiecutter.project_slug}}/app/modules/users/repositories/user_repository.py:26-28 | the one account whose folded email matches, none, or an exception when several do |
| Repositories.UserRepository.Create | {{cookiecutter.project_slug}}/app/modules/users/repositories/user_repository.py:30-40 | inserts an active, non-staff account, or raises and changes nothing when the identifier or the exact email is taken |
| Repositories.RefreshTokenRepository.GetByJtiHash | {{cookiecutter.project_slug}}/app/modules/users/repositories/refresh_token_repository.py:22-26 | the row stored under the hash or none |
| Repositories.RefreshTokenRepository.Create | {{cookiecutter.project_slug}}/app/modules/users/repositories/refresh_token_repository.py:28-34 | inserts an unrevoked row, or raises and changes nothing on a taken hash or an absent account |
| Repositories.RefreshTokenRepository.Revoke | {{cookiecutter.project_slug}}/app/modules/users/repositories/refresh_token_repository.py:36-38 | stamps that row and no other, raising when it has gone |
| Repositories.RefreshTokenRepository.CleanupExpired | {{cookiecutter.project_slug}}/app/modules/users/repositories/refresh_token_repository.py:40-45 | leaves exactly the rows that expire at or after now |
| UseCases.IssueTokenPair.Execute | {{cookiecutter.project_slug}}/app/modules/users/usecases/issue_token_pair.py:36-45 | signs both tokens and inserts the row, or fails with the tokens signed and no row |
| UseCases.IssueTokenPair.CreateRefresh | {{cookiecutter.project_slug}}/app/modules/users/usecases/issue_token_pair.py:47-61 | one refresh token signed and one row under its hash, their lifetimes taken from two clock readings |
| UseCases.RefreshAccessToken.Execute | {{cookiecutter.project_slug}}/app/modules/users/usecases/refresh_access_token.py:31-66 | every guard in order with its message and count, then revoke, clean up and issue, whichever database call raises |
| UseCases.AuthenticateUser.Execute | {{cookiecutter.project_slug}}/app/modules/users/usecases/authenticate_user.py:22-33 | each outcome with its message and its count; a repeated email is neither |
| UseCases.RegisterUser.Execute | {{cookiecutter.project_slug}}/app/modules/users/usecases/register_user.py:22-34 | conflict on a resolvable email, otherwise a new account and one more registration; tokens untouched |
| Routes.AuthRoutes.Refresh | {{cookiecutter.project_slug}}/app/modules/users/routes/auth.py:91-104 | the whole request is one refresh of the committed state; a failure commits nothing |
| Routes.AuthRoutes.Login | {{cookiecutter.project_slug}}/app/modules/users/routes/auth.py:67-82 | the whole request is one login of the committed state; a failure commits nothing |
| Routes.AuthRoutes.Register | {{cookiecutter.project_slug}}/app/modules/users/routes/auth.py:45-58 | the whole request is one registration of the committed state; a failure commits nothing |
| Cli.Seed | {{cookiecutter.project_slug}}/app/cli.py:187-199 | the create-if-absent loop in one session: commits all its accounts or none; the line it prints, before it commits, counts those created and skipped |
| Invariants.ReachableHolds | {{cookiecutter.project_slug}}/app/modules/users/usecases/refresh_access_token.py:31-66 | in every state of every run: each row belongs to a token handed out and to the account in its JWT, is revoked exactly when exchanged and expires no earlier than the JWT; live rows vanish only by an administrator; rotation links go both ways |
| Invariants.NextKeeps | {{cookiecutter.project_slug}}/app/modules/users/usecases/refresh_access_token.py:42-66 | every single step, of a request or an administrator, keeps that invariant |
| Invariants.StepRows | {{cookiecutter.project_slug}}/app/modules/users/repositories/refresh_token_repository.py:28-45 | no step brings back, unrevokes, extends or reassigns a row |
| Invariants.FailureCommitsNothing | {{cookiecutter.project_slug}}/app/database/session.py:14-22 | whatever request fails, for whatever reason, the committed store is the one before it |
| Acceptance.AcceptedExactlyWhen | {{cookiecutter.project_slug}}/app/modules/users/usecases/refresh_access_token.py:31-66 | a refresh succeeds if and only if it presents, before its `exp` and its row's expiry, a token handed out, never exchanged and not removed, for an active account, and no database call raises |
| Acceptance.JudgedByHistory | {{cookiecutter.project_slug}}/app/modules/users/usecases/refresh_access_token.py:32-61 | which guard turns a refresh away, each as an if-and-only-if over what has happened; the second "Invalid refresh token." (a bad `sub`) is unreachable |
| Acceptance.ExpiredRefusalStraddles | {{cookiecutter.project_slug}}/app/modules/users/usecases/refresh_access_token.py:46-50 | "Refresh token has expired." is the response exactly to an unspent token decoded before `exp` and checked after the row's expiry, its lookup not raising, so never with one clock reading |
| Acceptance.RefusalConsumesNothing | {{cookiecutter.project_slug}}/app/modules/users/usecases/refresh_access_token.py:58-63 | a token refused because its account was unavailable is accepted later, before its `exp`, within its row's life and with the account active, after any run that neither exchanges it nor removes its row |
| Acceptance.HistoryGrows | {{cookiecutter.project_slug}}/app/modules/users/usecases/refresh_access_token.py:63-66 | over any run a token becomes exchanged exactly when the run exchanges it, and what was handed out or exchanged is never forgotten |
| Acceptance.AccessExactlyWhen | {{cookiecutter.project_slug}}/app/modules/users/deps.py:37-65 | an access token opens protected routes exactly when signed here, unexpired and its account active; staff routes also need the flag; each refusal by its literal message; a lookup that raises is a failure, no refusal; no token both opens a route and refreshes |
| Acceptance.RefreshAnswers | {{cookiecutter.project_slug}}/app/modules/users/usecases/refresh_access_token.py:31-66 | each literal message, success, and failure is the answer exactly when its condition on what has happened and on the call that raises holds; "Refresh token has been revoked." exactly for a live signed refresh token that is spent |
| Answers.RefreshCommits | {{cookiecutter.project_slug}}/app/modules/users/usecases/refresh_access_token.py:63-66 | a refresh that succeeds answers with a pair for the account presented, signs exactly its tokens, stamps the row presented with the reading of the revocation, removes exactly the rows expired by the cleanup's reading, adds the successor's row and changes nothing else |
| Answers.PairIsExact | {{cookiecutter.project_slug}}/app/modules/users/usecases/issue_token_pair.py:36-61 | both tokens claim by claim, the access token for the minutes that `expires_in` gives in seconds, the refresh token for the configured days |
| Answers.AcceptedInAnyState | {{cookiecutter.project_slug}}/app/modules/users/usecases/refresh_access_token.py:32-61 | in no state, reachable or not, does a refresh succeed past a guard |
| Answers.NamelessIsInvalid | {{cookiecutter.project_slug}}/app/modules/users/usecases/refresh_access_token.py:52-56 | a JWT without a usable subject is refused as invalid |
| Answers.LoginAnswers | {{cookiecutter.project_slug}}/app/modules/users/usecases/authenticate_user.py:22-33 | a login succeeds exactly when one account alone has the folded email, its stored hash is of the password given and it is active, and no call raises; each refusal by its literal message, as an if-and-only-if |
| Answers.LoginCommits | {{cookiecutter.project_slug}}/app/modules/users/routes/auth.py:67-82 | a login that succeeds answers with a pair for the account it opened, signs exactly its tokens and adds exactly one row |
| Answers.RegisterAnswers | {{cookiecutter.project_slug}}/app/modules/users/usecases/register_user.py:22-34 | conflict, by its literal message, exactly when one account has the folded email; success exactly when none has and both columns let it in, and then exactly that account is added: email, hash of the password, full name, active and not staff |
| Answers.RegisteredLogsIn | {{cookiecutter.project_slug}}/app/modules/users/usecases/register_user.py:27-28 | whoever registers, with an email folded alike, logs in as that account with any spelling folded the same and that password, and with no other password |
| Answers.SeededAccounts | {{cookiecutter.project_slug}}/app/cli.py:187-199 | a seeding that succeeds adds accounts of fixtures only, one for each whose email nobody had before, with its email, its password or "changeme", and its full name |
| Answers.SeededLogsIn | {{cookiecutter.project_slug}}/app/cli.py:190-196 | each such account logs in with its fixture's password, or "changeme", and with no other |
| Answers.SeedingReports | {{cookiecutter.project_slug}}/app/cli.py:198-199 | the line printed, the accounts added and how the command ends agree, also when the commit raises after the line |
| SingleUse.ExchangedAtMostOnce | {{cookiecutter.project_slug}}/app/modules/users/usecases/refresh_access_token.py:42-66 | in every run a token is exchanged at most once, and never once its row is revoked or gone |
| SingleUse.SpentStaysSpent | {{cookiecutter.project_slug}}/app/modules/users/usecases/refresh_access_token.py:42-45 | no step makes a revoked, deleted or never committed identifier acceptable |
| SingleUse.ExchangeSpends | {{cookiecutter.project_slug}}/app/modules/users/usecases/refresh_access_token.py:63-66 | an exchange needs an unspent identifier and leaves it spent |
| SingleUse.RotationIsWhole | {{cookiecutter.project_slug}}/app/modules/users/usecases/refresh_access_token.py:63-66 | a successful refresh commits the spent row and a successor row of the same account together |
| SingleUse.RotationIsAtomic | {{cookiecutter.project_slug}}/app/database/session.py:14-22 | whichever of the six database calls raises, nothing is committed; otherwise both halves are |
| SingleUse.ClashCommitsNothing | {{cookiecutter.project_slug}}/app/modules/users/models/refresh_token.py:25 | a refresh drawing an identifier whose hash is stored fails and commits nothing, in any state |
| SingleUse.SpentRowHasSuccessor | {{cookiecutter.project_slug}}/app/modules/users/usecases/refresh_access_token.py:63-66 | no reachable store holds a spent row without its successor of the same account, unless that one expired or was removed |
| Lifetimes.RefreshTokenServes | {{cookiecutter.project_slug}}/app/security/jwt.py:23-29 | after any run that neither exchanges it nor removes its row, the refresh token of a pair, decoded within its configured days less at most a second, is accepted exactly when the row has not expired by the second reading, and it is refused as invalid from the end of the lifetime |
| Lifetimes.ExpiredRefusalHappens | {{cookiecutter.project_slug}}/app/modules/users/usecases/refresh_access_token.py:46-50 | right after any pair is issued, a refresh that stalls between its two readings until past the row's expiry is told that the token has expired |
| Lifetimes.AccessTokenServes | {{cookiecutter.project_slug}}/app/modules/users/deps.py:37-57 | after any run at all, later logins and rotations included, the access token of a pair stands for its account for the configured minutes, `expires_in` in seconds, less at most a second, while the account is active, and not from the end of it |
| Chains.TracesToLogin | {{cookiecutter.project_slug}}/app/modules/users/routes/auth.py:73-77 | every token goes back by finitely many rotations to a login of the same account, and row expiry never decreases on the way |
| Chains.OneTipPerChain | {{cookiecutter.project_slug}}/app/modules/users/usecases/refresh_access_token.py:63-66 | each chain has exactly one unexchanged token |
| Chains.ChainsAreSimple | {{cookiecutter.project_slug}}/app/modules/users/usecases/refresh_access_token.py:63-66 | no two tokens are exchanged for the same one |
| Chains.TipsAreLogins | {{cookiecutter.project_slug}}/app/modules/users/routes/auth.py:73-77 | as many chains, and as many unexchanged tokens, as successful logins |
| Chains.OwnerIsWhoLoggedIn | {{cookiecutter.project_slug}}/app/modules/users/usecases/refresh_access_token.py:42-66 | the new pair names the account that logged in at the head of the chain, which is also the `user_id` of the row, though refreshing never reads it |
| Capabilities.StepSimulates | {{cookiecutter.project_slug}}/app/modules/users/usecases/refresh_access_token.py:31-66 | each step of the service is an allowed step of a bag of capabilities with the same result: login adds one, refresh swaps one for one, time retires, refusals stutter |
| Capabilities.RunSimulates | {{cookiecutter.project_slug}}/app/modules/users/usecases/issue_token_pair.py:36-61 | every run is a run of that bag |
| Capabilities.AcceptsExactlyCapabilities | {{cookiecutter.project_slug}}/app/modules/users/usecases/refresh_access_token.py:31-61 | at an instant, a refresh no call of which raises succeeds exactly on a capability in the bag, alive, of an active account |
| Cleanup.CleanupIsInvisible | {{cookiecutter.project_slug}}/app/modules/users/repositories/refresh_token_repository.py:40-45 | every response of any run, messages included, is that of the same run without cleanup; the stores differ only in expired rows |
| Cleanup.StepAgrees | {{cookiecutter.project_slug}}/app/modules/users/repositories/refresh_token_repository.py:40-45 | one step of that bisimulation |
| Cleanup.ExpiredRowsAreDead | {{cookiecutter.project_slug}}/app/modules/users/usecases/issue_token_pair.py:49-60 | the JWT of a row that has expired no longer decodes |
| Conservation.RefreshConserves | {{cookiecutter.project_slug}}/app/modules/users/usecases/refresh_access_token.py:63-66 | at a fixed clock a successful refresh changes no account's number of live rows |
| Conservation.LoginAddsOne | {{cookiecutter.project_slug}}/app/modules/users/usecases/issue_token_pair.py:47-61 | at a fixed clock a successful login adds one live row to its account and none to others |
| Conservation.TableIsBounded | {{cookiecutter.project_slug}}/app/modules/users/repositories/refresh_token_repository.py:40-45 | right after a successful refresh every row was issued within the last refresh lifetime, so the table is no larger than the tokens handed out since |
| Counters.CountersBalance | {{cookiecutter.project_slug}}/app/modules/users/usecases/refresh_access_token.py:32-66 | four equations between counters, calls made and tokens handed out and exchanged, over every run, with exact terms for calls that raised |
| Counters.CountersAreExact | {{cookiecutter.project_slug}}/app/modules/users/usecases/authenticate_user.py:25-33 | without infrastructure failure: refresh success plus failure is calls, refresh successes are tokens exchanged, successes of both kinds are tokens handed out, and authentication success plus failure is calls while folded emails are distinct |
| Counters.RegistrationsAreCounted | {{cookiecutter.project_slug}}/app/modules/users/usecases/register_user.py:30 | the registrations counted are those that succeeded and those whose commit then raised |
| Interleaving.ExchangedAtMostOnce | {{cookiecutter.project_slug}}/docs/api-contract.md:258-263 | with lookups, writes and commits interleaved arbitrarily, logins and deletions between them, a token is exchanged at most once if no two requests in flight present the same one |
| Interleaving.OverlapExchangesTwice | {{cookiecutter.project_slug}}/app/modules/users/usecases/refresh_access_token.py:42-66 | two requests that have both looked one token up can both exchange it, exactly when the first one's cleanup spares its row |
| Interleaving.WithoutSerialisingTwice | {{cookiecutter.project_slug}}/docs/api-contract.md:258-263 | for every token the service accepts from either of two requests at their own readings, presenting it at once lets both exchange it, exactly when the first one's cleanup spares the row; serialised the second may not arrive, and one after the other it is refused |
| Interleaving.SerialisedIsAtomic | {{cookiecutter.project_slug}}/docs/api-contract.md:258-263 | every serialised interleaving commits the rows of the same requests served whole, one at a time, in commit order, each accepted there, save rows expired by the latest cleanup |
| Interleaving.ServedIsAtomic | {{cookiecutter.project_slug}}/app/modules/users/usecases/refresh_access_token.py:42-66 | serving a request whole there is the atomic refresh without cleanup |
| Interleaving.AloneIsAtomic | {{cookiecutter.project_slug}}/app/modules/users/usecases/refresh_access_token.py:42-66 | an undisturbed refresh commits exactly the rows of the atomic one |
| Accounts.LookupIsExact | {{cookiecutter.project_slug}}/app/modules/users/models/user.py:50-51 | with emails distinct to the database the lookup never meets two rows and finds the account exactly when one's database folding is the application's folding of the email given |
| Accounts.LookupMeetsTwo | {{cookiecutter.project_slug}}/app/modules/users/repositories/user_repository.py:26-28 | the lookup raises exactly when two accounts match the email |
| Accounts.AbsentEmailInserts | {{cookiecutter.project_slug}}/app/modules/users/usecases/register_user.py:25-29 | for an email folded alike, after a failed lookup the unique column cannot refuse, emails stay distinct and the email resolves to the new account |
| Accounts.SafeExactlyWhen | {{cookiecutter.project_slug}}/app/modules/users/models/user.py:50-51 | registering an email keeps emails distinct, whatever accounts there are, if and only if the two foldings agree on it or no other email is the same to the database |
| Accounts.UnlikeFoldsHide | {{cookiecutter.project_slug}}/app/modules/users/models/user.py:50-51 | an email the two foldings disagree on does not resolve once registered, and registering it again crashes on the unique column instead of conflicting |
| Accounts.AccountsStayUnique | {{cookiecutter.project_slug}}/app/modules/users/usecases/register_user.py:25-34 | in every run whose registrations and seedings use emails folded alike, emails stay distinct and no lookup meets two accounts |
| Accounts.RegisterIsExact | {{cookiecutter.project_slug}}/app/modules/users/usecases/register_user.py:22-34 | for an email folded alike, registration succeeds exactly on an unresolvable email and an unused identifier, conflicts exactly on a resolvable one, stores exactly that account and otherwise changes nothing |
| Accounts.PlantExtends | {{cookiecutter.project_slug}}/app/cli.py:190-197 | wherever seeding stops, existing accounts are as they were and it has added as many as it counts |
| Accounts.PlantKeepsUnique | {{cookiecutter.project_slug}}/app/cli.py:190-197 | wherever seeding of emails folded alike stops, emails are distinct |
| Accounts.SeedingSucceeds | {{cookiecutter.project_slug}}/app/cli.py:187-199 | a seeding of emails folded alike that succeeds leaves existing accounts as they were, adds as many as it reports, makes every fixture email resolvable, and created plus skipped is the file length |
| Accounts.SeedingTwiceCreatesNothing | {{cookiecutter.project_slug}}/app/cli.py:187-199 | once the fixture emails resolve, seeding reports zero created and changes nothing |
| Accounts.FreshSeedingIsWhole | {{cookiecutter.project_slug}}/app/cli.py:190-197 | with fresh identifiers, emails folded alike and no failing call, seeding gets through exactly when every fixture has an email |
| Forwarding.ResolvesToTrustedProxy | {{cookiecutter.project_slug}}/app/http/net.py:20-42 | behind k proxies that each append a clean address with any white space around it, any hop count from 1 to k gives that proxy's clean address, whatever the caller wrote |
| Forwarding.StripPadded | {{cookiecutter.project_slug}}/app/http/net.py:36-38 | stripping takes away exactly the white space around a text that has none at its ends |
| Forwarding.StripBlank | {{cookiecutter.project_slug}}/app/http/net.py:38 | exactly white space alone strips to nothing |
| Forwarding.SplitPadding | {{cookiecutter.project_slug}}/app/http/net.py:36 | every other text is such a text with white space around it, so stripping is determined |
| Forwarding.SpacesAre | {{cookiecutter.project_slug}}/app/http/net.py:36 | which characters are white space |
| Forwarding.BlankIsIgnored | {{cookiecutter.project_slug}}/app/http/net.py:35-39 | an empty list element changes nothing |
| Forwarding.IndependentExactlyWhenTrusted | {{cookiecutter.project_slug}}/app/http/net.py:20-42 | the result is independent of the caller's text if and only if no more hops are trusted than there are proxies |
| Forwarding.ResolvesToCallersText | {{cookiecutter.project_slug}}/app/http/net.py:29-33 | trusting more hops than there are proxies lets the caller choose the result |
| Forwarding.ResolvesToEntryOrPeer | {{cookiecutter.project_slug}}/app/http/net.py:34-42 | for any header the result is a stripped, non-blank, comma-free entry, or else the peer or "unknown", and which |
| Forwarding.ForwardedChain | {{cookiecutter.project_slug}}/app/http/net.py:35-39 | the parsed chain is the caller's entries followed by the proxies' own |
| Forwarding.SplitOverComma | {{cookiecutter.project_slug}}/app/http/net.py:37 | splitting distributes over a comma |
| Paging.PagesAreAllRows | {{cookiecutter.project_slug}}/app/http/pagination.py:38-65 | pages 1 to the last concatenated are the rows in order, and so is the walk that follows `has_next` |
| Paging.NextExactlyWhenRowsRemain | {{cookiecutter.project_slug}}/app/http/pagination.py:49-60 | `has_next` holds exactly when `page * page_size < total`, the page is then full; `has_previous` exactly when its offset is positive; the page count is the least that covers all rows; number, size and total are those asked for |
| Paging.BuiltFromZero | {{cookiecutter.project_slug}}/app/http/pagination.py:39-47 | a zero page size counts as one row a page, and what is given is kept |
| Paging.EachRowOnOnePage | {{cookiecutter.project_slug}}/app/modules/users/repositories/user_repository.py:42-53 | row i stands on page i / size + 1, at i % size, and on no other |
| Paging.PagesIsCeiling | {{cookiecutter.project_slug}}/app/http/pagination.py:46 | the ceiling division counts pages exactly |
| Events.EventBus.Subscribe | {{cookiecutter.project_slug}}/app/events/bus.py:48-56 | the handler is appended under its event and nothing else changes |
| Events.EventBus.Publish | {{cookiecutter.project_slug}}/app/events/bus.py:58-81 | every handler registered at the call runs once to its end, in any interleaving and however each ends, and exactly those that raised an `Exception` are logged |
| Events.EventBus.Dispatch | {{cookiecutter.project_slug}}/app/events/bus.py:88-91 | returns normally; each event's handlers, as registered when it is published, run once each and all finish before the next event's start |
| Events.EventsDoNotOverlap | {{cookiecutter.project_slug}}/app/events/bus.py:88-91 | in such a trace every coroutine of an event has finished before any of a later event starts |
| Events.FailedSlotsExactly | {{cookiecutter.project_slug}}/app/events/bus.py:73-75 | the failures logged are the positions that raised an `Exception`, each of them and no other |
| Events.FailedSlotsIncrease | {{cookiecutter.project_slug}}/app/events/bus.py:73-75 | they are logged once each, in subscription order |
| ErrorResponses.ErrorResponses | {{cookiecutter.project_slug}}/app/http/openapi.py:70-132 | strictly increasing keys, the distinct statuses plus 422 when validation is on, each with the entry of its group: descriptions joined, examples in their envelopes, headers described |
| ErrorResponses.GroupKeepsOrder | {{cookiecutter.project_slug}}/app/http/openapi.py:89-91 | each error stands in the group of its status after exactly those given before it |
| ErrorResponses.GroupIsExact | {{cookiecutter.project_slug}}/app/http/openapi.py:89-91 | a group holds each error of its status as often as given, and no other |
| ErrorResponses.ExamplesAreTheStatusCodes | {{cookiecutter.project_slug}}/app/http/openapi.py:101-121 | the example names under a status are the codes given with it, plus the validation code under 422 |
| ErrorResponses.LastErrorIsTheExample | {{cookiecutter.project_slug}}/app/http/openapi.py:109-112 | errors sharing status and code share one example, the last one's |
| ErrorResponses.HeaderExample | {{cookiecutter.project_slug}}/app/http/openapi.py:105-108 | a header sent by several errors of a status is documented with the value of the last |
| ErrorResponses.EntryExample | {{cookiecutter.project_slug}}/app/http/openapi.py:101-112 | the example of a code: the code as its summary, in the envelope a client receives, with the error's own detail or its code and description |
| ErrorResponses.ValidationExample | {{cookiecutter.project_slug}}/app/http/openapi.py:114-121 | the validation's own example |
| ErrorResponses.EntryDescribes | {{cookiecutter.project_slug}}/app/http/openapi.py:114-125 | the description joins those of the group in order, then the validation's |
| ErrorResponses.DescriptionsAre | {{cookiecutter.project_slug}}/app/http/openapi.py:29-31 | each error's docstring, or a stock sentence |
| ErrorResponses.JoinedOverConcat | {{cookiecutter.project_slug}}/app/http/openapi.py:125 | one space between any two pieces |
| ErrorResponses.HeadersDescribed | {{cookiecutter.project_slug}}/app/http/openapi.py:24-26 | `Retry-After` in its own words, any other header by the status |
| ErrorResponses.DecimalIsNumeral | {{cookiecutter.project_slug}}/app/http/openapi.py:61 | the status in decimal: digits, no leading zero, its own value |
| ErrorResponses.HeadersAreDocumented | {{cookiecutter.project_slug}}/app/http/openapi.py:57-67 | a header is documented exactly when an error of the status sends it, under its description and with a value one of them sends; with none the entry has no headers |
| ErrorResponses.OrderDoesNotMatter | {{cookiecutter.project_slug}}/app/http/openapi.py:89-132 | keys and example names do not depend on the order of the arguments |
| ErrorResponses.KeysAreDetermined | {{cookiecutter.project_slug}}/app/http/openapi.py:96 | increasing keys over the same statuses are the same keys |
| RateLimits.Dependency | {{cookiecutter.project_slug}}/app/infrastructure/ratelimit.py:127-142 | hits its own bucket only, then either leaves the headers or raises with the wait, leaving the headers of the limit before |
| RateLimits.Storage.Hit | {{cookiecutter.project_slug}}/app/infrastructure/ratelimit.py:130 | one more hit in the bucket of the rate and key, every other bucket as it was |
| RateLimits.RetryAfter | {{cookiecutter.project_slug}}/app/infrastructure/ratelimit.py:135-136 | the whole seconds until the reset, or one when less than a second is left |
| RateLimits.SharedExactly | {{cookiecutter.project_slug}}/app/infrastructure/ratelimit.py:81-91 | two requests share a key exactly when prefix, kind, client and, per path, path agree |
| RateLimits.NamesCanCollide | {{cookiecutter.project_slug}}/app/infrastructure/ratelimit.py:89-91 | a colon in a prefix or a path, a slash before a client name, or none before a path, each lets different limits or requests share a key |
| RateLimits.LayersInOrder | {{cookiecutter.project_slug}}/app/api.py:15-28 | layered limits count in order: those up to the one that refuses record one hit each, those behind it and all other buckets record none, the headers are exactly what the strategy makes of the record of the last limit passed, and the wait of the one that refused |
| RateLimits.BudgetsKept | {{cookiecutter.project_slug}}/app/infrastructure/ratelimit.py:94-142 | over any strategy that admits a hit in a window only while fewer than the amount were admitted there, in every run no client is served more often in it than any limit on the way allows, app-wide and per path |
| RateLimits.RunDecides | {{cookiecutter.project_slug}}/app/infrastructure/ratelimit.py:127-136 | in every run each recorded hit is the strategy's decision on its own bucket's record before it |
| RateLimits.MovingKeeps | {{cookiecutter.project_slug}}/app/infrastructure/ratelimit.py:38-42 | a strategy that counts over the moving window meets that condition for every span no longer than the period |
| RateLimits.FixedKeeps | {{cookiecutter.project_slug}}/app/infrastructure/ratelimit.py:38-42 | one that counts over aligned fixed windows meets it for each of them, in whatever order clocks are read |
| RateLimits.ClientsAreIsolated | {{cookiecutter.project_slug}}/app/infrastructure/ratelimit.py:81-142 | every answer a client gets is the one it would get if no other client ever called |

## Left out

- JWT, SHA-256 and argon2 internals: taken as the assumptions above. A token with an `iat` in the future, which the
  library refuses, cannot arise on a clock that never runs backwards.
- The `limits` library's window algorithms: any strategy that decides from its bucket's own record is allowed.
  `RateLimits.BudgetsKept` asks of it only that it keeps the window; whether the library's approximate sliding window
  does for a given span is not claimed.
- Interleaving: a step is one flush or commit over what is committed by then; isolation levels and deadlocks of a
  particular database are not modelled, nor is reading the account a step of its own there. `SerialisedIsAtomic` asks
  that nobody deletes a row an uncommitted transaction has updated, which every supported database sees to.
- Overlapping refreshes of one token and racing registrations of one email: the code takes no lock, so single use and
  unique folded emails are claimed for atomic requests, and single use also for serialised interleavings.
- Database failures: one database call raises per request; a cancelled request, which the unit of work does not catch, is
  not modelled.
- UseCases.RefreshAccessToken.Exchange: the tail of `execute` stands in a method of its own to keep each proof small;
  likewise the loop of the seed command and its body.
- Cli.Seed: a missing or malformed fixture file is not modelled.
- The admin panel: only activating, deleting accounts and deleting rows; it creates and renames no account here.
- Accounts: `full_name`, timestamps and string lengths are carried or dropped without rules; the effects of the
  handlers of login and registration events (logging and mail) are not modelled.
- Paging: one fixed row order; the order among equal `created_at` and the bound of 100 on `page_size` are not modelled.
- Forwarding: one `X-Forwarded-For` header, the one the framework's lookup returns.
- Events.EventBus.Publish: calling a handler to obtain its coroutine is assumed not to raise.
- ErrorResponses: the constant parts of an entry (`model`, media type, schema type, the envelope's null `data`).
- Redis, mail, broker, scheduler, health probes, logging, metrics export, middleware, settings and schemas: plumbing.
