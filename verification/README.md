# Verified models of the Lenso cores

This project models the parts of the repository whose correctness depends on interleavings, long histories or graph
structure, and proves what they promise. Every model is a set of Dafny modules; `dafny verify dfyconfig.toml` checks
all of them.

- **Cache service** (`CacheService`, `CacheRuns`, `CacheHistory`, `CacheCommands`, `CacheCalls`). Loads shared by many
  callers, write fences and closing. A step is one stretch of code between two awaits, and a run is any sequence of
  steps. The class `Cache` is the source's code, one method per stretch: each does its step and keeps the invariant of
  runs. The main theorem says that a load in flight when a `set`, `delete` or `invalidate` begins never sends a
  command after that operation's own. Others trace every answer to its source and every command to what calls for it.
- **Memory adapter** (`MemoryCache`, `CacheRecency`, `JsonText`). The adapter as a class beside a ghost plain map that
  eviction does not touch: every hit is that map's latest value. It rests on exact facts about JSON text: quoted
  strings show where they end, so the prefix scan meets one namespace only. Texts are sequences of UTF-16 code units.
- **Role graph and management** (`RoleGraph`, `RoleValidity`, `RoleManagement`, `RoleStore`, `RoleRuns`, `RoleRules`).
  Validation by a depth-first walk, worklist expansion, and runs of concurrent reads and swaps, ending in statements
  about what every principal holds before and after.
- **OAuth** (`OAuthServer`, `OAuthRuns`, `OAuthConsent`, `OAuthService`, `OAuthRefusals`, `OAuthReplay`,
  `OAuthCalls`). Any number of concurrent consent, exchange, refresh and revocation calls over a compare-and-swap
  store whose records may be pruned at any time and whose answer to a revocation may be lost. Code single use is
  section 4.1.2 of RFC 6749, refresh rotation section 4.14 of RFC 9700 and silent revocation section 2.2 of RFC 7009.
- **Event outbox** (`EventOutbox`, `EventHistory`, `EventCauses`, `CanonicalJson`, `TextOrder`). Leases, tokens and
  terminal rows over whole histories, and the canonical payload text as an identity of JSON values.
- **Sessions** (`Sessions`, `SessionRuns`, `SessionService`, `SessionCalls`). Touch, renew and revoke under lifetimes
  that may differ from call to call.
- **Engine ordering and generation** (`Digraphs`, `PluginOrder`, `Workspace`, `ReleaseOrder`, `Generation`).
- **Policy evaluation** (`Policy`) and **audit paging** (`AuditPages`).

Shared declarations are in `Basics`.

Assumptions. Secrets, ids and generations that the source draws at random are fresh, and so are revisions in runs of
role changes. Digests are injective: they are constructors, and a session's stored digest is the number of its secret.
The clocks of one service do not run backwards where a whole history is considered; the workers of the event outbox
may read theirs out of order, except that a claim's lease starts no earlier than the last reading its own row has
seen. SQL statements, batches and transactions are one atomic step each. Outside answers (loader, permissions,
predicates, relations, subject policy) are arbitrary inputs of a step. Integers are unbounded.

Three statements one might expect are false of the code. Each has a concrete input that fails and an exact condition:

- An editor never gains by its own edit. The code checks its holdings at the time of the edit only.
  `RoleManagement.EditorMayGainLater` is an edit after which the editor holds more once one of its bindings has run
  out. `RoleManagement.EditorNeverGainsExactly` says when it never does: exactly when each permission a binding of the
  editor will give is already covered through one that lasts as long, which can be seen on the graph before the edit.
- Renewals of a session stay as far apart as its record asks. `SessionRuns.LaterIntervalMayExceedDistance` is a run
  after which a renewal is closer to the issue before it. `SessionRuns.DistanceBreaksExactly` says which steps bring
  that about: exactly the writes of a touch configured with an interval longer than the last distance. No renewal does
  (`SessionRuns.RenewalsKeepDistance`).
- Replaying a rotated refresh token revokes its grant. `OAuthReplay.ReplayMayLeaveGrantUnrevoked` is a run after which
  it has not. `OAuthRuns.ReplayRevokesExactly` says when it does: exactly when nobody has written the grant between
  the replay's read and its write, or somebody has revoked it. The replayed token is refused in every case.

The scopes of a grant shrink as a set. A refresh may list a scope twice, so the list itself can get longer.

## Model

| member | source | states |
|---|---|---|
| `CacheRuns.FencedLoadsNeverOvertake` | packages/cache/src/index.ts:48-61 | For every run after a `set`, `delete` or `invalidate` began: a load that was in flight for its key or namespace sends no command after the operation's own one, and any command it had sent was answered before that one. |
| `CacheRuns.FenceMeetsExactly` | packages/cache/src/index.ts:48-58 | The prefix or id test of a fence meets exactly the active loads of that namespace, or of that key in it. |
| `CacheRuns.OneWritableLoadPerKey` | packages/cache/src/index.ts:205-217 | In every reachable state two active writable loads of one id are the same load and are that id's flight. |
| `CacheRuns.FlightsAreActiveAndWritable` | packages/cache/src/index.ts:205-217 | In every reachable state each flight is an active, writable, unaborted load of its id, and no more loads are active than the limit allows. |
| `CacheRuns.SettleTellsEveryone` | packages/cache/src/index.ts:247-251 | Settling a load gives every caller still listed exactly its outcome, leaves other callers alone and leaves no caller of the load unanswered. |
| `CacheRuns.SameAnswer` | packages/cache/src/index.ts:247-283 | In every reachable state two answered callers of one load, neither cancelled, have the same text or the same error; `EveryAnswerHasASource` says which. |
| `CacheRuns.AnsweredOnce` | packages/cache/src/index.ts:261-269 | Along every run an answered caller keeps its one answer. |
| `CacheRuns.NobodyWaitsForever` | packages/cache/src/index.ts:247-294 | Once a load has settled, or the service is closed, each of its callers has exactly one answer. |
| `CacheRuns.ClosedSendsNothing` | packages/cache/src/index.ts:286-294 | After `close` no load sends an adapter command, in any run. |
| `CacheRuns.CloseIsFinal` | packages/cache/src/index.ts:286-294 | After `close` no run has a further call or operation, every caller has exactly one answer at once, and no load sends a command. |
| `CacheHistory.EveryAnswerHasASource` | packages/cache/src/index.ts:218-246 | In every run a caller has at most one answer, from a load of its own key. A text is the one that load's loader made or, for a load with a positive time to live, the one its read found; an error is what the loader threw, the adapter or the encoding failing, or an abort of this caller or of the service. |
| `CacheHistory.HitNeverCallsLoader` | packages/cache/src/index.ts:219-222 | In every run a load with a positive time to live whose read found a value answers with it and never calls its loader. |
| `CacheHistory.LoadsWereAskedFor` | packages/cache/src/index.ts:200-217 | A load has the key and the kind of time to live that some call of the run asked for. |
| `CacheHistory.AbortedNeverLoads` | packages/cache/src/index.ts:237-239 | A load aborted before its loader was called never calls it, in any run. |
| `CacheCommands.DueCommandsAreSent` | packages/cache/src/index.ts:223-245 | In every reachable state of an open service a load that no fence has met and no abort has ended has sent the set or delete that its read and its loader call for, and nobody is answered before the adapter answered it. |
| `CacheCommands.OnlyDueCommandsAreSent` | packages/cache/src/index.ts:223-245 | No load sends a command without a generation, and none with a positive time to live before its loader made a value. |
| `CacheCommands.OperationsSendTheirCommand` | packages/cache/src/index.ts:145-187 | In every reachable state an operation that is past its drain and its generation has sent its command, for the key or namespace it was begun with: a set sets, or deletes if it stores nothing, a delete deletes, an invalidate invalidates, unless the service was closed before the second fence of a set. |
| `CacheCommands.FencesOnlyMeetTheirScope` | packages/cache/src/index.ts:48-61 | In no run does a set or delete take the right to write from a load of another key, or an invalidate from one of another namespace. |
| `CacheCommands.NoCommandTwice` | packages/cache/src/index.ts:200-245 | In no run is the command of a load or of an operation sent twice. |
| `CacheCommands.LoadsNeverStick` | packages/cache/src/index.ts:218-256 | A load that has not settled always has a next step. |
| `CacheCommands.OperationsNeverStick` | packages/cache/src/index.ts:48-61 | In every reachable state an unfinished operation can go on at once, or waits for the answer to a command that was sent and not yet answered. |
| `CacheCommands.SecondFenceHolds` | packages/cache/src/index.ts:145-163 | Loads in flight when a set that stores nothing goes on as a delete never send a command after that delete. |
| `CacheRuns.RunKeeps` | packages/cache/src/index.ts:200-294 | Every run keeps the whole invariant: shapes of loads, flights, callers, fences and the command log. |
| `CacheCalls.ReachableIsIndexed` | packages/cache/src/index.ts:200-294 | In every reachable state flights and callers are filed under the loads they belong to and listed callers are unanswered, so the loops of the service meet each of them once. |
| `CacheCalls.Cache.GetOrSet` | packages/cache/src/index.ts:200-217 | Joins the flight of the id or opens one; closed, aborted and busy calls are refused and change nothing. |
| `CacheCalls.Cache.ReadDone` | packages/cache/src/index.ts:219-238 | After the read the invariant is kept, and a delete of its own is sent only by a load that is its id's flight, has sent nothing before, is fenced by no operation, and only while the service is open. |
| `CacheCalls.Cache.LoaderDone` | packages/cache/src/index.ts:238-245 | After the loader the invariant is kept, and a set is sent only by a load that is its id's flight, has sent nothing before, is fenced by no operation, and only while the service is open. |
| `CacheCalls.Cache.Settle` | packages/cache/src/index.ts:247-251 | The loop over the callers leaves active, flights, load and callers as one settlement step says. |
| `CacheCalls.Cache.Abort` | packages/cache/src/index.ts:271-278 | One caller leaves; the last one bars, unmaps and aborts the load. |
| `CacheCalls.Cache.Close` | packages/cache/src/index.ts:286-294 | The loops over active loads and their callers cut every one of them off. |
| `CacheCalls.Cache.Fence` | packages/cache/src/index.ts:48-61 | The loop over active loads bars exactly those in scope and collects exactly their dispatched commands, answered or not. |
| `CacheCalls.Cache.Start` | packages/cache/src/index.ts:145-150 | `set`, `delete` and `invalidate` up to the drain; refused once closed. |
| `CacheCalls.Cache.Drained` | packages/cache/src/index.ts:151-187 | After the drain: the command, the generation, or for a set that stores nothing a second fence as a delete, refused if closed meanwhile. |
| `MemoryCache.Adapter.GetMany` | packages/cache/src/memory.ts:93-110 | Under the current generation an answer is a value if and only if the slot has an entry, still unexpired at this lookup's clock and at every earlier lookup of the same key in the batch; it is then the plain map's latest value of the slot. Other generations miss throughout; entries and both recency orders are exactly those of lookups made one after another. |
| `MemoryCache.Adapter.GetAll` | packages/cache/src/memory.ts:98-109 | The loop over the keys, each with its own reading of the clock, answers and changes the entries and their order as the lookups do one after another; which answers are hits is said by `HitsAreExact` and `GetMany`. |
| `MemoryCache.AnswersAreLatest` | packages/cache/src/memory.ts:98-109 | A hit in the entry map is the latest set of its slot. |
| `MemoryCache.BatchDropsExpired` | packages/cache/src/memory.ts:98-109 | A batch takes out only entries that one of its own lookups found expired, and changes none. |
| `MemoryCache.Adapter.HitsAreExact` | packages/cache/src/memory.ts:98-109 | Under the current generation a lookup of a batch answers a value if and only if the slot has an entry and no lookup of its key, up to this one, came at or after its expiry. |
| `MemoryCache.BatchKeepsExactly` | packages/cache/src/memory.ts:98-109 | After a batch exactly the entries are left, unchanged, that none of its lookups found expired. |
| `CacheRecency.HitsComeLast` | packages/cache/src/memory.ts:98-109 | After a batch every key it asked for and left in place is more recent than every key it did not ask for. |
| `CacheRecency.OthersKeepTheirPlaces` | packages/cache/src/memory.ts:98-109 | Keys that a batch does not ask for keep their order among themselves. |
| `MemoryCache.ReadsBack` | packages/cache/src/memory.ts:93-134 | A stored value is read back by the next batch of its key exactly until it expires. |
| `MemoryCache.Adapter.Set` | packages/cache/src/memory.ts:112-134 | Each outcome exactly when; a stored value becomes its slot's latest; survivors are a run of the most recent others followed by the new entry; refused calls store nothing. |
| `MemoryCache.Adapter.MakeRoom` | packages/cache/src/memory.ts:126-130 | The eviction loop ends with room without ever meeting an empty map, and stops at the first run that leaves room. |
| `MemoryCache.Adapter.KeepsLongest` | packages/cache/src/memory.ts:126-130 | No longer run of recent entries would have left room. |
| `MemoryCache.Adapter.Delete` | packages/cache/src/memory.ts:136-140 | Removes the slot under its current generation and does nothing under any other. |
| `MemoryCache.Adapter.Invalidate` | packages/cache/src/memory.ts:142-147 | Empties exactly the namespace, replaces its generation and leaves every generation handed out before superseded for it. |
| `MemoryCache.Adapter.Generation` | packages/cache/src/memory.ts:89-91 | Hands out the current generation or a fresh one; superseded generations stay superseded. |
| `MemoryCache.Adapter.TouchNamespace` | packages/cache/src/memory.ts:69-84 | A known namespace becomes the most recent; a new one may push out the oldest with all its entries and no others. |
| `MemoryCache.Adapter.EvictNamespace` | packages/cache/src/memory.ts:61-67 | The scan takes out exactly the ids with the namespace's prefix, and keeps the byte count and both limits. |
| `MemoryCache.FiledForgets` | packages/cache/src/memory.ts:61-67 | After the scan no entry of the namespace is left and every other one is still filed correctly. |
| `JsonText.PrefixSelectsNamespace` | packages/cache/src/memory.ts:61-67 | The prefix of a namespace starts exactly the composite ids of that namespace. |
| `JsonText.CompositeIsInjective` | packages/cache/src/memory.ts:50-52 | Distinct namespace and key pairs have distinct composite ids. |
| `JsonText.QuoteListIsInjective` | packages/cache/src/index.ts:67-67 | Distinct scope paths have distinct namespace texts. |
| `JsonText.LoadIdSelects` | packages/cache/src/index.ts:49-53 | A namespace text followed by a newline starts exactly the load ids of that namespace, and an id names one key of one namespace. |
| `RoleGraph.ValidateRoleGraph` | packages/authorization/src/rbac.ts:48-135 | Accepts exactly the graphs whose fields and bindings are valid and whose inheritance resolves in each role's scope and has no cycle; ends on every graph. |
| `RoleValidity.ValidGraphMeans` | packages/authorization/src/rbac.ts:48-135 | What is accepted, field by field: at most 512 roles and 4096 bindings, proper names, no two alike, permissions of known actions in the role's own scope, every parent and bound role there in the same scope, and no chain of parents that comes back to its start. |
| `RoleGraph.ExpandRolePermissions` | packages/authorization/src/rbac.ts:148-169 | Returns exactly the permissions of all roles reached by `inherits`, each once, and throws exactly when a reached role is missing or over its limits or too many are reached. |
| `RoleGraph.EffectiveRolePermissions` | packages/authorization/src/rbac.ts:171-177 | The same for one role in one scope. |
| `RoleGraph.EffectivePermissions` | packages/authorization/src/rbac.ts:179-201 | A permission is returned, once, if and only if some binding of this very principal, in this very scope, without expiry or with one still ahead, names a role that gives it. |
| `RoleGraph.HoldingsAreOnesOwn` | packages/authorization/src/rbac.ts:179-201 | Graphs with the same roles and the same bindings of a principal in a scope give it the same permissions there, whatever the other bindings are. |
| `RoleGraph.NothingFromNothing` | packages/authorization/src/rbac.ts:188-192 | A principal without a live binding of its own in a scope holds nothing there. |
| `RoleGraph.ValidGraphExpands` | packages/authorization/src/rbac.ts:148-177 | On a validated graph a role expands if and only if it exists in the scope. |
| `RoleGraph.ValidGraphNeverThrows` | packages/authorization/src/rbac.ts:179-201 | On a validated graph the effective permissions never throw. |
| `RoleGraph.CoversIsOrder` | packages/authorization/src/rbac.ts:39-46 | Coverage is reflexive, transitive and antisymmetric. |
| `RoleRuns.RunStaysWithin` | packages/authorization/src/management.ts:81-133 | After any run of concurrent reads and swaps, what anybody holds is covered by what the same principal held at the start, or by a permission, in one of its scopes, of an authority supplied with a commit and not yet ended. |
| `RoleRuns.CommitsReplaceWhatWasRead` | packages/authorization/src/management.ts:81-133 | In every reachable state a swap commits its change exactly when nobody has committed since its manager read, and then it replaces the very snapshot that was read and checked; otherwise nothing changes. |
| `RoleRuns.UndisturbedChangesCommit` | packages/authorization/src/management.ts:81-133 | Undisturbed, a permitted change is read, checked and committed. |
| `RoleRuns.ChangeGains` | packages/authorization/src/management.ts:155-286 | Every kind of permitted change keeps the graph valid and gives nobody anything beyond the authority supplied, or for longer than it lasts. |
| `RoleRuns.BindingsWereGranted` | packages/authorization/src/management.ts:223-286 | In every run each binding was there at the start or was committed by a bind whose expiry is within the authority's limit, or by a delegation that ends no later than a binding of the delegator in the very graph it replaced. |
| `RoleRuns.RolesWereGranted` | packages/authorization/src/management.ts:155-222 | In every run each role was there at the start or was committed by a creation or edit in a scope of its authority, which covers each of the role's permissions. |
| `RoleRules.ChangesMean` | packages/authorization/src/management.ts:155-286 | What each change makes of roles and bindings, in plain fields: exactly one role or binding is added, replaced or removed. |
| `RoleRules.CreatePermitted` | packages/authorization/src/management.ts:155-173 | A creation is permitted exactly if the outcome is valid and the authority has everything the role then gives, told in its scopes and permissions. |
| `RoleRules.EditPermitted` | packages/authorization/src/management.ts:174-222 | An edit is permitted exactly if the role is there, the outcome is valid, the editor gains nothing now, and for every role of the scope that then gives more or less the authority has all it gives and outlasts its live bindings. |
| `RoleRules.BindPermitted` | packages/authorization/src/management.ts:223-240 | A binding is permitted exactly if the outcome is valid, it ends after now and within the authority, and the authority has everything the role gives. |
| `RoleRules.DelegatePermitted` | packages/authorization/src/management.ts:251-286 | A delegation is permitted exactly if the binding is, and the actor has a live binding of the named id and scope that ends no sooner and whose role covers what is passed on. |
| `RoleRules.RevokePermitted` | packages/authorization/src/management.ts:241-250 | A revocation is permitted exactly if a binding of that id is in the scope named. |
| `RoleManagement.CreateGains` | packages/authorization/src/management.ts:155-173 | An allowed creation gives nobody anything beyond the authority, or for longer than it lasts. |
| `RoleManagement.EditStaysWithin` | packages/authorization/src/management.ts:174-222 | An allowed edit gives nobody, in any scope at any time, anything beyond what it held or the authority covers, or for longer than the authority lasts. |
| `RoleManagement.EditorGainsNothing` | packages/authorization/src/management.ts:174-222 | At the time of the edit the editor's holdings are covered by its earlier ones. |
| `RoleManagement.EditorNeverGainsExactly` | packages/authorization/src/management.ts:174-222 | At no time from the edit on, in no scope, does the editor gain anything, if and only if each permission one of its bindings will give is already covered through one of its bindings that lasts at least as long. |
| `RoleManagement.EditorMayGainLater` | packages/authorization/src/management.ts:174-222 | A concrete valid and allowed edit that fails that condition: once a binding has run out the editor holds something it would not have held. |
| `RoleManagement.BindGivesExactly` | packages/authorization/src/management.ts:223-240 | A new binding gives its principal exactly its role while it lasts, and nobody else anything. |
| `RoleManagement.BindGains` | packages/authorization/src/management.ts:223-240 | An allowed binding stays within the authority and ends with it. |
| `RoleManagement.RevokeTakesExactly` | packages/authorization/src/management.ts:241-250 | A revocation takes exactly what the binding alone gave. |
| `RoleManagement.RevokeGains` | packages/authorization/src/management.ts:241-250 | A revocation gives nobody anything. |
| `RoleManagement.DelegationIsCovered` | packages/authorization/src/management.ts:251-286 | While a delegated binding lasts the delegator's own holding covers all it gives. |
| `RoleStore.MemoryRoleStore.CompareAndSwap` | packages/authorization/src/rbac.ts:217-238 | Swaps exactly when the expected revision is current, the next one differs from it and the graph is valid; keeps the store sound whatever revision comes, and the history complete when it is a new one. |
| `RoleStore.CreateRole` | packages/authorization/src/management.ts:155-173 | Denied exactly when not allowed; a commit replaces the very snapshot read and gains stay within the authority. |
| `RoleStore.EditRole` | packages/authorization/src/management.ts:174-222 | Denied exactly when not allowed; a commit replaces the very snapshot read and gains stay within the authority. |
| `RoleStore.BindRole` | packages/authorization/src/management.ts:223-240 | Denied exactly when not allowed; a commit replaces the very snapshot read and gains stay within the authority. |
| `RoleStore.RevokeBinding` | packages/authorization/src/management.ts:241-250 | Denied exactly when not allowed; a commit gives nobody anything. |
| `RoleStore.DelegateRole` | packages/authorization/src/management.ts:251-286 | Denied exactly when not allowed; a commit replaces the very snapshot read and gains stay within the authority. |
| `RoleStore.CheckEdit` | packages/authorization/src/management.ts:180-220 | The checks of an edit hold exactly when it is allowed: authority over every role it reaches and no gain for the editor. |
| `RoleStore.CheckDelegate` | packages/authorization/src/management.ts:262-284 | The checks of a delegation hold exactly when it is allowed: covered by one live source of the actor and ending with it. |
| `OAuthRuns.OneResponsePerCredential` | packages/auth/src/oauth.ts:543-599 | In every run a code and a refresh token each get at most one token response. |
| `OAuthConsent.ApprovalsWereGiven` | packages/auth/src/oauth.ts:483-516 | In every run from the empty store each approval, and so each grant, has a consent of the same request by the same subject in the run, and that consent said yes. |
| `OAuthConsent.OnlyYesGrants` | packages/auth/src/oauth.ts:483-488 | A call opened with any other decision never goes on to a grant, a code or a redirect, whatever runs beside it. |
| `OAuthConsent.DecisionsCount` | packages/auth/src/oauth.ts:483-488 | An acknowledged, unexpired decision grants if it was yes and is reported as denied if it was no. |
| `OAuthService.YesGivesACode` | packages/auth/src/oauth.ts:488-536 | Undisturbed, an acknowledged yes ends in a redirect with a code for the approved client, redirect and challenge, and a grant of exactly the approved scopes. |
| `OAuthService.ConsentIsOffered` | packages/auth/src/oauth.ts:234-258 | Undisturbed, a consent on a live request comes to its decision with exactly those asked scopes that the permissions contain. |
| `OAuthService.CodeGivesTokens` | packages/auth/src/oauth.ts:543-565 | Undisturbed, a live code presented with its client, redirect and verifier is exchanged for tokens, and the access token is accepted at once. |
| `OAuthService.RefreshGivesTokens` | packages/auth/src/oauth.ts:566-599 | Undisturbed, the current refresh token is exchanged for new tokens with the scopes asked for; the old one counts as rotated and the new one is current. |
| `OAuthService.AcceptedUntilItEnds` | packages/auth/src/oauth.ts:285-307 | An access token goes on being accepted in every run that does not write its grant, until its time is over. |
| `OAuthService.OwnersRevoke` | packages/auth/src/oauth.ts:617-623 | Revoking a live grant is its subject's alone, and undisturbed it is done. |
| `OAuthService.HoldersRevoke` | packages/auth/src/oauth.ts:624-663 | The latest token of either kind, presented by its own client, revokes its live grant. |
| `OAuthRefusals.ConsentIsRefused` | packages/auth/src/oauth.ts:234-246 | After its permissions are known a consent is refused exactly when there are none, nothing asked for is among them, or the request must be bound or narrowed and is over. |
| `OAuthRefusals.WritesAreLost` | packages/auth/src/oauth.ts:216-223 | A write of a request, code or grant is lost exactly when the record is gone or was written since it was read, and then changes nothing. |
| `OAuthRefusals.LateAnswersAreRefused` | packages/auth/src/oauth.ts:216-223 | An acknowledged write is refused exactly when its record, its grant or its new access token is over by then. |
| `OAuthRefusals.RedemptionIsRefused` | packages/auth/src/oauth.ts:543-553 | A code is redeemed exactly while it is unused and live, by its client, to its redirect, with the verifier of its challenge: 43 to 128 unreserved characters. |
| `OAuthRefusals.ExchangeIsRefused` | packages/auth/src/oauth.ts:553-560 | A redemption goes on exactly while its grant is live and unrevoked, all its scopes are still permitted and the code is not over. |
| `OAuthRefusals.RefreshIsRefused` | packages/auth/src/oauth.ts:566-579 | A refresh is refused at once exactly unless its token is the current one or a rotated one of a live, unrevoked grant of its client. |
| `OAuthRefusals.RotationIsRefused` | packages/auth/src/oauth.ts:580-599 | A rotation is refused exactly when it asks for nothing, for scopes the grant or the permissions lack, or too late; at 2048 rotations the grant is revoked instead. |
| `OAuthRefusals.VerifyMeans` | packages/auth/src/oauth.ts:285-307 | An access token is accepted exactly while it is the latest of a live, unrevoked grant for this resource, at its presentation and when the permissions arrive, and carries exactly the permitted scopes of the grant. |
| `OAuthRefusals.RevocationStarts` | packages/auth/src/oauth.ts:624-645 | A token revocation goes on to write exactly if the token is the latest of its kind of a live, unrevoked grant of this client; otherwise it succeeds silently. |
| `OAuthRefusals.RevocationEnds` | packages/auth/src/oauth.ts:573-660 | A revocation is written exactly if nobody has written the grant since it was read; a replay is refused either way, and a client whose write was lost looks again. |
| `OAuthRefusals.RevocationLooksAgain` | packages/auth/src/oauth.ts:656-660 | That second look succeeds exactly if the token is no longer in use. |
| `OAuthRefusals.PruningTakesWhatIsOver` | packages/auth/src/oauth-store.ts:92-108 | Pruning takes exactly the chosen records that are over at the time given, and changes none it leaves. |
| `OAuthRuns.SpentCredentialGetsNothing` | packages/auth/src/oauth.ts:566-599 | Once a code is used or a refresh token rotated, no call that had not won it by then is ever answered for it. |
| `OAuthRuns.GrantsOnlyNarrow` | packages/auth/src/oauth.ts:580-599 | Along every run revocation lasts, scopes shrink, rotated tokens are kept, the subject and expiry stay, and a pruned grant does not return. |
| `OAuthRuns.GrantsStayWithinLimits` | packages/auth/src/oauth.ts:260-273 | In every reachable state access ends no later than its grant, at most 2048 tokens are rotated, and the current one is not among them. |
| `OAuthRuns.AccessTracesToApproval` | packages/auth/src/oauth.ts:285-307 | An accepted access token leads to one approval, by its subject, of one request, and carries no scope that request did not ask for. |
| `OAuthRuns.OnlyLatestTokensCount` | packages/auth/src/oauth.ts:592-599 | Once new tokens are stored the grant accepts no other access token and no other refresh token is current. |
| `OAuthRuns.ReplayRevokesExactly` | packages/auth/src/oauth.ts:573-579 | A replayed token is refused in every case; after any run of other calls its write leaves the grant revoked if and only if nobody has written the grant since the replay read it or it is revoked already. |
| `OAuthReplay.ReplayMayLeaveGrantUnrevoked` | packages/auth/src/oauth.ts:566-599 | A concrete run from the empty store in which the current token's refresh writes first: the replay is refused and the grant stays unrevoked. |
| `OAuthRuns.ReplayLosesRace` | packages/auth/src/oauth.ts:566-599 | In every state where a rotated token meets a grant whose current token can still be refreshed, that race ends so. |
| `OAuthRuns.RefusedTokensStayRefused` | packages/auth/src/oauth.ts:635-645 | An access token that was handed out and is of no use, because its grant is gone, over, revoked or has newer tokens, is refused in every later state of every run. |
| `OAuthRuns.RevocationLasts` | packages/auth/src/oauth.ts:624-663 | Success reported by a token revocation of the token's own client, at once, on its write or after a lost write and one more read, means that no later state of any run accepts the access token. |
| `OAuthRuns.RunKeeps` | packages/auth/src/oauth.ts:234-663 | Every run of concurrent calls, clock steps and pruning keeps the invariant of records, snapshots and one-time claims. |
| `OAuthRuns.RunIsLater` | packages/auth/src/oauth-store.ts:73-91 | Every run only moves records on: revisions rise with every change and used requests and codes stay used. |
| `OAuthCalls.RecordStore.Insert` | packages/auth/src/oauth-store.ts:48-65 | Inserts exactly when the key is free. |
| `OAuthCalls.RecordStore.Replace` | packages/auth/src/oauth-store.ts:73-91 | Replaces exactly when the stored revision is the expected one, and counts it up. |
| `OAuthCalls.Intersect` | packages/auth/src/oauth.ts:239-239 | Keeps exactly the permitted scopes, in order. |
| `OAuthCalls.Server.Permit` | packages/auth/src/oauth.ts:238-246 | Consent goes on only for the actor asked about and with scopes that the request asked for and the permissions contain. Keeps the run invariant and moves the records on. |
| `OAuthCalls.Server.AcknowledgeAsk` | packages/auth/src/oauth.ts:216-223 | A call that goes on to grant said yes and has won the approval of its request alone: the stored request is used or gone and no other call or approval has it. A no ends as denied. Keeps the run invariant and moves the records on. |
| `OAuthCalls.Server.InsertGrant` | packages/auth/src/oauth.ts:488-516 | The grant's approval is the only one of its request and gives no more than it asked; no access token of the new grant is accepted yet. Keeps the run invariant and moves the records on. |
| `OAuthCalls.Server.InsertCode` | packages/auth/src/oauth.ts:517-536 | The code can be redeemed by the approved client with its redirect and the verifier of its challenge and by nobody else, and no call has tried it. Keeps the run invariant and moves the records on. |
| `OAuthCalls.Server.PresentCode` | packages/auth/src/oauth.ts:543-553 | A redemption goes on only with a code that no call has won. Keeps the run invariant and moves the records on. |
| `OAuthCalls.Server.CommitCode` | packages/auth/src/oauth.ts:558-559 | The winner spent the very record it read and nobody else has won the code; a loser's record was written since, or pruned. Keeps the run invariant and moves the records on. |
| `OAuthCalls.Server.PresentRefresh` | packages/auth/src/oauth.ts:566-579 | A refresh becomes a revocation exactly for a rotated token of a live, unrevoked grant of this client, and goes on as a refresh only with a token no call has won. Keeps the run invariant and moves the records on. |
| `OAuthCalls.Server.PermitRefresh` | packages/auth/src/oauth.ts:580-598 | New tokens are asked for only within the permissions and the scopes of the grant, with the presented token among at most 2048 rotated ones and access ending with the grant. Keeps the run invariant and moves the records on. |
| `OAuthCalls.Server.CommitMint` | packages/auth/src/oauth.ts:560-563 | The winner replaced the very unrevoked grant it read, has the credential alone, and no other access token of the grant is accepted; a loser's grant was written since, or pruned. Keeps the run invariant and moves the records on. |
| `OAuthCalls.Server.AcknowledgeMint` | packages/auth/src/oauth.ts:560-564 | A call that answers has the credential alone: no other call has won it and the store shows it spent. Keeps the run invariant and moves the records on. |
| `OAuthCalls.Server.CommitRevoke` | packages/auth/src/oauth.ts:646-660 | Success means that the grant is revoked and none of its access tokens is accepted; a replay ends refused, won or lost. Keeps the run invariant and moves the records on. |
| `OAuthCalls.Server.ReadAgain` | packages/auth/src/oauth.ts:656-660 | After that read success is reported only when the token is of no use. |
| `EventHistory.OneLiveLease` | packages/events/src/d1.ts:149-182 | At any time at most one claim of a delivery is unexpired and not given back, also when claims read their clock before other calls commit. |
| `EventHistory.OnlyLastClaimSettles` | packages/events/src/d1.ts:183-203 | Only the last claim's token, within its lease, can acknowledge or retry. |
| `EventHistory.AcknowledgedOnce` | packages/events/src/d1.ts:183-192 | A delivery is acknowledged at most once and is delivered from then on. |
| `EventHistory.NeverUndone` | packages/events/src/d1.ts:101-203 | Along every run settled rows, cancellations, events and audiences stay as they are and attempts never fall. |
| `EventHistory.AudienceFixedAtPublish` | packages/events/src/d1.ts:124-148 | An event's rows are for ever one for each subscription active on its topic at first publish. |
| `EventHistory.ReplayDetectsConflicts` | packages/events/src/d1.ts:127-147 | A repeated publish is a replay exactly when topic and payload are the same, whatever ran in between. |
| `EventHistory.NothingIsLost` | packages/events/src/d1.ts:149-182 | A due pending delivery, or one whose lease ran out, can be claimed. |
| `EventHistory.RowsAlwaysShaped` | packages/events/src/d1.ts:101-203 | In every reachable state a row is processing exactly when it has token and lease, its attempts count its claims, and inactive subscriptions have only settled rows. |
| `EventCauses.RowsChangeExactly` | packages/events/src/d1.ts:114-203 | What each call makes of each row, in plain fields: cancelled with its own subscription, claimed, delivered or given back by the holder of its lease, and otherwise unchanged. |
| `EventCauses.RowsAreAddedExactly` | packages/events/src/d1.ts:124-148 | A row is added exactly by the first publish of its event with a payload of at most 1 MiB, for a subscription active on its topic, and is due at once. |
| `EventCauses.SubscriptionsChangeExactly` | packages/events/src/d1.ts:101-123 | A subscription changes only when it is cancelled by its own id, and is added only by its own registration. |
| `EventCauses.SettledForAReason` | packages/events/src/d1.ts:114-192 | In every run a row that became cancelled had its own subscription cancelled, and one that became delivered was acknowledged. |
| `EventCauses.ClaimsAreDue` | packages/events/src/d1.ts:149-182 | A claim takes a due or abandoned row of an active subscription the worker serves, and any other such row comes after it by due time, event and subscription. |
| `EventCauses.GivenBackIsDueLater` | packages/events/src/d1.ts:193-203 | In every run a delivery given back with a delay is not claimed again before the delay is over. |
| `EventHistory.RunKeeps` | packages/events/src/d1.ts:101-203 | Every run of calls keeps the outbox invariant. |
| `EventOutbox.EventStore.Register` | packages/events/src/d1.ts:101-113 | Registers a new subscription as active; an id in use is accepted exactly when it has this topic and is active, and is never changed. |
| `EventOutbox.EventStore.Cancel` | packages/events/src/d1.ts:114-123 | Makes this subscription inactive and its unsettled rows cancelled, without token and lease; its settled rows, the rows of other subscriptions and other subscriptions are unchanged. |
| `EventOutbox.EventStore.Publish` | packages/events/src/d1.ts:124-148 | Stores the event and fans it out to the subscriptions active on its topic, or compares it with the one stored. |
| `EventOutbox.EventStore.Claim` | packages/events/src/postgres.ts:154-189 | Claims the first claimable row in order, under a fresh token and lease. |
| `EventOutbox.EventStore.Acknowledge` | packages/events/src/d1.ts:183-192 | Settles the row exactly for its lease holder. |
| `EventOutbox.EventStore.Retry` | packages/events/src/postgres.ts:81-102 | Gives the row back, due later, exactly for its lease holder. |
| `EventOutbox.NamesMean` | packages/events/src/contracts.ts:51-54 | A name is accepted exactly when it has at most 256 units and one of them is no white space or line terminator of ECMAScript. |
| `CanonicalJson.EncodeIsIdentity` | packages/events/src/d1.ts:51-73 | Two payloads have one text if and only if they are equal up to member order and the sign of zero. |
| `CanonicalJson.PayloadsMean` | packages/events/src/d1.ts:51-73 | A payload is encoded exactly unless a number in it, however deep, is not finite. |
| `CanonicalJson.SortSorts` | packages/events/src/d1.ts:63-73 | Sorting the members by name gives a strictly sorted list of the same members. |
| `PluginOrder.OrderPlugins` | packages/engine/src/engine-host.ts:132-214 | Returns an order exactly when plugins are proper, distinct, name only each other and can all be put after what their `after` and before what their `before` names; it is the one of these orders that departs from none of them towards a later declaration. Otherwise it reports a missing name or a cycle exactly when there is one. |
| `PluginOrder.Dependencies` | packages/engine/src/engine-host.ts:172-192 | The dependency sets the loop works on are exactly those of the `before` and `after` lists, closed exactly when every name resolves. |
| `PluginOrder.Greedy` | packages/engine/src/engine-host.ts:193-213 | The greedy loop ends with the least order or with the part left over containing a cycle. |
| `Digraphs.DepthFirst.Run` | packages/engine/src/workspace.ts:68-97 | A three-colour walk succeeds exactly when every edge resolves and there is no cycle, and then lists dependencies first. |
| `Workspace.Ordered` | packages/engine/src/workspace.ts:68-97 | Returns an order exactly when ids are unique, every dependency is declared and an order exists in which each service comes after its dependencies; what it returns is such an order of all services. |
| `Workspace.StopsRespect` | packages/engine/src/workspace.ts:521-532 | In the stopping order every active service comes before those it depends on. |
| `Workspace.CloseWorkspace` | packages/engine/src/workspace.ts:521-532 | The drain stops exactly the active services, each before its dependencies. |
| `ReleaseOrder.ReleaseOrder` | scripts/release-verify.ts:29-72 | Succeeds exactly when names are distinct, everything asked for from the workspace is there, no public package needs a private one to run, and some order builds every package after those it names; then it gives such an order and its public part. |
| `ReleaseOrder.CheckDependencyOrder` | scripts/release-ci.ts:268-301 | Accepts a receipt exactly when each listed package that a package names to run is listed before it. |
| `ReleaseOrder.SelectionPublishes` | scripts/release-ci.ts:268-301 | Any selection of a release order, kept in order, passes that check. |
| `Generation.Output.Generate` | packages/engine/src/engine-host.ts:633-767 | Succeeds exactly on accepted input, leaving exactly the produced files, the rest untouched and the new list; refused, it has changed nothing; with everything in place it writes nothing. |
| `Generation.AcceptedMeans` | packages/engine/src/engine-host.ts:635-753 | What is accepted, path by path: proper names, no two alike but for case or one inside the other, an absent or readable ownership list of proper names, no owned name respelled, and every file on disk at an owned or produced path owned and unedited. |
| `Generation.LeavesMeans` | packages/engine/src/engine-host.ts:754-767 | What a success leaves, path by path: produced files with their content, no owned file that was not produced, and everything unowned as it was. |
| `Generation.RepeatChangesNothing` | packages/engine/src/engine-host.ts:733-767 | After a success the list on disk is the new one, free of clashes, and the same generation again is accepted and leaves the same disk. |
| `Generation.Output.Collect` | packages/engine/src/engine-host.ts:635-691 | Accepts exactly properly named files none of which is, or lies inside, another, ignoring case; otherwise names the first offence. |
| `Generation.Output.ReadOwnership` | packages/engine/src/engine-host.ts:692-732 | Takes the list exactly when it is absent or readable and proper, and no output differs from an owned one in case only. |
| `Generation.Output.Check` | packages/engine/src/engine-host.ts:733-753 | Accepts exactly when every old or new output on disk is owned and unedited. |
| `Generation.Output.WriteAll` | packages/engine/src/engine-host.ts:754-759 | Each produced file has its content, nothing else changes, and nothing is written that is already there. |
| `Generation.Output.RemoveObsolete` | packages/engine/src/engine-host.ts:760-762 | Removes exactly the owned files no longer produced. |
| `SessionRuns.SessionsOnlyTighten` | packages/auth/src/sessions.ts:358-368 | Along every run, whatever lifetimes calls bring, expiry and idle timeout never grow, the renewal interval never falls, renewals keep the interval set before, and a revoked session stays as it is. |
| `SessionRuns.RenewalsKeepDistance` | packages/auth/src/sessions.ts:339-343 | A renewal comes no sooner after the last one than the interval it stores. |
| `SessionRuns.DistanceBreaksExactly` | packages/auth/src/sessions.ts:358-368 | A step leaves the last renewal closer to the one before than the stored interval if and only if it writes a touch configured with a longer interval than that distance. |
| `SessionRuns.RenewalsStayApart` | packages/auth/src/sessions.ts:358-368 | Over every run without such a touch the last renewal stays as far from the one before as the record asks. |
| `SessionRuns.LaterIntervalMayExceedDistance` | packages/auth/src/sessions.ts:365-367 | A concrete run from the empty store after which a session's one renewal is closer to its issue than the interval the record then holds. |
| `SessionRuns.RecordsStayValid` | packages/auth/src/sessions.ts:71-108 | Every stored record passes the record check at every later time, so its times stay in order. |
| `SessionRuns.AcceptedOnlyWithinLimits` | packages/auth/src/sessions.ts:169-201 | A lookup accepts only within the limits the session had at any earlier time and within the caller's absolute lifetime. |
| `SessionRuns.OneRenewalPerCredential` | packages/auth/src/sessions.ts:329-392 | Of all renewals of one credential at most one succeeds, and from then on lookup refuses that credential. |
| `SessionRuns.RefusalLasts` | packages/auth/src/sessions.ts:169-201 | A replaced credential, or one of a revoked session, is refused for ever. |
| `SessionService.AcceptsExactly` | packages/auth/src/sessions.ts:169-201 | In every reachable state a lookup goes on exactly for the stored digest of an unrevoked session within its own total and idle limits and the caller's, and reports the first of the four. |
| `SessionService.CommitsExactly` | packages/auth/src/sessions.ts:376-385 | In every reachable state a write succeeds exactly if nobody has written or revoked the record since it was read and it is still within its old and its narrowed limits. |
| `SessionService.TouchWorks` | packages/auth/src/sessions.ts:329-392 | Undisturbed, an accepted session is touched: its activity is now, its limits are the smaller of both, and its credential is accepted on. |
| `SessionService.RenewWorks` | packages/auth/src/sessions.ts:329-392 | Undisturbed, an accepted session whose last renewal is far enough back is renewed: the new credential is accepted and the old one never again. |
| `SessionService.SignOutWorks` | packages/auth/src/sessions.ts:442-473 | A sign-out with the credential of an unrevoked session revokes it as of now, and any other is refused. |
| `SessionService.AdministratorRevokes` | packages/auth/src/drizzle/sqlite.ts:43-62 | An administrator revokes exactly the unrevoked revision it has seen, at the latest of its time, the issue and the store's clock. |
| `SessionRuns.RunKeeps` | packages/auth/src/sessions.ts:329-392 | Every run of concurrent calls and revocations keeps the invariant. |
| `Sessions.SessionStore.Mutate` | packages/auth/src/drizzle/shared.ts:33-80 | Writes exactly the seven mutable columns, exactly when revision and digest are those read, the session is unrevoked and within its old and new limits at the store's own clock, nothing widens, and a renewal is due. |
| `Sessions.SessionStore.Revoke` | packages/auth/src/drizzle/sqlite.ts:88-102 | Revokes exactly an unrevoked session. |
| `Sessions.SessionStore.RevokeRevision` | packages/auth/src/drizzle/sqlite.ts:43-62 | Revokes exactly an unrevoked session of that revision, and counts it up. |
| `SessionCalls.Service.Issue` | packages/auth/src/sessions.ts:272-326 | Stores a session under an unused id, reports the expiry a lookup would compute, and the credential is accepted at once. Keeps the run invariant, and sessions only tighten. |
| `SessionCalls.Service.Lookup` | packages/auth/src/sessions.ts:169-200 | A call goes on exactly when the stored digest is the credential's, the session is unrevoked and its expiry under the caller's lifetimes is ahead; the record check never decides on a stored record. Keeps the run invariant, and sessions only tighten. |
| `SessionCalls.Service.Prepare` | packages/auth/src/sessions.ts:198-375 | What is sent to the store never extends expiry or idle timeout, never shortens the renewal interval, and for a renewal is due under both intervals and carries a secret no record has. Keeps the run invariant, and sessions only tighten. |
| `SessionCalls.Service.Commit` | packages/auth/src/sessions.ts:376-385 | The winner replaced the very record it read, and a renewal's old credential is accepted by no lookup from then on. Keeps the run invariant, and sessions only tighten. |
| `SessionCalls.Service.Acknowledge` | packages/auth/src/sessions.ts:385-391 | A reported expiry is ahead, and after a rotation the old credential is accepted by no lookup. Keeps the run invariant, and sessions only tighten. |
| `SessionCalls.Service.CommitRevoke` | packages/auth/src/sessions.ts:442-473 | After a successful revocation no credential of the session is accepted, under any lifetimes, at any time. Keeps the run invariant, and sessions only tighten. |
| `AuditPages.WalkIsExact` | packages/audit/src/service.ts:154-167 | Following the cursor to its end, while rows arrive only above it, lists exactly the wanted events of the first store, newest first and by falling id at one time. |
| `AuditPages.WalkIsComplete` | packages/audit/src/service.ts:154-167 | Whatever rows arrive between requests, no event is listed twice and none present at the start is missed. |
| `AuditPages.DescendingHasNoRepeats` | packages/audit/src/sqlite.ts:107-107 | A descending list repeats nothing. |
| `AuditPages.PageShrinks` | packages/audit/src/service.ts:160-166 | Every page with a cursor leaves less to list, so a walk over a store at rest ends. |
| `AuditPages.Service.Walk` | packages/audit/src/service.ts:154-167 | Such a walk ends with every wanted event once, newest first and by falling id at one time. |
| `AuditPages.Service.Query` | packages/audit/src/service.ts:154-167 | A page is the first rows below the cursor, and a next cursor is given exactly when rows remain. |
| `AuditPages.Repository.List` | packages/audit/src/sqlite.ts:76-110 | Lists the first rows, in order, that pass every filter term and the cursor. |
| `AuditPages.Repository.Insert` | packages/audit/src/sqlite.ts:40-61 | Inserts exactly when no row has this id in this scope; otherwise nothing is stored and it reports a duplicate exactly when the stored event is the same apart from when it was recorded, and a conflict when not. |
| `Policy.Compile` | packages/authorization/src/core.ts:33-89 | Copies a condition exactly when every leaf is proper, no list is empty, depth is at most 32 and nodes at most 1024. |
| `Policy.Matches` | packages/authorization/src/core.ts:162-209 | Evaluates every part; an error anywhere is an error. |
| `Policy.PartsMean` | packages/authorization/src/core.ts:169-176 | An `all` holds exactly when every part does; an `any` exactly when some part does and none fails; either fails exactly when some part does. |
| `Policy.AttributeMeans` | packages/authorization/src/core.ts:182-195 | An attribute condition holds exactly when its source has the key with the value, or one of the values, that it names, and it never fails. |
| `Policy.RelationMeans` | packages/authorization/src/core.ts:196-207 | A relation is what the resolver says about the named resource, or else the request's; without a principal it does not hold, and without a resolver it fails. |
| `Policy.RearrangedAlike` | packages/authorization/src/core.ts:169-176 | Order and repetition of parts, at every level, never change what a condition says. |
| `Policy.ExchangeRearranges` | packages/authorization/src/core.ts:169-176 | Exchanging any two parts is such a rearrangement. |
| `Policy.Combine` | packages/authorization/src/core.ts:320-346 | Any failure fails the evaluation; otherwise denial goes over permission and permission over the default. |
| `Policy.OrderNeverMatters` | packages/authorization/src/core.ts:320-346 | Order, repetition and arrangement of rules and policies never change the decision. |
| `Policy.OtherRulesDoNotCount` | packages/authorization/src/core.ts:322-330 | A rule for another action, resource kind, scope or resource never changes the decision, wherever it stands. |
| `Policy.RulesForTheRequestCount` | packages/authorization/src/core.ts:320-346 | A denying rule for the request whose condition holds is never overcome, and an allowing one alone is enough. |
| `Policy.AllowedMeans` | packages/authorization/src/core.ts:346-346 | Access is given exactly when an allowing rule of this request holds or a policy allows, the condition of every denying rule of this request is plainly false, no condition fails, and no policy denies or fails. |
| `Policy.FailureMeans` | packages/authorization/src/core.ts:320-346 | Evaluation fails exactly when a policy fails or the condition of some rule of this request does, whatever the others say. |
| `Policy.DenialsOnlyRestrict` | packages/authorization/src/core.ts:331-346 | Extra denying rules never give access. |

## Left out

- SQL text, Drizzle, D1, Redis and row locks: each statement, batch or transaction is one atomic step.
- Real digests, randomness and encodings; the hexadecimal and base64 forms of tokens.
- HTTP, cookies, redirect URLs, client registration and lookup: whether a client is known is an input of a step.
- Timers, abort signals and telemetry, except where an abort changes a load or its callers; in `oauth.ts` and
  `sessions.ts` a call that is aborted or loses its connection is one that takes no further step, but for the lost write of
  a token revocation.
- The dispatch loops of `events/src/async.ts` and `events/src/index.ts`, which run handlers.
- Plain `get` and `getMany` of the cache service, which keep no state, and JSON validation of cached values.
- Values that JSON text cannot carry faithfully: NaN, infinities, sparse arrays and objects that contain themselves.
- Object identity in `compileCondition`: a condition is a finite tree, so its check for a condition inside itself never
  applies.
- Boundaries, credentials and attribute resolution of `evaluate`, its timeout and its list of matched paths.
- Safe-integer limits on times; session subjects, kinds, assurance and authentication times.
- Symbolic links, directory creation and a file in the way of a directory in generation: paths are flat.
- Service processes, health checks and restarts of the workspace; locale order of release packages, where any order of
  the same packages is allowed.
- Audit receipts, related events and decoding of stored rows.
- The limit and order of OAuth pruning: any expired records may go at any time.
- CacheRuns.FencedLoadsNeverOvertake: does not cover loads that start after the fence, as the source does not.
- ReleaseOrder.CheckDependencyOrder: models the order test only; that the listed version satisfies the dependency's semver
  range, and the registry lookup for packages that are not listed, are not part of this model.
- ReleaseOrder.SelectionPublishes: passes the order test of that check; semver ranges and the registry are not part of
  this model.
- EventHistory.NothingIsLost: says that a delivery can be claimed, not that somebody will claim it.
