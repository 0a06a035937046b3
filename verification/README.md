# Oh CRUD: a verified model of its concurrent and stateful core

Oh CRUD is an API server that turns YAML data models into REST end-points over PostgreSQL.
This project models, in Dafny, the parts of it whose correctness depends on many steps at once,
and proves what each promises, for every input and every run.

| module | what it models |
|---|---|
| `RefreshTokens` | rotation of refresh tokens (the scheme of section 10.4 of RFC 6749): concurrent redeem, claim, insert and revoke steps on the token table |
| `PasswordCell` | logins that verify a stored hash and then swap it, between admin resets |
| `Revocations` | the replicated list of revoked users, sessions and services, and the reload window |
| `Limits` | the request limiter and the record of used ids, against records never pruned |
| `DiffEngine` | sort and merge walk over two tables; the diff as a patch |
| `BulkInsert` | insertion by halving, against row by row insertion |
| `Subscriptions` | the two nested maps of who listens to what |
| `WorkerPool` | the task queue and its workers, one step per locked section |
| `QueryBuilder`, `ListPatch` | placeholder slots against plain conditions; add and remove patches of lists |
| `RowStatements` | the UPDATE and the DELETE of one supplied row, by the key found in it |
| `RenamePlan` | the planner of table renames, and its statements run on a catalog |
| `Routes` | end-point paths, their sub-routes, and the registry that keeps paths apart |
| `LogSink` | the bounded log queue, its batches and its drop counter |

## How it is modelled

- Code that changes state is a class whose methods follow the source's loops and branches, each
  proved equal to a specification function or relation; the runs are sequences of events over
  those functions, and the theorems quantify over every run.
- That a SQL statement is one atomic step on a table is an assumption. Row locks give it to an
  UPDATE of the rows it names; `INSERT ... WHERE NOT EXISTS` reads rows that it does not lock
  (globals/sql.go:276-278), and `RefreshTokens.RevokedForever` rests on its being atomic too.
  Between two statements of a request, any number of steps of other requests may happen.
- A section that holds a mutex is one step; what follows its release is another.
- Random values (token hashes, family ids, password hashes, task objects) are new when made.
- The order in which a Go map is ranged over is arbitrary: loops over a map's keys take them in
  any order, and results are stated so that the order does not matter.
- A clock is an argument. Where a property needs it, readings do not go backwards.
- Text that a library makes (normalised values, hashes, regular expression matching of whole
  segments) is an arbitrary function or a predicate on characters.

## What the proofs found

Some properties hold of the code only under a condition. The code is kept as it is; each of
these has a concrete run or an exact condition among the lemmas.

- Unsubscribing every action from one status drops each action that has the status, with all of
  its statuses, from the client's map, but only that status from the topic's map
  (`Subscriptions.AnyActionOneStatus`). Disconnecting a client takes that same branch through
  the literal action "any", so a client that subscribed to "any" always leaves entries behind
  in its topics (`DisconnectClears`). They stay until the topic is enabled again, as a reload of
  its model does (handlers/dataHandler.go:116), and no longer (`LeftoverStaysUntilEnabled`).
- Unsubscribing by the names a client subscribed with undoes its first subscription of a topic,
  unless the names are every action and a single status: that unsubscribe leaves entries behind
  (`Subscriptions.UndoneIff`).
- New revocations are announced after the list's mutex is released, so two of one key can be
  heard in the opposite order (`Revocations.HeardLateFirst`). Each is announced exactly once
  (`AnnouncedOnce`), and a key's times are heard in order exactly when no later news of the key
  is announced while an earlier one is pending (`HeardInOrderIff`).
- A call that falls between a worker's empty look and its release leaves its task in the list
  with every worker free (`WorkerPool.SplitSectionsStrand`); it waits for the next call
  (`StrandedUntilNextCall`). Were `queue` and `next` each one section this could not happen
  (`WholeSectionsNeverStrand`).
- The rename planner checks a table's new name against tables only, a history table's and a
  foreign key's not at all. The plan works exactly when each such name is free when its statement
  comes, which is told from the catalog before the migration and the names planned earlier
  (`RenamePlan.PlanWorksIff`; `TableNameNotCheckedAgainstIndexes` is a catalog where one is not).
  That holds while no two of the tables to be moved share an old or new name: two services'
  models with one bare name are both planned to take the one table, and no plan for a list that
  holds two such models works (`SharedBareNameNeverWorks`).
- Comparing two rows reports nothing when their comparators differ in value but not in
  normalised text, or have an empty text form; a patch then settles nothing for that pair
  (`DiffEngine.PatchSettlesRow` has the exact condition).
- An end-point is validated without the spaces around it but served with them. Routes stay
  unambiguous even so (`Routes.NoReservedSegment`).
- An UPDATE compares every condition for equality, whatever its operator, and leaves appended
  conditions out. It runs and touches exactly the rows asked for if and only if a field and a
  condition were set, nothing was appended or saved besides, and every condition is an equality
  with a single value (`QueryBuilder.UpdateMeansConditionsIff`, `UpdateIgnoresOperator`,
  `EmptyPartRunsNothing`; `DeleteMeansConditionsIff` for a DELETE).
- The store's updates and deletes ask for a row by its key, and a key field without a value drops
  out of the condition. The statement runs and touches exactly the rows with the key if and only
  if no key field lacks its value and, for an update, the row has another field
  (`RowStatements.UpdateTouchesKeyIff`, `DeleteTouchesKeyIff`). A null primary key leaves an empty
  WHERE (`NullKeyRunsNothing`), a row that is only its key an empty SET (`KeyOnlyRunsNothing`), and
  with a key of two fields one of which is null every row that has the other is updated or
  deleted (`HalfNullKeyTouchesMore`).
- A NULL test takes an argument that its clause never refers to, so a query with one, or with IS
  and any other word, does not run (`QueryBuilder.QueryRunsIff`). That the database driver
  refuses an argument nothing refers to is taken from querybuilder/queryManager.go:801-804.
- A revocation's five minute margin is more than the window needs: for user tokens a margin of
  whole seconds is enough exactly when it is at least the 50 second leeway
  (`Revocations.MarginCoversLeeway`).
- The flag test in the statement that replaces a temporary password never decides
  (`PasswordCell.FlagFollowsHash`). A login's new password is refused after any write of the row,
  even another login's rehash of the same password (`ChangeTakesEffectIff`).

## Model

| member | source | states |
|---|---|---|
| RefreshTokens.KeyStore.SaveRefreshToken | auth/keystore.go:324-334 | adds the token behind the others, which stay, exactly when no row of its family is revoked |
| RefreshTokens.KeyStore.UseRefreshToken | auth/keystore.go:344-353 | the claim wins only on an unused, unrevoked, unexpired token, and no later claim of that token wins; nothing else changes, and a lost claim changes nothing |
| RefreshTokens.KeyStore.RevokeRefreshFamily | auth/keystore.go:360-363 | no token of the family can be claimed afterwards, and none added if it has one; revoked tokens keep their first time, and no other family's rows change |
| RefreshTokens.KeyStore.RevokeUserRefreshTokens | auth/keystore.go:355-358 | the same for every family of the user, and no other user's rows change |
| RefreshTokens.Find | globals/sql.go:280-282 | a stored token with the presented hash, or none if there is none |
| RefreshTokens.RunKeeps | auth/service_auth.go:576-691 | the protocol's invariant is kept by every interleaving of logins, refreshes and revocations |
| RefreshTokens.AtMostOneLive | auth/service_auth.go:576-648 | in every run a family's live tokens and its claimed rotations that have not inserted are at most one together |
| RefreshTokens.FamilyIsOneSession | globals/sql.go:274-290 | a family's rows belong to one session, all but the newest are used, and all are revoked or none |
| RefreshTokens.RunAdvances | globals/sql.go:284-290 | no run removes a token row, un-uses it or un-revokes it |
| RefreshTokens.RevokedForever | globals/sql.go:274-278 | once a family is revoked no run gives it a live token, or another row at all |
| RefreshTokens.ReuseEndsSession | auth/service_auth.go:611-628 | after a lost claim has revoked the family, no later step of any request leaves it a live token |
| RefreshTokens.DisabledUserEndsSession | auth/service_auth.go:630-644 | the same once a refresh has found its user disabled or gone |
| RefreshTokens.UsedNeverRedeemedAgain | globals/sql.go:284-286 | a request that holds a used token as redeemed held it before it was used |
| RefreshTokens.OneSuccessor | auth/service_auth.go:541-574 | two issued tokens never come from one; the successor carries on the session of a used token |
| RefreshTokens.FederatedSessionCapped | auth/service_auth.go:491-497 | an external login's session is refreshed only within a day of the login |
| RefreshTokens.RotationSucceeds | auth/service_auth.go:576-648 | undisturbed, a good token is exchanged for one that is the session's only live token |
| RefreshTokens.ReplayEndsSession | auth/service_auth.go:605-628 | presenting a used, unexpired token ends the session for every later run |
| RefreshTokens.PresentIff | auth/service_auth.go:588-609 | a presented token goes on to the claim exactly when it is stored, was issued to this client, is not revoked and has not expired |
| RefreshTokens.ClaimWinsIff | auth/service_auth.go:611-619 | a claim wins exactly on an unused, unrevoked, unexpired token, and spends it; every other is taken for reuse |
| RefreshTokens.LostClaimEndsSession | auth/service_auth.go:619-628 | in every run, claiming a used, revoked or expired token leaves its family without a live token for good |
| RefreshTokens.SecondClaimEndsSession | auth/service_auth.go:611-628 | of two requests that hold one token, once either has claimed it the other's claim, whenever it comes, ends the session for good |
| RefreshTokens.UnusableUserEndsSessions | auth/service_auth.go:630-644 | a winner whose user is disabled or gone ends every session of the user for good |
| RefreshTokens.LoadedIsIssued | auth/service_auth.go:646-648 | a winner whose user is fine is about to issue a token of the same session, for two weeks or to the federated session's end |
| RefreshTokens.LoginIssues | auth/service_auth.go:465-472 | a new login ends with its own session's one live token, for two weeks, or a day if federated |
| RefreshTokens.InsertIff | globals/sql.go:274-278 | a token about to be issued is stored exactly when its family has no revoked one, and is then the family's one live token |
| RefreshTokens.EndSessionEnds | auth/service_auth.go:668-679 | a logout ends its session for good and no other |
| RefreshTokens.EndAllSessionsEnds | auth/service_auth.go:681-689 | a logout everywhere ends each of the user's sessions for good and changes nobody else's tokens |
| RefreshTokens.AbortEnds | auth/service_auth.go:612-617 | an aborted request touches no token and does nothing more |
| PasswordCell.Auth.CreateUser | auth/service_auth.go:280-303 | adds a user who was not there, with a flagged hash or with none for an empty password; no other row changes |
| PasswordCell.Auth.ResetUserPassword | globals/sql.go:193-196 | takes effect exactly for a user with a password, who must then choose a new one; no login that read an older hash can write any more, and no other user's row changes |
| PasswordCell.Auth.UpdatePassword | auth/service_auth.go:309-323 | the change applies exactly while the verified hash is stored (and flagged, if temporary); it clears the flag only for a login that read it set, and no other row changes |
| PasswordCell.Auth.UpdatePasswordHash | auth/service_auth.go:265-270 | a rehash writes only while the hash that was read is stored, and changes no flag and no other user |
| PasswordCell.RunKeeps | auth/service_auth.go:326-473 | snapshot and row stay in step in every interleaving of logins, creations and resets |
| PasswordCell.LastSetIsAccepted | auth/service_auth.go:265-323 | in every run a login is let in by exactly the password of the last effective creation, reset or change |
| PasswordCell.MustChooseIff | globals/sql.go:193-241 | the flag is set exactly when the last effective setting was a creation or a reset |
| PasswordCell.ChangeTakesEffectIff | auth/service_auth.go:408-441 | a login's new password takes effect exactly when it is acceptable and nobody wrote the row since the login read it |
| PasswordCell.RehashKeepsPassword | auth/service_auth.go:443-452 | a login without a new password changes no accepted password and no flag, and is refused if it had to choose one |
| PasswordCell.TemporaryUsedOnce | globals/sql.go:231-234 | once a login has replaced a temporary password no other login that read it ever finishes, whatever steps come between |
| PasswordCell.FlagFollowsHash | globals/sql.go:231-234 | a stored hash that matches a login's snapshot comes with the snapshot's flag |
| PasswordCell.ReadIff | auth/service_auth.go:352-385 | in every run a login is let through exactly with the password set last, and the password it keeps is the one typed |
| PasswordCell.CreatedIs | auth/service_auth.go:280-303 | a new user is let in with the chosen password alone and must replace it; with an empty one nobody is |
| PasswordCell.AdminResetIff | admin/user_changes.go:80-91 | a reset takes effect exactly for a password of at least twelve and a user who has one; then that password alone is let in and no login that read an earlier hash can write |
| PasswordCell.FinishIs | auth/service_auth.go:404-452 | a login that changes its password is refused for a missing, short or unchanged one, finishes if nobody wrote the row since it read it, and starts over otherwise; one that need not, finishes, and rehashes only over the hash it read |
| Revocations.BlockList.Apply | auth/blocklist.go:57-67 | recording and announcing in turn: a revocation is new exactly when no known one of its key is as late, and then the listeners hear it |
| Revocations.BlockList.Record | auth/blocklist.go:57-64 | under the mutex: one Recorded step of the runs; a revocation is new exactly when no known one of its key is as late, and then left to announce |
| Revocations.BlockList.Announce | auth/blocklist.go:65-86 | after its release: one Announced step of the runs |
| Revocations.BlockList.Receive | auth/blocklist.go:45-55 | a message joins the history exactly when it is a dated revocation of a known kind of key |
| Revocations.BlockList.Revoke | auth/blocklist.go:137-150 | a recorded revocation is applied here and sent to the peers; a failed insert does neither |
| Revocations.BlockList.Load | auth/blocklist.go:152-166 | loading adds the listed revocations to the history |
| Revocations.BlockList.Blocked | auth/blocklist.go:124-135 | says exactly whether some known revocation of one of the keys covers the issue time |
| Revocations.LatestIs | auth/blocklist.go:59-67 | the list holds each revoked key's latest time, and only revoked keys |
| Revocations.SameRevocationsSameList | auth/blocklist.go:45-67 | histories with the same revocations, in any order and with any repeats, give the same list |
| Revocations.StaysBlocked | auth/blocklist.go:124-135 | what is blocked stays blocked as more becomes known, and so does anything issued earlier |
| Revocations.NewsOnce | auth/blocklist.go:57-64 | no revocation is news twice |
| Revocations.AnnouncedOnce | auth/blocklist.go:57-86 | in every interleaving each new revocation is pending or heard, once, and no other is; with nothing pending each key's latest was heard |
| Revocations.HeardInOrderIff | auth/blocklist.go:57-86 | in a run with nothing left to announce each key's times are heard in increasing order exactly when no later news of it was announced while an earlier one was pending |
| Revocations.HeardLateFirst | auth/blocklist.go:64-65 | a run in which the later of two revocations is heard first |
| Revocations.RefusedIffCovered | auth/blocklist.go:88-111 | a dated token is refused exactly when a known revocation covers it as RevocationCovers judges |
| Revocations.UserRefusedIff | auth/blocklist.go:86-111 | a dated user token is refused exactly when its user, or its session if it has one, was revoked in a second no earlier than its own |
| Revocations.ServiceRefusedIff | auth/blocklist.go:86-111 | a service token exactly when its subject was, and a token of another use never |
| Revocations.KeysApart | auth/blocklist.go:17-19 | a user, a session and a service never share a key, whatever their names |
| Revocations.PeersAccept | auth/blocklist.go:45-55 | peers accept every dated revocation of a user token's keys, and of a service named svc: |
| Revocations.IssuedBeforeIsCovered | auth/blocklist.go:101-104 | a token issued at t is covered exactly when t is no later than the revocation's second, so always if issued before it |
| Revocations.LeftOutIsExpired | auth/keystore.go:195-238 | a revocation outside the window covers only tokens past expiry and leeway |
| Revocations.WindowIsEnough | auth/blocklist.go:121-166 | an instance that loads only the window refuses the same live tokens as one with the whole history |
| Revocations.MarginCoversLeeway | globals/globals.go:221-227 | for user tokens a whole-second margin makes the window enough exactly when it is at least the leeway |
| Limits.Limiter.Allow | auth/limiter.go:27-56 | decides as the rule over every request ever accepted, and records the request exactly when it passes |
| Limits.Limiter.Sweep | auth/limiter.go:58-70 | changes no record that later decisions depend on |
| Limits.Limiter.LiveTimes | auth/limiter.go:41-44 | drops exactly the leading times that are not after the cutoff |
| Limits.TrimmedCount | auth/limiter.go:41-50 | what the trim leaves is the number of live requests of the whole record |
| Limits.AcceptedSpread | auth/limiter.go:27-56 | any maxReq + 1 accepted requests in a row span at least the window |
| Limits.NoWindowOverfull | auth/limiter.go:27-56 | no half-open window of the limiter's length holds more than maxReq accepted requests |
| Limits.PassesIff | auth/limiter.go:41-50 | a request passes exactly when fewer than maxReq accepted ones are younger than the window |
| Limits.ReplayMemory.Remember | auth/service_auth.go:188-205 | accepts an id exactly when the record that forgets nothing would |
| Limits.ReplayMemory.DropOld | auth/service_auth.go:197-200 | forgets exactly the ids whose time is over |
| Limits.NeverTakenTwice | auth/service_auth.go:188-205 | no id is accepted twice before the time recorded with it |
| Limits.TakenIff | auth/service_auth.go:188-205 | an id is accepted exactly when every earlier accepted use of it has run out |
| DiffEngine.SortMapSlice | tools/structs.go:368-378 | leaves the same rows, in comparator order, those without one last |
| DiffEngine.SortedIs | tools/structs.go:368-378 | sorted rows come by their key's text, those without the key last |
| DiffEngine.LessIff | tools/structs.go:368-378 | texts compare in dictionary order |
| DiffEngine.DiffMap | tools/structs.go:283-334 | of two rows with one comparator that has a text, nothing is reported exactly when their texts agree on every field compared, whether or not both have it; else both sides' values of the comparator and of just the fields that differ |
| DiffEngine.ComparableIff | tools/structs.go:289-297 | rows are compared exactly when both have the comparator, with one value whose text is not empty; nil has a text |
| DiffEngine.MissingIsEmpty | tools/structs.go:336-339 | a field that is missing and one that is nil read as an empty text |
| DiffEngine.MergeWalk | tools/structs.go:401-450 | the walk's three lists are those of the recursive merge of the sorted sides |
| DiffEngine.DiffMapSlices | tools/structs.go:383-451 | sorts both sides in place and diffs them, or gives nothing when a side is empty |
| DiffEngine.UnmatchedAreDifferences | tools/structs.go:401-450 | the unmatched keys are the two multiset differences, repeats included |
| DiffEngine.EveryRowOnce | tools/structs.go:401-450 | every row of either side ends in exactly one of matched or unmatched |
| DiffEngine.MatchedShareKey | tools/structs.go:418-428 | rows are matched only across sides and only on equal comparator text |
| DiffEngine.KeylessStayUnmatched | tools/structs.go:406-416 | rows without a comparator stay in their own side's list, as often as they occur |
| DiffEngine.KeyBagPermuted | tools/structs.go:368-378 | the keys of a side do not depend on the order the sort left equal rows in |
| DiffEngine.PatchSettlesRow | tools/structs.go:283-334 | a patched row diffs to nothing, and agrees on every compared field exactly if it did before or the comparator is raw-equal with a text |
| DiffEngine.PatchedKeys | tools/structs.go:383-451 | the patched table has exactly the supplied table's keys |
| DiffEngine.DiffThenApplySettles | tools/structs.go:383-451 | diff, apply, diff again: all three lists are empty |
| DiffEngine.DiffThenApplyAgreesIff | tools/structs.go:383-451 | after diff and apply each supplied row agrees with the patched row of its key on every compared field, if and only if each did before or carries the same comparator, with a text |
| BulkInsert.Database.RecursiveBatchInsert | store/database.go:214-284 | the table, the success count, the accepted rows and the failed rows in input order are those of row by row insertion; the history gains the accepted batches whose own history statement worked, in order, and each failed one is counted |
| BulkInsert.RecordedWhole | store/database.go:245-254 | if no history statement failed the history gained exactly the accepted rows |
| BulkInsert.BatchStoredIffNoRowFails | store/database.go:228-246 | a multi-row statement succeeds exactly when no row fails on its own, and leaves the same table |
| BulkInsert.RowByRowAppend | store/database.go:262-283 | inserting two halves in turn is inserting the whole |
| BulkInsert.RowByRowPartitions | store/database.go:262-283 | each row is inserted or failed, exactly once |
| BulkInsert.StatementBound | store/database.go:214-284 | f failed rows of n cost at most 1 + 2 f ceil(log2 n) statements |
| BulkInsert.StatementsAtMost | store/database.go:214-284 | never more than 2n - 1 statements, and exactly that many when every row fails |
| BulkInsert.CeilLog2IsLeast | store/database.go:214-284 | the bound's logarithm is the least k with 2^k at least n |
| Subscriptions.EventManager.RegisterUnsafe | events/eventsManager.go:382-437 | a valid subscription adds exactly the entries it covers, to both maps; an invalid one changes nothing |
| Subscriptions.SubscribedListens | events/eventsManager.go:382-437 | spelled out for each action and status, what a valid subscription listens to and that an invalid one changes nothing |
| Subscriptions.EventManager.UnregisterUnsafe | events/eventsManager.go:446-553 | removes exactly the stated entries from each map, which differ for every action and one status |
| Subscriptions.EventManager.UnregisterAction | events/eventsManager.go:492-553 | removes one action's entries, of one status or all, and trims what is empty |
| Subscriptions.EventManager.LeaveTopicEverywhere | events/eventsManager.go:468-473 | removes a client's entries of a topic from the topic map, and no others |
| Subscriptions.EventManager.DropActionsWithStatus | events/eventsManager.go:479-491 | drops whole actions from the client's map but one status from the topic's |
| Subscriptions.EventManager.UnhandleClient | events/eventsManager.go:557-578 | forgets the client; a topic it did not hold with "any" loses all its entries, and one it did loses all those of the actions met before "any" and one of each other action, the first of its own statuses that the loop over "any" names |
| Subscriptions.EventManager.EnableTopicUnsafe | events/eventsManager.go:221-248 | empties the topic's slots and touches no other topic |
| Subscriptions.InsideAlways | events/eventsManager.go:206-578 | what a client's map holds its topics hold, in every run that enables topics only while no client holds them |
| Subscriptions.AgreeAlways | events/eventsManager.go:206-553 | the maps hold the same entries over every such run of subscribes and of unsubscribes that name an action or cover every status |
| Subscriptions.OthersUntouched | events/eventsManager.go:206-578 | no step of other clients, nor enabling another topic, changes a client's entries of a topic in either map |
| Subscriptions.AnyActionOneStatus | events/eventsManager.go:479-491 | unsubscribing every action from one status keeps the maps equal exactly when no action that had it had another |
| Subscriptions.UndoneIff | events/eventsManager.go:382-553 | unsubscribing by the same names undoes a client's first subscription of a topic exactly unless it names every action but one status |
| Subscriptions.DisconnectClears | events/eventsManager.go:557-578 | a disconnect keeps the maps equal exactly when the client held action "any" in no topic |
| Subscriptions.LeftoverStaysUntilEnabled | events/eventsManager.go:206-248 | an entry that outlives its client stays in a run exactly if the run does not enable its topic |
| Subscriptions.ReenableKeepsInside | events/eventsManager.go:221-248 | enabling a topic again keeps clients inside their topics exactly when no client holds it |
| WorkerPool.FirstFree | queue/queueManager.go:393-399 | the first unlocked worker, or none only if all are locked |
| WorkerPool.QueueManager.GetFreeWorker | queue/queueManager.go:388-402 | reserves the first free worker and counts it, or changes nothing when there is none |
| WorkerPool.QueueManager.AssignWorker | queue/queueManager.go:405-413 | a reserved worker passes the guard with the task; the locked count, other workers and other tasks' states stay |
| WorkerPool.QueueManager.LookForTask | queue/queueManager.go:131-149 | splits the first task off the list, and gives none exactly when the list is empty |
| WorkerPool.QueueManager.FreeWorker | queue/queueManager.go:348-358 | freeing a locked worker keeps the counter equal to the locked workers, and the next caller finds it or an earlier one |
| WorkerPool.QueueManager.AppendTask | queue/queueManager.go:374-378 | the task goes behind every listed one, and is taken next only if none was listed |
| WorkerPool.RunKeeps | queue/queueManager.go:278-413 | the pool's invariant is kept by every interleaving of locked sections |
| WorkerPool.ActiveIsLocked | queue/queueManager.go:348-402 | the counter is the number of locked workers, at most all, and exactly those are in use |
| WorkerPool.CallFindsAFreeWorker | queue/queueManager.go:362-402 | a call lists its task exactly when no worker is free |
| WorkerPool.EveryTaskOnce | queue/queueManager.go:348-413 | an accepted task is in exactly one of: about to be listed, listed, with one worker, finished |
| WorkerPool.RunsAtMostOnce | queue/queueManager.go:278-290 | no task is started twice, and only accepted tasks are |
| WorkerPool.FirstListedFirstTaken | queue/queueManager.go:131-149 | listed tasks are taken in the order they were listed |
| WorkerPool.CallStarts | queue/queueManager.go:362-402 | in every run a task called for while a worker is free runs on the first such worker |
| WorkerPool.CallWaits | queue/queueManager.go:362-381 | with every worker at work it is listed behind the others |
| WorkerPool.NextTakes | queue/queueManager.go:131-149 | in every run a worker whose task has ended goes on to run the first listed task, which leaves the list |
| WorkerPool.NextFrees | queue/queueManager.go:348-358 | with nothing listed the worker is unlocked and no longer counted |
| WorkerPool.FinishLooks | queue/queueManager.go:278-290 | a task that ends is marked ended and leaves its worker looking for the next |
| WorkerPool.OneWorkerDrains | queue/queueManager.go:348-358 | four steps of one looking worker for each listed task run them all, in order, and leave it looking at an empty list |
| WorkerPool.GuardNeverRejects | queue/queueManager.go:278-290 | the guard passes every assigned worker, so none stays locked for good |
| WorkerPool.StrandedBy | queue/queueManager.go:348-381 | a step strands a task exactly when it frees the last worker after an empty look, or lists a task when all are free |
| WorkerPool.SplitSectionsStrand | queue/queueManager.go:348-381 | a run that ends with a listed task and every worker free |
| WorkerPool.StrandedUntilNextCall | queue/queueManager.go:348-402 | until the next call a stranded pool stays stranded: every worker is free, no task is taken or run, callers that found none free only lengthen the list, and with no such caller nothing changes |
| WorkerPool.BusyWhileListed | queue/queueManager.go:348-358 | a worker that has not seen the list empty is not freed while a task listed meanwhile is still there |
| WorkerPool.WholeSectionsNeverStrand | queue/queueManager.go:348-381 | if queue and next each kept the mutex, tasks would wait only while every worker is at work |
| QueryBuilder.Builder.SetValue | querybuilder/queryManager.go:106-115 | the plain field to value map gains the value; conditions stay |
| QueryBuilder.Builder.SaveArbitraryValue | querybuilder/queryManager.go:117-128 | a value takes the next number, no value takes none |
| QueryBuilder.Builder.InnerSetWhere | querybuilder/queryManager.go:130-148 | the plain field to condition map gains the operator and value; no value changes nothing |
| QueryBuilder.Builder.SetWhereAbsolute | querybuilder/queryManager.go:163-182 | the same with equality |
| QueryBuilder.Builder.AppendWhere | querybuilder/queryManager.go:150-157 | the appended conditions gain one more |
| QueryBuilder.SlotsApart | querybuilder/queryManager.go:106-182 | no placeholder serves two fields, or a value and a condition, or an appended clause too |
| QueryBuilder.Builder.BuildWhereClause | querybuilder/queryManager.go:611-642 | emits exactly each field's clause and the appended ones, and no WHERE when there is neither |
| QueryBuilder.WhereMeansConditions | querybuilder/queryManager.go:611-642 | read against the arguments, the clauses hold of exactly the rows that meet every condition and every appended one |
| QueryBuilder.QueryRunsIff | querybuilder/queryManager.go:611-642 | a query runs exactly when no condition is a NULL test or IS with another word, and nothing but conditions was given to the builder; its clause means what was asked |
| QueryBuilder.ReferredIff | querybuilder/queryManager.go:618-640 | the clause refers to an argument exactly when it is an appended condition's, or of a field's condition that is no NULL test |
| QueryBuilder.Builder.BuildUpdate | querybuilder/queryManager.go:829-860 | exactly one assignment for each set field, which gives the column what was asked for, patches included; conditions become equalities; every argument is referred to exactly when none was appended or saved besides; built once |
| QueryBuilder.Builder.BuildDelete | querybuilder/queryManager.go:878-895 | a soft delete is the UPDATE of the deleted flag; any other has an equality for each condition and refers to every argument exactly when only conditions were set |
| QueryBuilder.UpdateMeansConditionsIff | querybuilder/queryManager.go:829-860 | an UPDATE runs and touches exactly the rows asked for, whatever the database answers, if and only if a field and a condition were set, nothing was appended or saved besides, and every condition is an equality with a single value |
| QueryBuilder.DeleteMeansConditionsIff | querybuilder/queryManager.go:878-895 | a DELETE does if and only if a condition was set and nothing else, each an equality with a single value |
| QueryBuilder.UpdateIgnoresOperator | querybuilder/queryManager.go:837-839 | a builder whose UPDATE runs on a row that was not asked for |
| QueryBuilder.EmptyPartRunsNothing | querybuilder/queryManager.go:858 | an UPDATE with no condition, or that sets no field, does not run |
| RowStatements.FindRowKeyFields | datamodel/config.go:169-188 | the primary key if the row has it, else the first unique key whose fields all are there, or none if there is none |
| RowStatements.UpdateRow | store/database.go:349-365 | builds the UPDATE that sets what is not of the key on the condition of the part of the key that has a value |
| RowStatements.DeleteRow | store/database.go:463-494 | builds the DELETE, or the UPDATE of the deleted flag, on that condition |
| RowStatements.UpdateTouchesKeyIff | store/database.go:355-365 | the UPDATE runs and touches exactly the rows with the key if and only if the row has a field besides its key and no key field lacks its value |
| RowStatements.DeleteTouchesKeyIff | store/database.go:463-494 | the DELETE, soft or not, does if and only if no key field lacks its value |
| RowStatements.NullKeyRunsNothing | querybuilder/queryManager.go:163-166 | a key without any value, such as a null primary key: neither statement runs |
| RowStatements.KeyOnlyRunsNothing | querybuilder/queryManager.go:858 | a row that is only its key: the UPDATE does not run |
| RowStatements.HalfNullKeyTouchesMore | querybuilder/queryManager.go:163-166 | a key of two fields one of which is null: either statement runs on every row that has the other one |
| ListPatch.Unique | tools/slices.go:178-191 | the elements in the order each is first seen |
| ListPatch.FirstSeenIs | tools/slices.go:178-191 | the same elements, none twice |
| ListPatch.FirstSeenInOrder | tools/slices.go:178-191 | each element where it first occurs, in the order of the list |
| ListPatch.ParseStringListPatch | datamodel/config.go:346-376 | accepts exactly the objects of add and remove lists that hold something and share nothing, and says which fault an object has |
| ListPatch.ParsedIsAcceptable | datamodel/config.go:346-376 | an accepted patch repeats nothing and shares nothing |
| ListPatch.AppliedSet | querybuilder/queryManager.go:866-873 | as a set the result is the current values and the added less the removed |
| ListPatch.AppliedOrder | querybuilder/queryManager.go:866-873 | surviving values keep their order and come before the new ones |
| ListPatch.AppliedToNull | querybuilder/queryManager.go:866-873 | a NULL column becomes the added values |
| ListPatch.WithoutInOrder | querybuilder/queryManager.go:866-873 | removing values leaves just the others, in their order |
| ListPatch.AppliedTwice | querybuilder/queryManager.go:866-873 | applying a patch again changes nothing |
| ListPatch.AppliedNoRepeats | querybuilder/queryManager.go:866-873 | an accepted patch puts no value in twice |
| ListPatch.OrderMattersIff | querybuilder/queryManager.go:866-873 | two patches give one set in either order exactly when neither adds what the other removes |
| RenamePlan.PlanQualifiedRenames | schematools/qualify_migration.go:38-138 | the loops compute the plan that the statements below are about |
| RenamePlan.ObjectsFollow | schematools/qualify_migration.go:75-107 | each index and sequence of a moved table is renamed to the YAML's name for it or to its own behind the table's new name, unless that is taken by a relation or an earlier statement, when a skip says so; no other is |
| RenamePlan.KeysFollow | schematools/qualify_migration.go:92-98 | each foreign key of a moved history table named after the bare table is renamed after the qualified one, and no other foreign key is |
| RenamePlan.StatementsFindTheirSource | schematools/qualify_migration.go:50-138 | run in order every statement finds what it renames or updates and works exactly if its unchecked names are free; no index or sequence is renamed onto a relation's name |
| RenamePlan.PlanWorksIff | schematools/qualify_migration.go:55-109 | the plan works exactly when no table's new name is, by the original catalog and the names planned earlier, an index's or sequence's, no history table's an original table's, and no foreign key's one its table has |
| RenamePlan.NamesAfter | schematools/qualify_migration.go:55-109 | after any part of the plan that works, a relation has a name exactly if one had it and it was not renamed, or it was given; likewise the foreign keys of a moved table |
| RenamePlan.SharedBareNameNeverWorks | schematools/qualify_migration.go:48-64 | no plan works for a list that holds two models to be moved from one bare table, as the second rename finds it gone |
| RenamePlan.TableNameNotCheckedAgainstIndexes | schematools/qualify_migration.go:60-63 | a catalog on which the plan cannot work |
| RenamePlan.TablesAfter | schematools/qualify_migration.go:55-109 | afterwards the moved tables have their new names instead of their old ones, and no other table has come or gone |
| RenamePlan.EachTableEndsUp | schematools/qualify_migration.go:55-109 | a model whose bare table was there has its qualified one afterwards, the bare one is left only where both were there, and a tracked history moves along |
| RenamePlan.RenamedAre | schematools/qualify_migration.go:59-108 | the plan lists exactly the models whose bare table was there alone |
| RenamePlan.BothExistAre | schematools/qualify_migration.go:54-58 | the models skipped because both tables are there are exactly those where both are |
| RenamePlan.ReplanRenamesNothing | schematools/qualify_migration.go:36-138 | planning again on the result plans nothing |
| RenamePlan.TargetKeepsName | schematools/qualify_migration.go:79-99 | an index or sequence keeps its own name behind the service prefix or its table's new name |
| RenamePlan.YamlNamesAre | schematools/qualify_migration.go:65-68 | a YAML name is looked up by itself without the service prefix |
| RenamePlan.RowsFollowTables | schematools/qualify_migration.go:114-136 | in each of the two system tables that is there, rows that name a renamed table name it by its new name, and no other row changes |
| Routes.ModelRegistry.Register | registry/registry.go:87-105 | a model is registered exactly when no other table has its path, so no two tables ever share one |
| Routes.ModelRegistry.ByPath | registry/registry.go:118-130 | finds the one model served at a path, whatever the map order |
| Routes.ModelRegistry.OtherByPath | registry/registry.go:132-143 | finds another table's model at the path exactly when there is one |
| Routes.NoReservedSegment | datamodel/config.go:722-736 | no segment of a validated end-point is a sub-route's, spaces around it included |
| Routes.OneSegmentFitsIff | datamodel/config.go:666-666 | one segment fits exactly when it is letters, digits, '_' and '-' begun by a letter or digit |
| Routes.JoinedFitsIff | datamodel/config.go:666-666 | two parts with a slash between fit exactly when each does |
| Routes.ValidIff | datamodel/config.go:668-671 | such an end-point is valid exactly when none of its segments is a sub-route's |
| Routes.BlanksIgnored | datamodel/config.go:722-736 | spaces and line ends around it do not count |
| Routes.ServiceFitsIff | datamodel/config.go:673-691 | a service's name of the right letters and length is valid exactly unless the server uses it |
| Routes.UrlDecodes | handlers/dataHandler.go:53-117 | a model's path is recovered from any of its URLs as the segments before the first reserved one |
| Routes.UrlsAre | handlers/dataHandler.go:53-117 | the URLs of a model's routes |
| Routes.OneModelPerUrl | handlers/dataHandler.go:53-117 | equal URLs are the same path and the same sub-route |
| Routes.OneTablePerUrl | registry/registry.go:87-130 | with the registry's paths apart a URL is a route of at most one table |
| Routes.ReservedSegmentsNeeded | datamodel/config.go:668-671 | without the segment check two models of one service could share a URL |
| Routes.JoinSegments | models/dataModel.go:198-204 | splitting a path at its slashes and joining it again gives it back |
| LogSink.Sink.Enqueue | logging/sink.go:48-54 | a row is accepted exactly when the queue has room, and counted when it has not |
| LogSink.Sink.Flush | logging/sink.go:64-73 | the batch and the note of drops are handed over and the counter cleared, or nothing if both are empty |
| LogSink.Sink.TakeRow | logging/sink.go:75-79 | the first queued row joins the batch, which is handed over with the note of drops exactly when that fills it |
| LogSink.Sink.Drain | logging/sink.go:82-91 | at the end the database was handed exactly the accepted rows in order, and told of every refused one |
| LogSink.FlushAccounts | logging/sink.go:64-73 | a flush keeps written, batched and queued rows equal to the accepted ones, and reported plus counted drops equal to the refused |
| LogSink.TakeAccounts | logging/sink.go:75-79 | so does receiving a row |

## Left out

- HTTP, CORS, OpenAPI output and the management pages: plumbing with no deep state.
- Cryptography, JWT encoding, password hashing, TOTP and regular expressions: library calls, modelled by what they promise.
- PostgreSQL's and Atlas's internals: statements are atomic table steps, a failed statement is an aborted request, and schema diffing is not modelled.
- Cluster transport: the revocation list takes any delivery, in any order and with any repeats; that every message arrives is not modelled.
- Calls to listeners, websockets and webhooks: only what the listeners are told is recorded.
- DiffEngine.SortMapSlice: insertion sort stands in for the library's sort; every result about a diff holds of any sorted order of the rows.
- DiffEngine.DiffMap: equality of comparator values is equality in the model; in Go a NaN differs from itself, times are compared with their zones, and an uncomparable type panics.
- WorkerPool.QueueManager.AssignWorker: queueing a missing task, which the source's callers never do, is not modelled; it would leave a reserved worker locked.
- WorkerPool.QueueManager.LookForTask: the copy that frees a long list's memory is not modelled, as it changes no task.
- QueryBuilder.Builder.BuildUpdate: the text of the query and the sorting of the returned columns are not modelled, only its assignments and conditions.
- QueryBuilder.Builder.InnerSetWhere: how URL text is split into operator and value by field type is not modelled.
- ListPatch.AppliedOrder: lists hold no NULL elements.
- `BuildMultiInsert`'s column order: the source ranges over the field map again for each row.
- RenamePlan.ObjectsFollow: no unique key or index in a model's YAML has an empty name.
- RenamePlan.PlanWorksIff: of the tables that would move, none shares an old or new name with another, comes to a name that is some model's bare one, or is a system table the updates are made to; models whose bare table is not there may share names.
- RenamePlan.PlanQualifiedRenames: the lists the planner is given hold the relations of its own catalog query; views and sequences outside it are not seen by either.
- Routes.NoReservedSegment: matching of patterns by the HTTP library is modelled as equality of whole paths, a wildcard being one segment.
- LogSink.Sink.Drain: rows enqueued while the writer drains are other steps; the method states the end of a drain with none in between.
- Other model validation, type coercion, YAML loading and file watching: easy members only.
