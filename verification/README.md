# rho-kit: models and proofs

A Dafny model of the parts of rho-kit that keep promises over many steps, and proofs of
those promises. `dafny verify dfyconfig.toml` checks all of it.

**Browser sessions (`auth/oauth2`).** Request handlers, possibly on several replicas, share
one session store. They sign in, refresh tokens, record activity, sign out and delete by
subject or provider session. `Sessions` holds the pure decisions. `SessionProtocol` is a step
system in which every store, lock and clock access of every handler is one step; a list of
events is a run, and a theorem about runs is a theorem about every interleaving, every answer
of the provider and every store fault. `SessionInvariant` says what each step keeps;
`SessionRuns`, `SessionDeletion`, `RefreshExclusion`, `OutageGrace` and `SessionMerge` draw
the consequences, `SessionIdentity` traces what named a stored provider session.
`SessionProgress` shows that a handler left alone gets its work done, `RefreshOutcomes` what a
refresh hands on from every point at which it reads, is answered or fails, `SharedRefresh` that
who joins a refresh gets what its leader gets, and `ActiveSessions` that a user who comes back
in time stays signed in. `SessionRaces` gives the runs in which an expectation fails. `MemorySessionStore` and
`MemoryStateStore` are the in-process stores as classes. `PlainStore` is the map with expiry
times the first one implements; `SessionStoreRuns` follows any sequence of operations on it,
and `SessionStoreLink` ties the map to the store of the protocol. `PendingCookies` are the
cookies that bind a sign-in to its browser, `LoginFlow` any number of browsers, logins and
callbacks over the state store, `SignInCompletion` the sign-in that comes back in time, `LogoutReplay` the replay cache and the logout tokens it guards,
`TokenSource` the client-credentials cache.

**Bounded zstd decoding (`codec/zstd`).** `ZstdFrame` walks frames, `ZstdDecoder` holds the
bound, the checks and the protocol of slots and locks between `Decode` and `Close`.

**The vulnerability gate (`cmd/kit-vulngate`).** `VulnBaseline` judges and records findings,
`ReleaseHistory` runs the gate release after release, `ReleaseReruns` runs it again.

**Configuration (`core/config`).** `TypeGraph`, `EnvTags` and `ConfigLoad` are the two walks
over possibly recursive config types; `Watchable` is the notification protocol.

## Assumptions

- Times are integers and 0 is Go's zero time; the clock never goes back and replicas share
  it. Versions are natural numbers. One step reads the clock once.
- Session ids and login states are fresh. A failed store operation had no effect.
- The session store implements `SessionUpdater` and, where `locker` is set, `RefreshLocker`
  by the contract in `auth/oauth2/types.go`; an exchange ends before its context deadline.
- Hashes, token verification and what the provider answers are inputs. A browser has only the
  cookies that a login set, may lose any of them at any time, and a login reads and sets them in
  one step.
- In the protocol sessions are values. Between `Update` and the copies for the waiters
  (auth/oauth2/refresh.go:135 and 276-282) the refreshed session shares its buffers with the
  in-process store; that no removal or replacement zeroes them in that moment is assumed.
- The zstd library writes no more than the capacity it is given, and a frame header ends
  where it says. The header of section 3.1.1.1 of RFC 8878 is proved to be such a header.
- A config type is a finite graph; whether a value parses for a field's type is an input.
- The gate reads the file that the last recorded run wrote; days are UTC days and no year is
  beyond 9999.

## Where code and documentation differ

- A logout token issued exactly one skew ahead can be accepted twice even without delays: the
  memory of six minutes runs out at the last instant the token is young enough
  (`LogoutReplay.ReplayableIff`).
- `onlyActivityChanged` compares subject and refresh token. With a provider that does not
  rotate refresh tokens a concurrent refresh passes for recorded activity, and the merge can
  put an older identity back (`SessionRaces.OldIdentityReturns`, with the exact condition in
  `SessionMerge.MergeIsRefreshIff`).
- `refreshFailed` looks whether another replica has refreshed the session, and then deletes
  without comparing versions. A refresh that is stored in between is deleted with it, with a
  refresh lock too when the wait for it runs out (`SessionRaces.RenewedIsDeleted`,
  `SessionRaces.RenewedIsDeletedUnderLock`, with the exact condition in
  `OutageGrace.DeletedIsDueIff`).
- The size bound is a product in 64 bits. It can wrap, which never lets more through but can
  refuse data both limits allow (`ZstdDecoder.BoundIsExactIff`, `ZstdDecoder.OverflowRefuses`).
- A rerun of a gate on what it just recorded can fail where the first run passed. A due date is
  recorded as a day and read back as its first instant (`ReleaseReruns.RerunCanFail`). And a
  finding that was inherited under one of its names is judged by a new entry that another
  finding recorded under its first name (`ReleaseReruns.RerunCanLoseInheritance`). The exact
  condition is `ReleaseReruns.FailsAgain`, in `ReleaseReruns.RerunIff`.
- Deletion by provider session spares a session whose `sid` a refresh changed after the lookup
  (`SessionRaces.RenamedSurvives`, with the exact condition in `SessionDeletion.SurvivesIff` and
  `SessionDeletion.SurvivesIffRenamed`);
  deletion by subject spares none (`SessionDeletion.DeletionIsComplete`).

## Model

| member | source | states |
|---|---|---|
| `SessionRuns.NoResurrection` | auth/oauth2/refresh.go:268-301 | in every interleaving a session id that was readable and then was not, by deletion or expiry, is never readable again |
| `SessionRuns.ExecKeepsDead` | auth/oauth2/memory_stores.go:238-267 | no continuation of a run brings back an id that was stored once and cannot be read |
| `SessionRuns.EachWriteLinks` | auth/oauth2/refresh.go:174-204 | an event leaves a readable session alone or puts the next version in its place: recorded activity and nothing else, or exactly a response, obtained by redeeming the refresh token the replaced version held, applied to a stored version that held it too |
| `SessionRuns.OneWriterPerVersion` | auth/oauth2/refresh.go:275-299 | along a run a version has one value, versions and recorded activity never go back, and user, creation time and attributes never change |
| `SessionRuns.IdentityIsOwn` | auth/oauth2/refresh.go:181-187 | in every run a response whose ID token names a user was only ever stored in a session of that user |
| `SessionRuns.HistoryWasStored` | auth/oauth2/types.go:94-106 | the version history used in the theorems is real: each of its entries was in the store after some prefix of the run |
| `SessionRuns.ServedWithinLimits` | auth/oauth2/client.go:675-710 | a request gets only what was stored, and only if the session it read first, before it could record any activity of its own, was within the absolute lifetime and the idle timeout when the request started |
| `SessionRuns.RequestRead` | auth/oauth2/client.go:697-710 | whatever a request checks or has checked is the session it read at its first step, as stored then |
| `SessionRuns.SignInLasts` | auth/oauth2/client.go:548-570 | a completed sign-in can be read until its TTL has passed, over any events that neither update nor remove it |
| `SessionRuns.LogoutIsFinal` | auth/oauth2/client.go:599-618 | a logout that comes and whose delete does not fail leaves the session never to be read again, whatever follows |
| `SessionRuns.SignInStores` | auth/oauth2/client.go:543-570 | a sign-in stores, under its new id and nowhere else, the user, the tokens, expiry, ID token and claims it was given, signed in and active at that time, for as long as the limits allow |
| `SessionRuns.FaultySignInIsReported` | auth/oauth2/client.go:570-580 | a sign-in that the store fails is reported as failed, and its id can never be read, whatever follows |
| `SessionRuns.FaultyLogoutIsReported` | auth/oauth2/client.go:599-618 | a logout whose delete fails is reported as failed, and the session stays as it is |
| `SessionRuns.HeldIsServed` | auth/oauth2/refresh.go:121-136 | a request that has its session is served that session, with at most its own activity added, within two steps of its own, whatever faults, races and deletions come in between |
| `SessionRuns.ExpiryWithinCaps` | auth/oauth2/lifetime.go:157-166 | the stored expiry exceeds a lifetime limit by at most the delay between computing the TTL and writing it |
| `SessionRuns.MergeIsBounded` | auth/oauth2/refresh.go:277-299 | the merge loop makes at most three updates, and one that can succeed writes tokens bought with the refresh token of the session it replaces |
| `SessionRuns.AttemptsAreBounded` | auth/oauth2/refresh.go:277-299 | in every run a request tries at most three times to store refreshed tokens, however often it loses its race |
| `SessionRuns.ExecKeepsInv` | auth/oauth2/refresh.go:121-204 | every run keeps the protocol invariant, and histories only grow |
| `SessionInvariant.NextKeepsInv` | auth/oauth2/refresh.go:139-348 | one event of any handler keeps the protocol invariant: chains are linked, what a handler holds was stored, pending writes continue the chain |
| `SessionInvariant.FlightStep` | auth/oauth2/refresh.go:139-204 | a step of a refresh keeps what the refresh relies on, and whatever it writes links to the stored version |
| `SessionInvariant.CasKeepsFlight` | auth/oauth2/refresh.go:279-287 | a successful compare-and-set of refreshed tokens writes the successor of the stored version |
| `SessionInvariant.MergeKeepsFlight` | auth/oauth2/refresh.go:288-299 | after a lost race the next attempt is again a valid successor, of the version just read |
| `SessionInvariant.RebaseKeepsJob` | auth/oauth2/refresh.go:293-298 | re-applying refreshed tokens keeps the recorded activity of both sides and the tokens of the response |
| `SessionInvariant.ActivityCas` | auth/oauth2/lifetime.go:195-205 | an activity write that succeeds changes the last activity and the version and nothing else |
| `SessionInvariant.CheckVets` | auth/oauth2/client.go:697-710 | a session that passes the lifetime check was within both limits when the request started |
| `SessionInvariant.TtlIsLongest` | auth/oauth2/lifetime.go:157-166 | the TTL computed at a time is the longest one that the session TTL, the absolute lifetime and the idle timeout allow: any TTL is within all three if and only if it is no longer |
| `SessionInvariant.LimitsAreExact` | auth/oauth2/lifetime.go:132-166 | a session is refused at a time if and only if the absolute lifetime has passed since the sign-in, or the idle timeout since the last recorded activity or else the sign-in, or that time is missing; and a signed-in session can be stored if and only if it is not refused |
| `SessionMerge.MergeIsRefreshIff` | auth/oauth2/refresh.go:293-319 | the merge writes what refreshing the stored session would write if and only if the identity the response leaves alone is the same in both sessions |
| `SessionMerge.MergeOverActivity` | auth/oauth2/refresh.go:260-267 | over a stretch of the version chain that only recorded activity, the merge is a refresh of the stored session |
| `SessionDeletion.DeletionIsComplete` | auth/oauth2/backchannel.go:95-144 | after an error-free deletion by subject, whatever ran in between, every session of the subject that was live at the lookup is dead and stays dead, and no session of another subject was deleted; by provider session the same, except one that this deletion read, at the version of the lookup or a later one, and that did not match |
| `SessionDeletion.SurvivesIff` | auth/oauth2/backchannel.go:117-144 | where nobody else ends it, a session found by the lookup survives if and only if it does not match in any step of the run in which the deletion reads it |
| `SessionDeletion.FaultIsReported` | auth/oauth2/backchannel.go:123-139 | a deletion that the store fails deletes nothing in that step and never reports to have run to its end |
| `SessionDeletion.EmptyTargetFails` | auth/oauth2/backchannel.go:95-99 | a deletion by an empty subject or provider session fails at its first step and deletes nothing |
| `SessionDeletion.SurvivesIffRenamed` | auth/oauth2/backchannel.go:264-273 | where nobody else ends it, a session that matched its provider session at the lookup survives if and only if, whenever the deletion reads it, the stored version goes back to a response or a version that names another one |
| `SessionDeletion.RenamedIffLastNames` | auth/oauth2/refresh.go:188-199 | where no response was applied over another one since the lookup, that is if and only if the last response to name a provider session since then named another one |
| `SessionIdentity.SidIsNamed` | auth/oauth2/refresh.go:174-199 | every stored version has the provider session named by what it goes back to: over activity to the version before, over a response that names none to the version it was applied to |
| `SessionIdentity.RefreshedParts` | auth/oauth2/refresh.go:174-199 | what a refresh makes of each part of a session: tokens, and the refresh token where there is a new one; of an ID token its text and claims, its provider session where it names one, and when and how the user signed in where it says when; nothing else |
| `SessionIdentity.SidSince` | auth/oauth2/refresh.go:188-199 | where no response was applied over another one, the provider session is the last one a response named, or else the one there was |
| `SessionDeletion.StepKeepsWork` | auth/oauth2/backchannel.go:117-144 | each step of the deletion loop keeps: every listed session is still to be visited, dead, or was read in a version that does not match |
| `SessionDeletion.SubjectIsForever` | auth/oauth2/refresh.go:184-186 | all versions of a session have the same subject |
| `RefreshExclusion.ExchangesNeverOverlap` | auth/oauth2/refresh.go:121-171 | in every run two token exchanges for one session that go on at the same time are the same exchange: across replicas with a refresh lock, within one process also without |
| `RefreshExclusion.FlightKeepsLock` | auth/oauth2/refresh.go:214-248 | until a refresh's deadline nobody else holds the lock it took, because the deadline was set before the lock was tried and both last equally long |
| `RefreshExclusion.LeaseEnds` | auth/oauth2/refresh.go:214-217 | in every run, 30 seconds after any moment a refresh lock is free unless somebody has taken it since: a replica that dies with it keeps others waiting no longer |
| `OutageGrace.OutageSparesSessions` | auth/oauth2/refresh.go:332-348 | in a run in which the provider refuses nothing, a failed refresh deletes only when the access token it set out to renew expired at least a grace period ago |
| `OutageGrace.DeletedIsDueIff` | auth/oauth2/refresh.go:333-344 | in every run, the session a failed refresh is about to delete needs a refresh if and only if no refresh was stored after the version it last read, or the last one brought tokens that are due themselves |
| `SessionRaces.RenewedIsDeleted` | auth/oauth2/refresh.go:335-344 | without a refresh lock, for every session past its grace and every renewal: one replica fails, the other one stores the renewal, and the first one deletes it, with nothing refused |
| `SessionRaces.RenewedIsDeletedUnderLock` | auth/oauth2/refresh.go:214-248 | with a refresh lock, for every session past its grace and every renewal: the wait of one replica runs out while the other one, which holds the lock, is at the token endpoint; that one stores the renewal and the first one deletes it |
| `SessionRaces.RenamedSurvives` | auth/oauth2/backchannel.go:123-133 | for every session and every refresh that changes its provider session: the deletion finds the session, the refresh is stored, and the deletion ends with the session alive |
| `SessionRaces.OldIdentityReturns` | auth/oauth2/refresh.go:277-319 | without a refresh lock and without rotation, for every session: one replica stores a new identity and the other one, taking it for recorded activity, puts the old one back |
| `SessionRaces.RacesExist` | auth/oauth2/refresh.go:268-348 | the three runs without a lock, from a store with one session, in numbers and with options a client accepts |
| `SessionRaces.LockedRaceExists` | auth/oauth2/refresh.go:214-248 | the run with a lock, in numbers and with options a client accepts |
| `SessionProgress.RequestIsServed` | auth/oauth2/client.go:675-710 | a request for a stored session within its limits that is left alone ends served: with that session, refreshed exactly where refreshing is on, there is a refresh token and the expiry is within the leeway, and with its activity recorded exactly where it is not a background request and a minute has passed; what it wrote is stored for as long as the limits allow, and a refresh lock is given back |
| `SessionProgress.RefreshSucceeds` | auth/oauth2/refresh.go:139-204 | a refresh that is left alone, with or without a lock, stores exactly the response applied to the stored session and hands it on |
| `SessionProgress.MergeSucceeds` | auth/oauth2/refresh.go:277-299 | a refresh that lost its race to recorded activity stores the refresh of the session that is there now |
| `SessionProgress.FailureOutcome` | auth/oauth2/refresh.go:332-359 | a refusal ends the session at once; an outage ends it exactly when the grace period is over, and until then the session is served as it is |
| `SessionProgress.LimitEndsSession` | auth/oauth2/lifetime.go:141-175 | a request for a session past a limit that is left alone ends with nothing and has deleted it |
| `SessionProgress.DeletionFinishes` | auth/oauth2/backchannel.go:117-144 | a deletion that is left alone, with an index that lists what it has to, runs to its end |
| `SessionProgress.FaultFreeRunsEnd` | auth/oauth2/client.go:675-710 | whatever the run of a handler alone ends in, every fault-free run of it after which it is done ends in |
| `SharedRefresh.JoinersFollow` | auth/oauth2/refresh.go:121-136 | in every run, who has joined a refresh joined one of its own process and session, waits as long as that is under way, and then goes on to exactly where the leader went when its refresh was over: with its session, or with nothing |
| `SharedRefresh.LeavesOnce` | auth/oauth2/refresh.go:125-129 | a request leads at most one refresh, so there is one thing to hand on |
| `SharedRefresh.JoinerIsServed` | auth/oauth2/refresh.go:121-136 | a request that joins a refresh is served the session that refresh stored, with its own activity |
| `RefreshOutcomes.FreshIsHandedOn` | auth/oauth2/refresh.go:139-171 | wherever a refresh reads the session, first, while it waits for the lock, with the lock, after a lost race or after a failure: if its tokens are not due any more, exactly that session is handed on and nothing is written |
| `RefreshOutcomes.LossMeansNewer` | auth/oauth2/refresh.go:283-292 | in every run, what a refresh can still read after it lost its race is newer than what it wanted to replace, which is what handing it on asks for there |
| `RefreshOutcomes.GoneIsNotServed` | auth/oauth2/refresh.go:140-152 | a refresh that finds its session gone hands on nothing and writes nothing |
| `RefreshOutcomes.LostRaceIsNotServed` | auth/oauth2/refresh.go:283-299 | a refresh that lost its race for the third time, or to a session of another user or with another refresh token that is due itself, hands on nothing and writes nothing |
| `RefreshOutcomes.FailureLeaves` | auth/oauth2/refresh.go:332-348 | a failed refresh that finds its session due or gone hands on the session it set out with while the grace period lasts and nothing was refused; otherwise it deletes the session and hands on nothing; a lock it holds is given back |
| `RefreshOutcomes.RequestOfFailedRefresh` | auth/oauth2/refresh.go:332-359 | a request whose refresh is refused gets nothing and the session is gone; one whose provider cannot be reached is served the session as it is, with its activity, exactly while the grace period lasts |
| `RefreshOutcomes.FaultIsNotServed` | auth/oauth2/refresh.go:140-143 | a store that fails at the first read, the write, the read after a lost race or a delete ends the refresh with nothing, and the session stays as it is |
| `RefreshOutcomes.LockFaultIsOutage` | auth/oauth2/refresh.go:151-154 | a store that fails while the lock is taken or waited for counts as an outage, not as a refusal, and a lock that was taken is given back |
| `RefreshOutcomes.TimeoutIsOutage` | auth/oauth2/refresh.go:244-246 | so does a wait for the lock that takes too long, and a deadline that passes before the exchange |
| `RefreshOutcomes.LimitEndsRefresh` | auth/oauth2/refresh.go:269-275 | tokens that arrive for a session past a limit are not stored: the session is deleted |
| `RefreshOutcomes.FaultyRequestGetsNothing` | auth/oauth2/client.go:697-710 | a store that fails when a request reads its session, or deletes one past a limit, costs the request its session and changes nothing |
| `ActiveSessions.RegularVisitsStaySignedIn` | auth/oauth2/lifetime.go:181-206 | a user who signs in and then comes back any number of times, each time within the idle timeout and the session TTL less a minute of the time before, is served a session of theirs at every visit until the absolute lifetime ends, through any number of token refreshes |
| `ActiveSessions.OneVisit` | auth/oauth2/lifetime.go:157-206 | one such visit leaves the session stored until its first limit, with activity not older than a minute |
| `PlainStore.SweepingIsUnobservable` | auth/oauth2/memory_stores.go:125-188 | removing expired entries, any of them at any time, changes no answer to any later operation |
| `PlainStore.StepAgrees` | auth/oauth2/memory_stores.go:270-281 | stores that differ only in expired entries answer alike and go on differing only in those |
| `SessionStoreLink.EffectIsStoreStep` | auth/oauth2/types.go:84-106 | the writes of the protocol are the operations of the plain map, with the same answer to a compare-and-set |
| `SessionStoreLink.ReadsAreStoreSteps` | auth/oauth2/types.go:122-134 | the reads and the index lookups of the protocol are those of the plain map |
| `SessionStoreLink.RunIsStoreRun` | auth/oauth2/types.go:84-106 | the store over a run of the protocol is the plain map over the operations of the handlers, in the order of their times |
| `MemorySessionStore.AddKeepsIndex` | auth/oauth2/memory_stores.go:78-88 | adding keeps an index exact: the stored ids under their non-empty keys, no empty bucket |
| `MemorySessionStore.RemoveKeepsIndex` | auth/oauth2/memory_stores.go:90-99 | removing keeps an index exact |
| `MemorySessionStore.Store.SetLocked` | auth/oauth2/memory_stores.go:57-64 | stores one record, leaves the others, and keeps both indexes and the ownership of buffers |
| `MemorySessionStore.Store.RemoveLocked` | auth/oauth2/memory_stores.go:67-76 | takes one session out of map and indexes, zeroes all its buffers and no other's |
| `MemorySessionStore.Store.Put` | auth/oauth2/memory_stores.go:130-150 | is a sweep of some expired entries and then a put on the plain map; swept and replaced buffers are zeroed unless the new session keeps them, and no buffer that is then stored has changed |
| `MemorySessionStore.Store.Get` | auth/oauth2/memory_stores.go:159-174 | answers as the plain map does, with a copy in new buffers, and leaves the stored records alone; an entry found expired is removed later, if it still is expired then, and its buffers are zeroed |
| `MemorySessionStore.Store.DeleteExpired` | auth/oauth2/memory_stores.go:177-188 | the second look makes lazy deletion a sweep: an entry renewed meanwhile stays, one that is removed has its buffers zeroed |
| `MemorySessionStore.Store.Delete` | auth/oauth2/memory_stores.go:238-245 | removes the session from map and plain map, zeroes its buffers and changes no buffer that is still stored |
| `MemorySessionStore.Store.Update` | auth/oauth2/memory_stores.go:248-267 | is the compare-and-set of the plain map; refused, it changes nothing; done, the record is stored, the replaced buffers it does not keep are zeroed, and no buffer that is then stored has changed |
| `MemorySessionStore.Store.LiveIds` | auth/oauth2/memory_stores.go:103-123 | lists exactly the unexpired sessions under the key |
| `MemorySessionStore.Store.SweepExpiredLocked` | auth/oauth2/memory_stores.go:270-281 | removes only expired sessions, and all of them when the budget covers the store, zeroes their buffers and leaves every other buffer as it is |
| `MemorySessionStore.ZeroReplaced` | auth/oauth2/memory_stores.go:135-147 | zeroes every buffer the new session does not hold, and none that it holds in its place |
| `MemorySessionStore.CloneSession` | auth/oauth2/memory_stores.go:193-222 | the copy stands for the same session, shares no buffer, and has no empty refresh or ID token |
| `MemorySessionStore.ZeroSecrets` | auth/oauth2/memory_stores.go:224-234 | leaves no text in any buffer of the session |
| `SessionStoreRuns.Perform` | auth/oauth2/memory_stores.go:103-267 | one operation of any kind answers as the plain map that never sweeps, returns a snapshot in new buffers the store does not hold, and leaves every buffer it held before held or empty |
| `SessionStoreRuns.Operate` | auth/oauth2/memory_stores.go:103-267 | over any sequence of operations the answers are those of a plain map that never sweeps, every snapshot ever returned still stands for the session it stood for, and every buffer the store ever held is still held or empty |
| `MemoryStateStore.Store.Put` | auth/oauth2/memory_stores.go:344-358 | never exceeds the cap, and reports full only when that many unexpired sign-ins are stored, and then always for a new state |
| `MemoryStateStore.Store.Take` | auth/oauth2/memory_stores.go:382-394 | returns an unexpired entry and removes the entry whatever the answer |
| `MemoryStateStore.Store.SweepExpiredStateLocked` | auth/oauth2/memory_stores.go:417-428 | removes expired entries only, and all of them when the budget covers the store |
| `LoginFlow.StateIsSingleUse` | auth/oauth2/client.go:452-504 | over all interleaved logins and callbacks of any number of browsers each issued state leads to at most one code exchange, checked within stateTTL of the login, for a browser that itself started a sign-in with the binding of that state |
| `LoginFlow.ExchangeIsForItsBrowser` | auth/oauth2/pending.go:39-89 | where no two states have the same binding, every code is exchanged for the browser that started its sign-in: the run has a login of that browser with that state |
| `SignInCompletion.SignInCompletes` | auth/oauth2/pending.go:79-122 | a browser that starts a sign-in, starts at most four others after it and keeps its cookie, and comes back with a code within stateTTL of the login gets that code exchanged, whatever other browsers and sign-ins do, as long as nobody else presents the state and no other state has its cookie name there |
| `PendingCookies.StartPending` | auth/oauth2/pending.go:98-122 | of five or more pending sign-ins of a browser all but four are dropped, none of them started after one that is kept, and the new one is added |
| `PendingCookies.ValueReads` | auth/oauth2/pending.go:46-51 | the time and the binding are read from a pending cookie as they were written into it |
| `LoginFlow.CallbackEnds` | auth/oauth2/client.go:452-504 | a callback that is left alone exchanges exactly its code, once, if and only if its browser presents the binding, the state is stored and young enough, the provider reports no error and there is a code; whoever presents a state uses it up, and a browser that presented the binding does not have it any more |
| `LoginFlow.NextKeepsInv` | auth/oauth2/client.go:653-666 | every event keeps: whoever has taken a state is the only one, and a state used or taken is not stored any more |
| `LogoutReplay.MemoryReplayCache.Remember` | auth/oauth2/memory_replay.go:37-59 | grants a key unless it is remembered and its time has not run out, never exceeds the cap, and is full only with that many unexpired keys |
| `LogoutReplay.DeliveredIff` | auth/oauth2/backchannel.go:174-248 | a delivery is accepted if and only if it has a key, was verified at most five minutes after its token was issued and at most one before, is not remembered and finds room; it is then remembered for six minutes, and no key that is still remembered is forgotten |
| `LogoutReplay.AcceptedOnce` | auth/oauth2/backchannel.go:174-182 | verified and recorded at one instant, and issued less than a skew ahead at the first delivery, a token is accepted at most once in any run |
| `LogoutReplay.ReplayNeedsDelay` | auth/oauth2/backchannel.go:232-248 | a second acceptance needs a delay between verification and lookup of at least the first one's delay plus its margin to the skew |
| `LogoutReplay.ReplayableIff` | auth/oauth2/backchannel.go:238-248 | such a delay is not only necessary: a second acceptance is possible if and only if the delay is that long |
| `LogoutReplay.SeenUntilExpiry` | auth/oauth2/memory_replay.go:44-46 | whatever is delivered in between, a remembered key is refused until its time has run out |
| `TokenSource.SingleFlight` | auth/oauth2/client_credentials.go:66-115 | for any number of callers at most one token call is in flight, `refreshing` is set exactly while its leader is between the critical sections, every channel waited for is closed or that leader's, and a cached token is handed out only with more than the skew left |
| `TokenSource.LeaderWakesWaiters` | auth/oauth2/client_credentials.go:81-108 | when the leader leaves its second critical section every waiter's channel is closed and the waiter goes round again |
| `TokenSource.TokenIsShared` | auth/oauth2/client_credentials.go:73-113 | after a leader obtained a token, over any events while it has more than the skew left, nobody calls the token endpoint, and every caller that was not through by then gets that token from the cache |
| `TokenSource.LeaderGetsAnswer` | auth/oauth2/client_credentials.go:95-113 | whatever happens between the call and its end, the leader gets what the token endpoint answered: the token, which then is the cached one, or a failure, which leaves the cache as it is |
| `TokenSource.WaiterGivesUp` | auth/oauth2/client_credentials.go:83-88 | a caller whose context ends while it waits fails, and nothing else changes |
| `TokenSource.NobodyIsStuck` | auth/oauth2/client_credentials.go:81-111 | in every run a caller that waits or tries can take a step unless somebody else is calling for it, and without a usable token and a caller in flight it becomes the leader |
| `TokenSource.NextKeepsInv` | auth/oauth2/client_credentials.go:73-108 | every step keeps the invariant of leader, channel and waiters |
| `ZstdFrame.FrameLength` | codec/zstd/frame.go:13-44 | the loop ends on every input and computes the length that the lemmas below are about |
| `ZstdFrame.FrameThenAnything` | codec/zstd/frame.go:20-43 | for every header, block list and optional checksum, followed by any bytes, the length is exactly the frame's |
| `ZstdFrame.LengthDelimitsOneFrame` | codec/zstd/frame.go:11-44 | a returned length lies within the input and cuts off exactly one frame, the only one the input starts with |
| `ZstdFrame.WalkIsEncoding` | codec/zstd/frame.go:24-35 | whatever blocks the walk accepts, the bytes are their encoding |
| `ZstdFrame.StandardHeaderIsSelfDelimiting` | codec/zstd/frame.go:14-19 | the frame header of the format ends where it says, whatever follows |
| `ZstdDecoder.DecodeWithinLimits` | codec/zstd/decoder.go:85-119 | output exceeds neither MaxSize nor input length times MaxRatio, even when the product wraps; it is what the library made of the input, and there is output exactly when the input is allowed, the library succeeds and a single frame has the size it declares |
| `ZstdDecoder.AllowedIff` | codec/zstd/decoder.go:133-152 | input is allowed exactly when its header is readable, a declared size is within the bound, an undeclared one may be missing, and without MultiFrame it is the encoding of one frame and nothing else |
| `ZstdDecoder.RefusedFor` | codec/zstd/decoder.go:133-152 | what input is refused for, exactly: an unreadable header; a declared size over the bound or a missing one that is required; without MultiFrame a skippable frame or bytes behind the first frame; or no whole frame |
| `ZstdDecoder.BoundIsExactIff` | codec/zstd/decoder.go:95-95 | the bound is the documented minimum if and only if the product does not wrap or wraps to no less than MaxSize |
| `ZstdDecoder.RefusedByOverflowIff` | codec/zstd/decoder.go:85-119 | input that the documented limits allow, with or without declared size and frame by frame or not, is decoded to its content, unless the product wraps to less than the content or the declared size; then it is refused |
| `ZstdDecoder.OverflowRefuses` | codec/zstd/decoder.go:85-97 | a frame of twelve bytes that both limits allow and the library decodes is refused |
| `ZstdDecoder.OneFrameIff` | codec/zstd/decoder.go:144-150 | the frame length is the whole input exactly when the input is the encoding of one frame |
| `ZstdDecoder.RunsWithinLimits` | codec/zstd/decoder.go:85-131 | in every run at most Concurrency decodes hold a slot, together they reserve at most Concurrency times MaxSize, and the library decoder is in use neither after nor during Close |
| `ZstdDecoder.DecodeReturns` | codec/zstd/decoder.go:85-119 | a decode that is left alone gets to the library with exactly its capacity and returns with the slot given back; after a Close, or of input that is not allowed, it returns without the library |
| `ZstdDecoder.CloseCloses` | codec/zstd/decoder.go:121-131 | a Close that nobody is in the way of closes and releases the library decoder; a second one changes nothing |
| `ZstdDecoder.NothingAfterClose` | codec/zstd/decoder.go:121-131 | once closed, no run of decodes and closes ever uses the library again |
| `ZstdDecoder.NextKeepsInv` | codec/zstd/decoder.go:86-131 | every step keeps: one writer and no reader beside it, slots within Concurrency, the library closed once |
| `VulnBaseline.ReadBaseline` | cmd/kit-vulngate/baseline.go:49-74 | refuses a file exactly when its release is empty or an entry is incomplete or has no readable date, and otherwise gives the last entry of each key |
| `VulnBaseline.Lookup` | cmd/kit-vulngate/baseline.go:78-88 | finds the entry under the first of id and aliases that has one |
| `VulnBaseline.FoundIsOwn` | cmd/kit-vulngate/baseline.go:76-88 | a found entry is of the finding's component and package and under one of its ids; one under its own id wins |
| `VulnBaseline.Record` | cmd/kit-vulngate/baseline.go:95-119 | the loop records the entries that the next lemma characterises |
| `VulnBaseline.RecordedExactly` | cmd/kit-vulngate/baseline.go:98-119 | recorded are exactly the entries of the first third-party finding of each key, each key once |
| `VulnBaseline.LateIff` | cmd/kit-vulngate/judge.go:60-121 | any finding is late if and only if it is fixed, each acceptance of its id and package is over or for another image, and: taken over with its component, it is exploited and that deadline has come or its fix is undated; or else the kept date or the date counted from the fix has come, or there is neither. The time counted is that of an exploited finding whatever its severity, else of its severity, of "unknown" where that is not listed. It is tracked if and only if it is fixed, uncovered, taken over and not late |
| `ReleaseHistory.GateIff` | cmd/kit-vulngate/main.go:60-139 | a run exits 2 if and only if its flags or its baseline are refused, for one of the reasons listed there, else 1 if and only if one of its findings is late by that condition; the file changes if and only if the run is to record and passes or is a report |
| `ReleaseHistory.RecordKeeps` | cmd/kit-vulngate/baseline.go:90-113 | an entry recorded again keeps state, first day and due date, only a missing due date can be added; any other is new |
| `ReleaseHistory.InheritedAfter` | cmd/kit-vulngate/baseline.go:98-119 | exactly the inherited entries that a third-party finding still resolves to stay inherited |
| `ReleaseHistory.RecordThenRead` | cmd/kit-vulngate/baseline.go:49-74 | reading back gives exactly the recorded entries |
| `ReleaseHistory.RecordedReadsIff` | cmd/kit-vulngate/baseline.go:60-63 | what was recorded is refused when read if and only if a finding the baseline did not have lacks its package or id |
| `ReleaseHistory.InheritedOnlyShrinks` | cmd/kit-vulngate/main.go:99-122 | over any history without -initial the set of inherited keys only shrinks |
| `ReleaseHistory.NothingBeforeInitial` | cmd/kit-vulngate/main.go:111-122 | without a baseline nothing is ever recorded before a run with -initial |
| `ReleaseHistory.InheritedWasDeclared` | cmd/kit-vulngate/main.go:111-122 | whatever becomes inherited was found by a -report -record -initial run without a baseline |
| `ReleaseHistory.EntryIsKept` | cmd/kit-vulngate/baseline.go:90-94 | while an entry stays in the file, over any history, its state, first day and recorded due date stay |
| `ReleaseHistory.DueDateBinds` | cmd/kit-vulngate/judge.go:71-79 | from a recorded due date on, every later gate with a fixed, unaccepted finding that resolves to the entry fails and, unless it is a report, records nothing |
| `ReleaseReruns.FoundAgain` | cmd/kit-vulngate/baseline.go:78-119 | a rerun looks a finding up in the entry that the first finding recorded under the first of its ids that any finding recorded |
| `ReleaseReruns.RerunLateIff` | cmd/kit-vulngate/judge.go:60-121 | a finding among those recorded is late in a rerun exactly when it is fixed, not accepted and, by that entry, inherited, exploited and past its deadline, or new and without a date, past the first instant of the recorded day, or past its own date |
| `ReleaseReruns.RerunIff` | cmd/kit-vulngate/main.go:99-139 | a gate that passed and recorded, run again on what it recorded, exits 1 if and only if one of its findings meets that condition, and 2 if and only if it recorded a finding without package or id |
| `ReleaseReruns.RerunCanFail` | cmd/kit-vulngate/main.go:99-139 | a gate run that exits 0 and records exits 1 when it is run again, at that time and with those arguments, on the file it recorded: the due date falls on that day |
| `ReleaseReruns.RerunCanLoseInheritance` | cmd/kit-vulngate/baseline.go:76-119 | the same with a finding that was inherited under its alias, once another finding is recorded as new under its id |
| `ReleaseHistory.AdoptedDebtPasses` | cmd/kit-vulngate/judge.go:82-102 | what a first report recorded and nobody exploits passes the next gate on the same third-party findings, at any time and by any policy, and stays inherited |
| `EnvTags.HasEnvTags` | core/config/load.go:97-99 | ends on every graph, cycles included, and is true if and only if a tagged exported field can be reached |
| `EnvTags.Walk.HasEnvTagsVisited` | core/config/load.go:101-129 | found means reachable; not found means that all newly visited types have no tag and lead to visited types only |
| `ConfigLoad.Load` | core/config/load.go:43-82 | succeeds if and only if a tag is below the type, no type below holds itself and no field below fails; then every tagged field, however deep, holds the content of the file its secret names, or else its variable, or else its default, and is untouched without any, and every pointer is allocated exactly when a variable below it came from the environment; a failure names a cycle or a field that fails for that reason |
| `ConfigLoad.LoadTagged` | core/config/load.go:184-239 | a tagged field fails only for a reason that there is: a malformed tag, an unreadable file, a required variable that is set to nothing, or not set and without a default, or text that cannot be parsed; and loads only without any |
| `ConfigLoad.ResolveWithSource` | core/config/load.go:286-309 | the file that a secret names, if one is named, decides; else the variable, also when it is set to nothing |
| `ConfigLoad.Loader.LoadWithEnvTracking` | core/config/load.go:139-241 | success means no type on the stack can be reached again; failure means a cycle or a failing field below; the stack is restored either way |
| `ConfigLoad.Loader.LoadFields` | core/config/load.go:146-240 | the loop over the fields gives every field its value and reports a read exactly when something below the type came from the environment |
| `ConfigLoad.Loader.LoadField` | core/config/load.go:147-239 | one field: skipped, loaded recursively, allocated only when something below it was set, refused when required and nothing was, or set from its variable |
| `ConfigLoad.FieldsMakeType` | core/config/load.go:144-240 | fields that each load and reach nothing on the stack make a type without cycles |
| `ConfigLoad.LoadedIsComplete` | core/config/load.go:178-220 | in a config that loads, however deep, every required variable has text and every required struct is there |
| `ConfigLoad.RightIsUnique` | core/config/load.go:139-241 | type and environment leave only one value a load can return |
| `ConfigLoad.OnlyNamedVariablesCount` | core/config/load.go:286-309 | a load depends on nothing but the variables its tags name and the files that the secret ones name: in environments that agree on those it fails in both or returns the same |
| `Watchable.NotificationsFollowStores` | core/config/watchable.go:85-117 | for all interleavings of Set, OnChange and cancel each subscriber sees a contiguous stretch of the stored values, each old value being the new value before, and one that stays has seen all of it when no Set is under way |
| `Watchable.ValuesWereSet` | core/config/watchable.go:85-99 | the stored values are the first one and then, in order, exactly those that were set |
| `Watchable.SubscriberHearsAll` | core/config/watchable.go:134-151 | whoever subscribes, at whatever moment of whatever run, and does not cancel, has been called for every value since then, once each and in order, with the value before it, whenever no Set is under way |
| `Watchable.SetCompletes` | core/config/watchable.go:85-117 | a Set that is left alone stores its value, tells every subscriber of the old and the new value exactly once, tells nobody else, and is then over |
| `Watchable.CancelIsFinal` | core/config/watchable.go:119-151 | a subscription that is cancelled while no Set is calling subscribers is never called again |
| `Watchable.NextKeepsInv` | core/config/watchable.go:85-151 | every step keeps: each subscriber has seen everything since it subscribed, except the store it is about to be told of |

## Left out

- The concurrent objects (session protocol, login flow, token source, watchable, decoder) are step systems on values; mutexes, channels, goroutines and the read-write lock are the atomicity of their steps.
- Secret buffers are objects with text, not byte arrays; `Zero` leaves the empty text.
- Redis stores, the circuit breaker and the Get-then-Put path for stores without `SessionUpdater`, which is documented as racy.
- State stores without `Take`, whose Get-then-Delete is documented as not atomic.
- HTTP, the other cookies, redirects, the error page and the revocation hook: rendering and bookkeeping with no deep invariant. A pending cookie whose time is out of range of 64 bits.
- The checks of a logout token other than its times, and of an ID token at sign-in: each is one comparison on verified claims.
- go-oidc, x/oauth2, hashing, random values, JSON, and the zstd library itself.
- The panics of `Set` and `OnChange` on a zero value, and the recovery of a panicking subscriber.
- Report reading, component matching, severity spelling, the printed lines and the sort order of the recorded file; findings are taken in the order in which they are recorded.
- Parsing of tags and of typed values, size and permissions of secret files, and zeroing of their bytes.
- MemorySessionStore.Store.Put: does not model a record that shares a buffer with another session, in another place, or with its own expired predecessor; the callers never pass one.
- MemorySessionStore.Store.Update: does not model a record that shares a buffer with another session or in another place; the callers never pass one.
