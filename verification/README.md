# Verified models of the CipherStash stack

A Dafny model of the parts of the repository whose correctness depends on every run or
every input, with proofs. Verify it with `dafny verify dfyconfig.toml`. Nothing here
runs the original program.

**Token refresh** (`packages/stack-auth`). `RefreshState` is what one engine keeps under its
lock, as values and as a class updated in place. `RefreshProtocol` is the concurrent engine
as a step system: any number of `get_token` calls and refresh tasks, the lock, the
in-progress flag, the notify list, cancellation and teardown. Each label is one lock hold,
one atomic access or one finished await, and carries the clock readings it takes, so the
clock may stand still or run backwards. Above it stand safety (`RefreshSafety`), wake-ups
and progress (`RefreshLiveness`), the refusal rate limit (`RefusalLimit`) and what each
call is told (`RefreshAnswers`).
`DeviceSession` puts any number of such engines in processes that share one profile file.
`JwtCaches` and `Federation` put one engine behind each user JWT over one shared store, and
`FederationAnswers` says what its callers get.
`AuthErrors` is the wire form of errors, which waiting callers and remembered refusals pass
through.

**Order-revealing terms** (`OreTerms`). The constant-time comparison of terms, against the
order of the plaintext bits.

**WebAssembly imports** (`WasmImports`). The import reader of `scripts/check-wasm-imports.py`,
against an encoder of modules and, in `WasmGrammar`, against the grammar of the bytes it
accepts (sections 5.2.2, 5.5.2 and 5.5.5 of the WebAssembly Core Specification).

**stashgen** (`TagText`, `IndexGrammar`, `TagGrammar`, `TagSpelling`, `ModelBinding`,
`ModelConversion`). The tag grammar, with a spelling of every tag that it reads back, the binding of a model's fields to a declaration's outputs, and the two
conversions generated for a model.

**Records** (`Records`, `RecordRoundTrip`). Sealing and opening rows, over any engine whose
decryption inverts its encryption.

Where the code and its documentation differ, the model follows the code. The flow diagram at
`packages/stack-auth/src/lib.rs:309-316` says that a preemptive refresh returns the current
token and that a failed blocking refresh returns `TokenExpired`; in
`packages/stack-auth/src/auto_refresh.rs:523-529` the initiating call gets the new token, and
at lines 602-605 it gets the real error.

Some promises hold only under a condition. Each is proved with that condition and shown to
fail without it:

- Waiters are woken, and every call finishes, in runs of clean teardowns: a refresh task is
  torn down only after its first poll and, where another refresh can start, not while a caller
  that saw the flag still holds the lock and has yet to join the notify list. After any such
  run, one more teardown can strand a caller exactly when it is not clean
  (`TeardownStrandsIffUnclean`).
- The 60-second limit on asking again after a refusal holds while no woken caller has since
  answered untimely: with no usable token, by a clock reading older than a refusal that is
  still fresh. Such an answer forgets the refusal (`AnswerKeepsTheLimit`). The next call then
  asks at once exactly when nothing is cached, or the flag is down and there is a credential
  (`UntimelyAnswerLiftsTheLimit`), and an ordinary concurrent run does so
  (`WokenCallerLiftsTheLimit`). Sequential histories always meet the limit, and so do new
  engines of the federation strategy (`NewEnginesWaitTheirTurn`).
- An accepted exchange is the first replay of a refresh token exactly when it offers a value
  that is not the latest, and it offers the value in the file unless it could not read that
  (`FirstReplayIsExact`). So nothing is replayed while rotations are saved and the file is
  read; a rotation lost before it is saved and a failed read each lead to a replay
  (`LostRotationIsReplayed`, `FailedReadIsReplayed`).
- Byte order agrees with term order except where the pseudo-random byte is 255
  (`ByteOrderAgreesUnlessWrapped`).
- An index prints as it was written unless an option was written `key=` (`PrintsAsWritten`).
- A row is taken when it has the plan's names and nothing else, except that a plan without a
  context field also takes, and drops, a value under the empty name (`RowsBesideTheNames`,
  `EmptyNameIsTaken`).
- Sealed rows open again unless a row's context label is the empty string, which sealing
  takes and opening refuses (`SealedRowsOpen`).

## Model

| member | source | states |
|---|---|---|
| `AuthErrors.RebuiltIsExact` | packages/stack-auth/src/error.rs:707-882 | An error rebuilt from its code, message and payload is the same error exactly for the reconstructible ones; rebuilding twice changes nothing more; the text is lost only for a blank account refusal; any other code comes back as CUSTOM |
| `AuthErrors.ReplayedKeepsTheText` | packages/stack-auth/src/auto_refresh.rs:105-135 | Replaying through a remembered refusal keeps the text and whether it is an account refusal, is idempotent, and is exact just when rebuilding is and no payload is needed |
| `AuthErrors.WordingIsOfTheCode` | packages/stack-auth/src/error.rs:707-768 | A fixed wording is the one of the error's own code and quotes what the error wraps |
| `AuthErrors.TrimsBothEnds` | packages/stack-auth/src/error.rs:858-864 | Trimming takes off exactly the white space at both ends, and leaves nothing exactly of blank text |
| `AuthErrors.ClassifiedByCode` | packages/stack-auth/src/error.rs:896-925 | Only a 402 is classified: a blank body is a usage limit, and a body that is no JSON object is left alone |
| `AuthErrors.ClassifiedByBody` | packages/stack-auth/src/error.rs:927-970 | A body without `cs_code` is a usage limit, one whose `cs_code` is no string is left alone, and a string is looked up trimmed; the trimmed description is the message if there is one |
| `AuthErrors.CodesByName` | packages/stack-auth/src/error.rs:944-970 | `USAGE_LIMIT_EXCEEDED` and `ORG_NOT_PROVISIONED` name their refusals, in the server's words or the default ones, and no other code names any |
| `AuthErrors.ClassifiedRefusalReplays` | packages/stack-auth/src/error.rs:896-973 | Every refusal the issuance classifier produces is an account refusal that replays with the same code and text, with or without its payload |
| `Tokens.RestoreUndoesTake` | packages/stack-auth/src/device_session_refresher.rs:57-63 | Restoring a credential undoes taking it, on the very token it was taken from |
| `RefreshState.RefreshCell.constructor` | packages/stack-auth/src/auto_refresh.rs:179-202 | A new cell holds the given token, no refusal, no error and a lowered flag |
| `RefreshState.RefreshCell.TakeFreshDenial` | packages/stack-auth/src/auto_refresh.rs:220-229 | A fresh refusal is replayed and kept, a stale one is forgotten, and nothing else changes |
| `RefreshState.RefreshCell.RecordFailure` | packages/stack-auth/src/auto_refresh.rs:203-211 | An account refusal is remembered with its time; every failure becomes the last error |
| `RefreshState.RefreshCell.Install` | packages/stack-auth/src/auto_refresh.rs:412-420 | A new token clears the refusal, the last error and the flag, and its bearer text is handed out |
| `RefreshState.RefreshCell.DecideInPlace` | packages/stack-auth/src/auto_refresh.rs:316-354 | From the clock reading on: answer, wait for a refresh in flight, or take the credential and raise the flag |
| `RefreshState.RefreshCell.EnterFirst` | packages/stack-auth/src/auto_refresh.rs:292-354 | The first lock hold of a call, which with nothing cached replays a fresh refusal before it reads the store |
| `RefreshState.RefreshCell.EnterAgain` | packages/stack-auth/src/auto_refresh.rs:307-354 | The hold after the store read, which installs what was loaded only if nothing was cached meanwhile |
| `RefreshState.RefreshCell.AnswerAfterWake` | packages/stack-auth/src/auto_refresh.rs:463-500 | What a woken call answers: a usable token, else the fresh refusal, else the last error unless that only says the token expired |
| `RefreshState.RefreshCell.Fail` | packages/stack-auth/src/auto_refresh.rs:531-566 | A failure is recorded, the flag lowered, and the credential put back unless the failure consumed it |
| `RefreshState.FarFromExpiryAnswers` | packages/stack-auth/src/auto_refresh.rs:316-332 | More than 90 seconds before its expiry a cached token is handed out, whatever the flag, the refusal and the kind, and nothing changes |
| `RefreshState.CachedDecides` | packages/stack-auth/src/auto_refresh.rs:330-354 | With a token cached: an exchange exactly within 90 seconds of expiry with the flag down, no refusal of the last 60 seconds and a credential; a wait exactly with the flag up and the token lapsed; else the token while it lasts, then the refusal, then expiry |
| `RefreshState.ColdDecides` | packages/stack-auth/src/auto_refresh.rs:295-328 | With nothing cached: the fresh refusal, else the store, and after it an exchange for whoever authenticates by itself |
| `RefreshState.HoldLeaves` | packages/stack-auth/src/auto_refresh.rs:316-354 | A hold drops only a stale refusal, and takes the credential out of the cached token exactly when a device session starts an exchange |
| `RefreshState.RefusalIsReplayed` | packages/stack-auth/src/auto_refresh.rs:111-135 | A recorded account refusal is replayed for 60 seconds and no longer, word for word unless its message is blank |
| `RefreshState.FailureIsRemembered` | packages/stack-auth/src/auto_refresh.rs:203-218 | Every failure is remembered for waiting callers, and only an account refusal replaces the refusal in force |
| `RefreshProtocol.RunKeepsInv` | packages/stack-auth/src/auto_refresh.rs:292-608 | Every run, under any interleaving, cancellation, teardown and clock, keeps the engine's invariant: one refresh in flight at most, the lock where it belongs, and a token cached whenever the flag is up without the lock |
| `RefreshProtocol.SurroundingsAreFree` | packages/stack-auth/src/auto_refresh.rs:292-608 | An exchange may come back with anything, the store too; a call can be cancelled exactly where it awaits, and a task torn down exactly until its outcome is recorded |
| `RefreshSafety.AtMostOneExchange` | packages/stack-auth/src/auto_refresh.rs:292-396 | In every reachable state at most one exchange is in flight, the flag is then up, and it either holds the lock or a token is cached |
| `RefreshSafety.CredentialsAreConserved` | packages/stack-auth/src/auto_refresh.rs:349-374 | For each refresh token value, what entered an engine equals what is cached, in tasks, spent and lost to teardown, in every run |
| `RefreshSafety.CredentialIsInOnePlace` | packages/stack-auth/src/auto_refresh.rs:349-374 | A value that entered once is in exactly one of those four places |
| `RefreshSafety.RunKeepsDebts` | packages/stack-auth/src/auto_refresh.rs:531-606 | While a task is in flight, putting its credential back would give the very token it was taken from |
| `RefreshSafety.FailureRestoresTheOrigin` | packages/stack-auth/src/auto_refresh.rs:531-606 | A failed refresh leaves the token as it was when the credential was taken; one that consumed the credential leaves it without |
| `RefreshSafety.EveryAnswerIsJustified` | packages/stack-auth/src/auto_refresh.rs:318-354 | In every run each successful answer is the token installed by the refresh that call started, or a cached token usable at a reading taken during the call |
| `RefreshLiveness.NoLostWakeup` | packages/stack-auth/src/auto_refresh.rs:427-462 | In every run of clean teardowns each parked caller that is not notified has a task that has yet to notify it |
| `RefreshLiveness.WorkDrops` | packages/stack-auth/src/auto_refresh.rs:292-608 | Every step the engine takes by itself uses up work, so it cannot go on for ever |
| `RefreshLiveness.EngineCanStep` | packages/stack-auth/src/auto_refresh.rs:427-571 | While a call is open in a state such a run reaches, the engine has a step to take: no deadlock |
| `RefreshLiveness.GoingOnUsesWork` | packages/stack-auth/src/auto_refresh.rs:504-571 | A run of the engine's own steps is no longer than the work it started with |
| `RefreshLiveness.EveryCallFinishes` | packages/stack-auth/src/auto_refresh.rs:427-571 | After any run of clean teardowns the engine stops within its work, and when it can step no more every call is done |
| `RefreshLiveness.WedgedForever` | packages/stack-auth/src/auto_refresh.rs:359-380 | With the flag up and no task left, no step but its own cancellation frees a parked caller |
| `RefreshLiveness.UnpolledTeardownWedges` | packages/stack-auth/src/auto_refresh.rs:359-396 | From any reachable state, tearing down a task before its first poll leads to a wedged engine with a caller parked in it, since the guard does not exist yet |
| `RefreshLiveness.TeardownBeforeRegistrationStrands` | packages/stack-auth/src/auto_refresh.rs:427-462 | From any reachable state, tearing down a polled task under a caller not yet on the list can strand it: a blocking refresh passes without notifying |
| `RefreshLiveness.TeardownBarrens` | packages/stack-auth/src/auto_refresh.rs:155-171 | A device session that loses its credential to a teardown has nothing in flight, can start nothing, and leaves no parked caller unserved |
| `RefreshLiveness.TeardownStrandsIffUnclean` | packages/stack-auth/src/auto_refresh.rs:155-171 | After such a run, a further teardown can leave a caller parked with every refresh ended, in some continuation without teardowns, exactly when the task was never polled, or another refresh can start and a caller holds the lock between its look at the flag and its registration |
| `RefreshLiveness.LeadsByRun` | packages/stack-auth/src/auto_refresh.rs:292-608 | A state those constructions lead to is the end of a run without teardowns |
| `RefusalLimit.StartNeedsNoFreshRefusal` | packages/stack-auth/src/auto_refresh.rs:295-347 | In any state, an exchange or a store read starts only at a reading at which no refusal is fresh |
| `RefusalLimit.RunLapses` | packages/stack-auth/src/auto_refresh.rs:203-229 | With a clock that never runs back and no untimely answer since the last refusal, that refusal is remembered, or 60 seconds old, and it is old while a refresh is in flight |
| `RefusalLimit.RunRemembers` | packages/stack-auth/src/auto_refresh.rs:203-229 | With a clock that never runs back and no untimely answer, the last refusal stays remembered while it is fresh, and refusals are spaced |
| `RefusalLimit.NextExchangeWaitsItsTurn` | packages/stack-auth/src/auto_refresh.rs:111-135 | With a steady clock and no untimely answer since the last refusal, the next exchange, or store read with nothing cached, comes at least 60 seconds after it |
| `RefusalLimit.RefusalsAreSpread` | packages/stack-auth/src/auto_refresh.rs:74-135 | With a steady clock and no untimely answer, k + 1 refusals span at least 60 k seconds |
| `RefusalLimit.SequentialMeansNobodyWoken` | packages/stack-auth/src/auto_refresh.rs:427-466 | When calls come one after another nobody is ever woken, whatever is torn down or cancelled |
| `RefusalLimit.SequentialRefusalsAreSpread` | packages/stack-auth/src/auto_refresh.rs:74-135 | So every sequential history with a steady clock meets the rate limit |
| `RefusalLimit.AnswerKeepsTheLimit` | packages/stack-auth/src/auto_refresh.rs:463-500 | In a run that met the limit so far, a woken caller's answer keeps it exactly when it is not untimely |
| `RefusalLimit.UntimelyAnswerLiftsTheLimit` | packages/stack-auth/src/auto_refresh.rs:463-500 | After an untimely answer the next call starts an exchange or reads the store, before the refusal is 60 seconds old, exactly when nothing is cached, or the flag is down and there is a credential |
| `RefusalLimit.WokenCallerLiftsTheLimit` | packages/stack-auth/src/auto_refresh.rs:463-500 | A run with a steady clock, no teardown and no cancellation in which an exchange starts in the second of the last refusal |
| `RefreshAnswers.RunNotes` | packages/stack-auth/src/auto_refresh.rs:203-229 | In every run what the engine remembers is the last account refusal, or none, and the last failure since a success |
| `RefreshAnswers.FarFromExpiryFinishes` | packages/stack-auth/src/auto_refresh.rs:292-332 | In any state a call that finds a token more than 90 seconds from expiry is answered with it on the spot, and nothing else changes |
| `RefreshAnswers.StartsExactly` | packages/stack-auth/src/auto_refresh.rs:292-354 | In any state a lock hold starts an exchange exactly when one is due, none is under way, no refusal is fresh and there is a credential |
| `RefreshAnswers.LastRefusalAnswers` | packages/stack-auth/src/auto_refresh.rs:111-135 | With a steady clock and no untimely answer since, every call within 60 seconds of the last refusal is told that refusal, unless it holds a token that still works or meets a flag left up |
| `RefreshAnswers.WokenGetsTheFailure` | packages/stack-auth/src/auto_refresh.rs:463-500 | In every run a woken caller gets the cached token if it is good at its reading, else the refusal in force, else the last failure since a success, else that the token expired or was never there |
| `RefreshAnswers.SuccessForgets` | packages/stack-auth/src/auto_refresh.rs:412-424 | A success caches the new token, lowers the flag and forgets every refusal and failure |
| `RefreshAnswers.InitiatorGetsItsOutcome` | packages/stack-auth/src/auto_refresh.rs:504-608 | In every run the caller that started a refresh gets what it came to: the new token; the cached one if a background failure left it valid and the credential unspent; else the error; or that the task was lost |
| `EngineContents.StepKeepsContents` | packages/stack-auth/src/auto_refresh.rs:292-608 | If every token brought in passes a test, every token an engine holds passes it after every step |
| `EngineContents.StepKeepsAnswers` | packages/stack-auth/src/auto_refresh.rs:292-608 | And so does every bearer text it answers with |
| `EngineContents.StepKeepsNeedsToken` | packages/stack-auth/src/auto_refresh.rs:412-608 | An engine that has answered with a token has one cached |
| `DeviceSession.FreshlyRefreshed` | packages/stack-auth/src/device_session_refresher.rs:150-163 | What was read from disk counts as refreshed by another process exactly if it has a refresh token other than the one presented |
| `DeviceSession.ProfileFile.constructor` | packages/stack-auth/src/device_session_refresher.rs:26-46 | A profile starts with the token given |
| `DeviceSession.ProfileFile.Refresh` | packages/stack-auth/src/device_session_refresher.rs:65-175 | Under the file lock: another process's token is adopted without an exchange; otherwise, or if the file cannot be read, the credential is exchanged and saved; a lock error, a refusal and a failed save leave the file alone |
| `DeviceSession.WaitingIsFree` | packages/stack-auth/src/device_session_refresher.rs:123-142 | Whoever waits may meet a lock error, or take the lock when it is free |
| `DeviceSession.LockedIsFree` | packages/stack-auth/src/device_session_refresher.rs:88-106 | Under the lock the file may be unreadable and the issuer accept or refuse; the token on disk is taken exactly when it is another's |
| `DeviceSession.RotatedIsFree` | packages/stack-auth/src/device_session_refresher.rs:108-113 | A rotation may be saved or fail to be |
| `DeviceSession.TornAnytime` | packages/stack-auth/src/device_session_refresher.rs:65-117 | The task may be torn down at every stage |
| `DeviceSession.RotationPresentsTheDisk` | packages/stack-auth/src/device_session_refresher.rs:65-121 | In every run an exchange that read the file offers the value in it, and that is the latest, never spent, while rotations are saved |
| `DeviceSession.DeliveryIsNewer` | packages/stack-auth/src/device_session_refresher.rs:65-121 | What a refresh delivers is the latest generation or the one in the file, and strictly newer than what was offered when it comes from disk |
| `DeviceSession.RunKeepsClusterInv` | packages/stack-auth/src/device_session_refresher.rs:57-175 | Every run of any number of processes, with failing locks, reads and saves and torn-down tasks, keeps the invariant: what was accepted is older than the latest, and nobody holds a newer generation than the file |
| `DeviceSession.ReplayNeedsAStaleFile` | packages/stack-auth/src/device_session_refresher.rs:65-175 | In every run a replay offers a value that is not the latest, and the process could not read the file or the file holds a spent value |
| `DeviceSession.FirstReplayIsExact` | packages/stack-auth/src/device_session_refresher.rs:65-175 | In every run an accepted exchange is the first replay exactly when it offers a value that is not the latest, which is the value in the file unless that could not be read |
| `DeviceSession.NoRefreshTokenIsReplayed` | packages/stack-auth/src/device_session_refresher.rs:65-175 | While rotations are saved and the file is read, no refresh token is exchanged successfully twice, and each exchange is for the value on disk |
| `DeviceSession.NeverAnOlderGeneration` | packages/stack-auth/src/device_session_refresher.rs:65-175 | In every run a process that holds nothing older than a generation never comes to hold anything older |
| `DeviceSession.LostRotationIsReplayed` | packages/stack-auth/src/device_session_refresher.rs:65-175 | After any rotation lost to a failed save or to a teardown before the save, in a run without a replay, a process launched from the file afterwards can have the spent value accepted again |
| `DeviceSession.FailedReadIsReplayed` | packages/stack-auth/src/device_session_refresher.rs:150-152 | From a session's first token, with every rotation saved, a process that cannot read the file replays the old value |
| `DeviceSession.ArrivesByMoves` | packages/stack-auth/src/device_session_refresher.rs:65-175 | A state those constructions arrive at is the end of a run |
| `JwtCaches.JwtCache.constructor` | packages/stack-auth/src/oidc_federation_strategy/cache.rs:33-39 | A new cache is empty, at tick zero |
| `JwtCaches.JwtCache.Get` | packages/stack-auth/src/oidc_federation_strategy/cache.rs:43-48 | A lookup advances the tick, restamps a hit and returns its handle |
| `JwtCaches.JwtCache.LeastUsed` | packages/stack-auth/src/oidc_federation_strategy/cache.rs:58-64 | The scan finds an entry with the smallest stamp |
| `JwtCaches.JwtCache.Insert` | packages/stack-auth/src/oidc_federation_strategy/cache.rs:53-79 | An insertion at capacity evicts exactly the least used entry; with capacity zero nothing is kept |
| `JwtCaches.JwtCache.RemoveIf` | packages/stack-auth/src/oidc_federation_strategy/cache.rs:84-92 | An entry is removed only if it holds this very handle |
| `JwtCaches.StampsAreLastUses` | packages/stack-auth/src/oidc_federation_strategy/cache.rs:19-92 | Over every history of operations a stamp is the time of that digest's last use, and the cache never exceeds its capacity |
| `JwtCaches.EvictsLeastRecentlyUsed` | packages/stack-auth/src/oidc_federation_strategy/cache.rs:53-79 | An entry is evicted exactly when the cache is full and the digest new, and it is the one whose last use is longest ago in the history |
| `Federation.EngineTable.constructor` | packages/stack-auth/src/oidc_federation_strategy.rs:125-148 | A new table has no engine and no refusal |
| `Federation.EngineTable.Find` | packages/stack-auth/src/oidc_federation_strategy.rs:214-290 | The cached engine, else the pending one, else the fresh refusal, else a new pending engine |
| `Federation.EngineTable.Abandon` | packages/stack-auth/src/oidc_federation_strategy.rs:332-351 | A dropped call removes its digest's pending entry only if it is still its own engine |
| `Federation.EngineTable.Settle` | packages/stack-auth/src/oidc_federation_strategy.rs:249-272 | Success moves the engine from pending to the cache; failure removes it from both if it is still there, and an account refusal is remembered |
| `Federation.HistoryKeepsInv` | packages/stack-auth/src/oidc_federation_strategy.rs:214-386 | Every history of users, cancellations, failures and engine steps keeps the strategy's invariant |
| `Federation.UsersAreIsolated` | packages/stack-auth/src/oidc_federation_strategy.rs:156-173 | Whatever the shared store holds, a call only ever answers with a token exchanged for a JWT of its own digest or stored under its stamp |
| `Federation.AnswersAreOwnExchanges` | packages/stack-auth/src/oidc_federation_strategy.rs:156-173 | With a store that gives back nothing but tokens this strategy had exchanged, saved or being saved when torn down, a call only ever answers with a token got by exchanging a JWT of its own digest |
| `Federation.SavesAreSavable` | packages/stack-auth/src/oidc_federation_strategy.rs:156-173 | Whatever any engine saves, or is saving, is a token that an exchange gave and stamped with the engine's digest |
| `Federation.EnginesHoldOwnTokens` | packages/stack-auth/src/oidc_refresher.rs:260-267 | A token in an engine is stamped with the engine's digest; every cached engine is under its own digest and holds a token; the cache never exceeds the configured capacity |
| `Federation.PendingIsBounded` | packages/stack-auth/src/oidc_federation_strategy.rs:319-386 | Each pending engine is held by the unsettled call that made it, so pending entries never outnumber unsettled calls |
| `Federation.LossesAreContained` | packages/stack-auth/src/oidc_federation_strategy.rs:249-351 | A failed or dropped call removes only its own engine's entry; only success inserts or evicts; only a new call makes an engine pending; every entry that stays keeps its engine, but for the cached one a success of its digest replaces |
| `Federation.NewEngineNeedsNoFreshRefusal` | packages/stack-auth/src/oidc_federation_strategy.rs:214-237 | A new engine is made exactly for a digest with neither a cached nor a pending one, at a reading at which no refusal is fresh |
| `Federation.NewEnginesWaitTheirTurn` | packages/stack-auth/src/oidc_federation_strategy.rs:214-290 | Over every history with a steady clock, no engine is made within 60 seconds of the last refusal of the account, whichever user got it |
| `FederationAnswers.SuccessIsFoundAgain` | packages/stack-auth/src/oidc_federation_strategy.rs:249-262 | After a success its engine is found for the same JWT, and of the other cached ones only the victim is gone |
| `FederationAnswers.RefusalAnswersOthers` | packages/stack-auth/src/oidc_federation_strategy.rs:262-290 | For 60 seconds after a refusal of the account, every JWT without an engine is told that refusal |
| `FederationAnswers.EngineComesFirst` | packages/stack-auth/src/oidc_federation_strategy.rs:214-224 | A cached engine is handed back first, then a pending one, whatever was refused |
| `FederationAnswers.CachedExactly` | packages/stack-auth/src/oidc_federation_strategy.rs:249-272 | Over every history the cached engine of a JWT is the one of its last success, unless that was evicted or a call on it failed since |
| `FederationAnswers.ServedWithoutANewEngine` | packages/stack-auth/src/oidc_federation_strategy.rs:214-237 | So after a success every further call for that JWT gets that engine and none is made, until it is dropped |
| `FederationAnswers.LastRefusalAnswersAll` | packages/stack-auth/src/oidc_federation_strategy.rs:214-290 | Over every history with a steady clock, a JWT without an engine that asks within 60 seconds of the last refusal is told it, and no engine is made |
| `FederationAnswers.StoreServesItsOwner` | packages/stack-auth/src/oidc_federation_strategy.rs:156-173 | A stored token is served exactly to the JWT it is stamped with |
| `FederationAnswers.FederatedIsStamped` | packages/stack-auth/src/oidc_refresher.rs:260-267 | What an engine federates is stamped with its JWT's digest before it is saved |
| `FederationAnswers.FinishedCallSettles` | packages/stack-auth/src/oidc_federation_strategy.rs:367-386 | A call whose engine has answered can always settle: a full cache always has an entry to give up |
| `FederationAnswers.SettledCallIsTold` | packages/stack-auth/src/oidc_federation_strategy.rs:367-386 | A settled call is told what the engine's call came to, with nothing cached and a lapsed token as errors of their own |
| `OreTerms.CompareSlice` | languages/golang/encrypt/term.go:182-202 | The constant-time loop judges the first differing byte pair, with wrap-around at 255 |
| `OreTerms.Compare` | languages/golang/encrypt/term.go:136-177 | The common prefix decides, then the shorter term is less |
| `OreTerms.TermOrderIsPlaintextOrder` | languages/golang/encrypt/term.go:130-202 | For terms built with any pseudo-random function, comparing them is comparing their plaintext bits, the shorter first |
| `OreTerms.BitOrderIsTotal` | languages/golang/encrypt/term.go:130-135 | The order of plaintexts is total: antisymmetric, zero only on equals, transitive |
| `OreTerms.TermOrderIsTotal` | languages/golang/encrypt/term.go:130-202 | So is the order of the terms of one function |
| `OreTerms.AntisymmetricOnNeighbours` | languages/golang/encrypt/term.go:182-202 | On arbitrary bytes the comparison is antisymmetric exactly when the first differing bytes are neighbours modulo 256 |
| `OreTerms.ByteOrderAgreesUnlessWrapped` | languages/golang/encrypt/term.go:121-128 | Plain byte order of terms is plaintext order exactly unless the function gives 255 where they part |
| `WasmImports.Reader.constructor` | scripts/check-wasm-imports.py:38-40 | A reader starts at the first byte |
| `WasmImports.Reader.TakeBytes` | scripts/check-wasm-imports.py:42-47 | The next bytes are taken, or the data is truncated; the cursor stays in bounds |
| `WasmImports.Reader.TakeByte` | scripts/check-wasm-imports.py:49-50 | One byte is taken, or the data is truncated |
| `WasmImports.Reader.TakeVaruint` | scripts/check-wasm-imports.py:52-62 | The loop reads the LEB128 number ahead, and refuses an eleventh byte |
| `WasmImports.Reader.TakeName` | scripts/check-wasm-imports.py:64-69 | A sized name is taken if it is UTF-8 |
| `WasmImports.Reader.SkipLimits` | scripts/check-wasm-imports.py:72-76 | Limits are passed over, with a maximum when the flags say so |
| `WasmImports.Reader.SkipDescriptor` | scripts/check-wasm-imports.py:79-92 | A function, table, memory or global descriptor is passed over, and any other kind refused |
| `WasmImports.Reader.TakeImport` | scripts/check-wasm-imports.py:117-120 | One import gives its module and field names |
| `WasmImports.Reader.TakeNextImport` | scripts/check-wasm-imports.py:116-120 | One turn of the import loop adds one pair, or its fault is the answer |
| `WasmImports.Reader.TakeImports` | scripts/check-wasm-imports.py:116-120 | The loop takes exactly the counted imports |
| `WasmImports.Reader.TakeImportSection` | scripts/check-wasm-imports.py:116-120 | The count is read, then its imports |
| `WasmImports.ReadImportsInPlace` | scripts/check-wasm-imports.py:95-124 | On any bytes at all the reader ends, in bounds, with the specified answer |
| `WasmImports.ReadSections` | scripts/check-wasm-imports.py:104-124 | The section loop ends and gives the pairs of the import section, or the first fault |
| `WasmImports.ReadSection` | scripts/check-wasm-imports.py:107-123 | One section: its size is checked, a second import section is refused, and an import section must end where it says |
| `WasmImports.VaruintInvertsLeb` | scripts/check-wasm-imports.py:52-62 | Decoding inverts encoding at every number of bytes already read |
| `WasmImports.NumbersReadBack` | scripts/check-wasm-imports.py:52-62 | A number reads back exactly when it is below 2^70, and is refused as too large otherwise |
| `WasmImports.ImportReadsBack` | scripts/check-wasm-imports.py:64-120 | An encoded import reads back as its pair, whatever follows |
| `WasmImports.ImportsReadBack` | scripts/check-wasm-imports.py:116-120 | So does a list of them, in order |
| `WasmImports.SectionsReadBack` | scripts/check-wasm-imports.py:104-124 | So do all sections, with a second import section refused |
| `WasmImports.ModuleReadsBack` | scripts/check-wasm-imports.py:95-124 | Reading the encoding of any well-formed module gives exactly its import pairs |
| `WasmGrammar.NumberIsExact` | scripts/check-wasm-imports.py:52-62 | A number is read exactly from a LEB128 spelling, minimal or not, of at most ten bytes |
| `WasmGrammar.ReadsExactlyTheModules` | scripts/check-wasm-imports.py:95-124 | On any bytes, the reader reports given pairs exactly when the bytes are a module whose one import section holds them, or that has none |
| `TagText.SplitOutsideParens` | languages/golang/stashgen/tag.go:233-256 | The loop over depth and start computes the split |
| `TagText.SplitsIffBalanced` | languages/golang/stashgen/tag.go:233-256 | Splitting succeeds exactly on balanced text, from any depth |
| `TagText.PartsRejoin` | languages/golang/stashgen/tag.go:233-256 | The parts join up to the text; each is balanced with no separator outside parentheses |
| `TagText.SplitOfJoin` | languages/golang/stashgen/tag.go:233-256 | Splitting inverts joining for all such parts |
| `TagText.SplitIsExact` | languages/golang/stashgen/tag.go:233-256 | All three at once: when the split succeeds, and that its result is the only one possible |
| `IndexGrammar.ParseSettings` | languages/golang/stashgen/tag.go:213-219 | The loop reads every option or refuses them all |
| `IndexGrammar.ParseIndex` | languages/golang/stashgen/tag.go:192-221 | One index is read: a known word, alone or with non-empty options in parentheses |
| `IndexGrammar.CollectIndexes` | languages/golang/stashgen/tag.go:178-189 | The loop with the names seen so far reads the indexes in order |
| `IndexGrammar.SeenCatchesDoubles` | languages/golang/stashgen/tag.go:177-187 | The names seen refuse exactly the lists in which two indexes share a name |
| `IndexGrammar.ParseIndexes` | languages/golang/stashgen/tag.go:171-190 | A list is accepted exactly when every part is an index and the names differ |
| `IndexGrammar.SettingReprints` | languages/golang/stashgen/declaration.go:139-145 | An option prints as written, but for a bare `=` at its end |
| `IndexGrammar.IndexReprints` | languages/golang/stashgen/declaration.go:121-131 | Every index that parses prints as text that parses to it again |
| `IndexGrammar.ListReprints` | languages/golang/stashgen/declaration.go:121-145 | So does every index list |
| `IndexGrammar.PrintsAsWritten` | languages/golang/stashgen/declaration.go:121-145 | The printed index is the original text exactly when no option was written `key=` |
| `IndexGrammar.NamesAsWritten` | languages/golang/stashgen/declaration.go:150-162 | The five index names, as they are written |
| `IndexGrammar.IdentsByCode` | languages/golang/stashgen/tag.go:258-272 | Which characters an identifier starts with, and which may follow, by ASCII code |
| `IndexGrammar.IdentsGoOn` | languages/golang/stashgen/tag.go:258-272 | An identifier goes on exactly with what may follow its first character |
| `TagGrammar.ParseContextTag` | languages/golang/stashgen/tag.go:151-168 | A context tag takes a non-empty context and at most one `opaque` |
| `TagGrammar.ReadParts` | languages/golang/stashgen/tag.go:74-116 | The loop with its flags records what the parts say |
| `TagGrammar.ParseTagValue` | languages/golang/stashgen/tag.go:56-149 | The whole parser computes the tag |
| `TagGrammar.PartsAreASet` | languages/golang/stashgen/tag.go:74-116 | The loop accepts exactly the multisets with one part of each kind and none refused, and its record depends on that multiset alone |
| `TagGrammar.OrderIsFree` | languages/golang/stashgen/tag.go:56-149 | Any permutation of the parts after the name gives the same tag, or fails alike |
| `TagGrammar.FieldTagIsExact` | languages/golang/stashgen/tag.go:117-149 | A field tag is accepted exactly when its parts are one of each kind and are one of the sets that name a verb |
| `TagGrammar.AcceptedTagsAreWellFormed` | languages/golang/stashgen/tag.go:56-149 | An accepted tag has indexes only with the two index verbs and then under distinct names, an EQL type only with `encrypt_into`, no name only with `passthrough` |
| `TagSpelling.OnlyTheseSay` | languages/golang/stashgen/tag.go:74-116 | A part is one of the five forms written out, and any other text is refused |
| `TagSpelling.PlainVerbs` | languages/golang/stashgen/tag.go:72-142 | `encrypt` seals, `passthrough` stores as it is, `context_field` is the context |
| `TagSpelling.IntoVerb` | languages/golang/stashgen/tag.go:89-136 | `encrypt_into=T` seals into the EQL type T, and is refused where T is no type name |
| `TagSpelling.IndexVerbs` | languages/golang/stashgen/tag.go:98-142 | `index=L` derives the indexes of L alone, and beside `encrypt` also seals; both are refused where L is no list |
| `TagSpelling.NamelessVerb` | languages/golang/stashgen/tag.go:144-147 | A tag with no name takes `passthrough` and nothing else |
| `TagSpelling.ContextVerbs` | languages/golang/stashgen/tag.go:151-168 | `context=C` names its context, and `opaque` after it sets the flag |
| `TagSpelling.TagReadsBack` | languages/golang/stashgen/tag.go:56-168 | Every tag that can be written is read back from its spelling, for all verbs, index lists and contexts |
| `TagSpelling.TagRespells` | languages/golang/stashgen/tag.go:56-168 | Every tag that is read is read again, the same, from its spelling |
| `ModelBinding.BuildFields` | languages/golang/stashgen/read.go:671-740 | The loop succeeds exactly when no two fields write one name, and emits each kept field with the outputs of its verb |
| `ModelBinding.DeclarationIsGood` | languages/golang/stashgen/read.go:671-740 | What it emits has distinct names, and outputs that differ in Go name and in index |
| `ModelBinding.OutputsByVerb` | languages/golang/stashgen/read.go:694-731 | Which outputs each verb gives: the value, the EQL value, a ciphertext with or without terms, or terms alone, one for each index in order |
| `ModelBinding.TermsByName` | languages/golang/stashgen/declaration.go:163-180 | Each term's Go name and type |
| `ModelBinding.EmitsEachField` | languages/golang/stashgen/read.go:671-740 | Every declared field that is not omitted is emitted in its turn, with its names, verb and outputs, and no other is |
| `ModelBinding.ModelTagIsExact` | languages/golang/stashgen/model.go:197-217 | A model tag names an output exactly when it is the output's key under a name that can be spelled |
| `ModelBinding.LookupIsExact` | languages/golang/stashgen/model.go:170-188 | The lookup finds the one output of that name and index, over a good declaration, or there is none |
| `ModelBinding.BindsExactly` | languages/golang/stashgen/model.go:87-133 | A model field is bound to an output exactly when its tag is the output's key, the types agree, and it is neither blank nor embedded |
| `ModelBinding.LeavesExactly` | languages/golang/stashgen/model.go:100-103 | A model field is left out exactly when its tag is `-` |
| `ModelBinding.KeyIsPlace` | languages/golang/stashgen/model.go:107-113 | Over a good declaration two outputs share a key exactly when they are the same output |
| `ModelBinding.BindFields` | languages/golang/stashgen/model.go:86-133 | The loop with its map of bound keys succeeds exactly when every field binds and no output is bound twice |
| `ModelBinding.AllBound` | languages/golang/stashgen/model.go:134-145 | The last loop finds an unbound output if there is one |
| `ModelBinding.BindModel` | languages/golang/stashgen/model.go:86-147 | Binding succeeds exactly when every field binds by itself and the bound fields and the outputs are in bijection |
| `ModelConversion.FieldFor` | languages/golang/stashgen/emit.go:624-631 | The first model field bound to an output of that field name and output name |
| `ModelConversion.FieldIsFound` | languages/golang/stashgen/emit.go:624-631 | Under a bijection it is the field bound to that very output |
| `ModelConversion.PathIsPlace` | languages/golang/stashgen/model.go:162-168 | Two outputs are never read from one member of the encrypted struct |
| `ModelConversion.TaggedFieldReads` | languages/golang/stashgen/model.go:162-168 | The model field tagged with an output's key reads that output's own member of the encrypted value |
| `ModelConversion.EncryptedSurvives` | languages/golang/stashgen/emit.go:585-612 | To a model and back, every encrypted value is unchanged |
| `ModelConversion.ModelSurvives` | languages/golang/stashgen/emit.go:585-612 | To an encrypted value and back, a model keeps its bound fields and has zero elsewhere |
| `Records.FieldEntries` | languages/golang/encrypt/records.go:277-283 | The loop over the plan succeeds exactly when no field lacks a value |
| `Records.SourceRow` | languages/golang/encrypt/records.go:251-285 | A row is taken exactly when it has every name of the plan, no unknown one, and a string for its context, and it is rendered context first, in plan order |
| `Records.RowsBesideTheNames` | languages/golang/encrypt/records.go:251-262 | A row is taken exactly when it has the plan's names, or also the empty name where the plan has no context field, and a string for its context |
| `Records.EmptyNameIsTaken` | languages/golang/encrypt/records.go:251-285 | A row with a value under the empty name is taken by a plan without a context field, and that value is not sent |
| `Records.LiftOutputs` | languages/golang/encrypt/records.go:320-345 | The loop lifts a field's outputs exactly when each has its form |
| `Records.LiftedFieldHolds` | languages/golang/encrypt/records.go:318-345 | A stored field has the node's ciphertext, its EQL value, and every other output as a term under its own key |
| `Records.LiftLosesNothing` | languages/golang/encrypt/records.go:318-345 | The node can be rebuilt from what is stored |
| `Records.LiftFields` | languages/golang/encrypt/records.go:293-347 | The loop over the fields refuses an unknown name and a node that does not lift |
| `Records.SealedOf` | languages/golang/encrypt/records.go:288-358 | A record is lifted exactly when its names are the plan's and every node lifts |
| `Records.LiftableExactly` | languages/golang/encrypt/records.go:288-358 | A record is refused exactly when it lacks a field of the plan, has one the plan does not name, or one not in form |
| `Records.OpenedExactly` | languages/golang/encrypt/records.go:398-416 | What opens is the EQL values, the fields with a ciphertext and the context; an index alone opens to nothing |
| `Records.OpenTree` | languages/golang/encrypt/records.go:386-417 | A stored record is laid out exactly when its context is not empty and every ciphertext it opens is there |
| `RecordRoundTrip.RenderAll` | languages/golang/encrypt/records.go:38-53 | All rows are rendered exactly when each is taken and agrees with the context named |
| `RecordRoundTrip.RenderedAt` | languages/golang/encrypt/records.go:263-284 | A row goes out with its context first, then its fields in plan order, each under its name |
| `RecordRoundTrip.LiftAll` | languages/golang/encrypt/records.go:88-93 | All records that came back are lifted, in order, or none |
| `RecordRoundTrip.Seal` | languages/golang/encrypt/records.go:33-94 | Sealing gives the lifted outputs of the engine for the rendered rows, or fails exactly when that does not exist |
| `RecordRoundTrip.SealsIffEncrypted` | languages/golang/encrypt/records.go:33-94 | Rows that pass the checks are sealed exactly when the engine encrypts them |
| `RecordRoundTrip.SealedKeepsEverything` | languages/golang/encrypt/records.go:88-93 | Each record stores all the engine returned for its row, every term under the field and output it came for, and the row's own context |
| `RecordRoundTrip.LayOutAll` | languages/golang/encrypt/records.go:385-418 | All stored records are laid out, in order, or none |
| `RecordRoundTrip.ReadObject` | languages/golang/encrypt/records.go:452-455 | An object is read into a row, the last entry of a key winning |
| `RecordRoundTrip.ReadAll` | languages/golang/encrypt/records.go:445-465 | Every decrypted object becomes a row exactly when each has every field with a ciphertext |
| `RecordRoundTrip.Open` | languages/golang/encrypt/records.go:385-467 | Opening gives the rows the engine decrypts, or fails exactly when that does not exist |
| `RecordRoundTrip.NamedContextNeedsAField` | languages/golang/encrypt/records.go:236-238 | A cipher that names a context seals and opens nothing under a plan without a context field |
| `RecordRoundTrip.RowSurvives` | languages/golang/encrypt/records.go:251-285 | A row rendered for the engine reads back as the part of it that the plan names |
| `RecordRoundTrip.OpensUnlessBlank` | languages/golang/encrypt/records.go:386-417 | A record just sealed can be opened exactly when its context label, if it has one, is not empty |
| `RecordRoundTrip.SealedRowsOpen` | languages/golang/encrypt/records.go:33-110 | For any engine whose decryption inverts its encryption, opening what was sealed returns the rows in order, restricted to fields with a ciphertext and the context, and fails exactly when a label is empty |

## Left out

- HTTP, JSON bodies, URLs and service discovery: an exchange is one step that succeeds with a new token or fails with an error.
- SHA-256, JWT decoding and the workspace check of a token: a digest is its hex text, taken as injective.
- The cipher, key retrieval, guest calls, encodings and wiping of buffers: the engine is any pair of functions that meets `IsEngine`.
- Operating-system file locks: the profile's lock is a step that one process takes at a time. A device session without a profile store is not in `DeviceSession`, nor is an exchange that the issuer accepted and whose answer was lost on the way.
- Threads, the async runtime and memory ordering: each atomic access, lock hold and notification is one step.
- The wasm32 build, where the refresh runs inside the call and is not a task of its own.
- Builders, environment variables, credential detection and help texts: branch-by-branch facts. Fixed wordings of errors are named by their code in `AuthErrors.Text`.
- `main` of the import script, which compares the imports with an allowed surface; names are kept as their UTF-8 bytes.
- Loading Go packages and types, declarations that embed a passthrough struct, opaque structs, the kinds a sealed field may have and the EQL types an engine offers; the emitted source text beyond the two conversions. A Go type is compared as the text of its path.
- Error messages of stashgen and of the record path: an error is `None`.
- `Derive`, `Query` and the search for the row behind a term failure: no state and no round trip.
- ModelBinding.BuildFields: does not model the refusals of a sealed field that is no scalar and of an EQL type the engine does not offer, because both ask libraries that are not part of this model.
- RefusalLimit.RefusalsAreSpread: stated for runs without an untimely answer, because `UntimelyAnswerLiftsTheLimit` and `WokenCallerLiftsTheLimit` show it false with one.
- RefreshLiveness.NoLostWakeup: stated for runs of clean teardowns, because `TeardownStrandsIffUnclean` shows that any other teardown can strand a caller.
- DeviceSession.NoRefreshTokenIsReplayed: stated for runs in which rotations are saved and the file is read, because `LostRotationIsReplayed` and `FailedReadIsReplayed` show it false otherwise.
