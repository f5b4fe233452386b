# Yonder, verified

A Dafny model of the state machines in the Yonder relay (`yon-relay`) and of the file transfer in its
endpoint (`yon`), with proofs about every run of them.

| files | what they model |
|---|---|
| `Common.dfy` | peers, sources, connections, time in nanoseconds, the 20-bit locator ring, UTF-8 lengths |
| `EagerRegistry.dfy`, `RendezvousRegistry.dfy`, `RegistryAnswers.dfy` | the rendezvous registry: a one-map reference whose clock drops mappings by itself, the class with three indexes and lazy pruning that refines it, and what every call answers over a run |
| `Limiters.dfy`, `LimiterRates.dfy` | the bounded, idle-evicting tables of source limiters against unbounded token buckets, and the buckets against rates and bursts alone |
| `EnterpriseSession.dfy` | the enterprise authentication session, a class of guarded transitions |
| `AdmissionModel.dfy`, `AdmissionInvariant.dfy`, `AdmissionSteps.dfy`, `AdmissionTheorems.dfy`, `AdmissionAnswers.dfy`, `AdmissionSuccess.dfy` | the admission protocol between exchange tasks, HTTPS callback tasks and the owner, as a step relation: its invariant, its theorems over whole runs, why every answer and page is given, and that an admission can always still finish |
| `CallbackTable.dfy` | the owner's transaction table, a class that agrees with the table inside the protocol |
| `LoopModel.dfy`, `LoopTheorems.dfy`, `LoopHistories.dfy`, `RelayLoop.dfy` | the event loop: connection book, registry feed and capacity rejection as a step relation, its theorems over whole runs, the book told from the event history alone, and the object that runs it |
| `TokenCache.dfy`, `Verifier.dfy` | the one-entry provider token cache among tasks, and the two verification loops against a provider that answers anything |
| `CallbackQuery.dfy` | the OAuth callback query |
| `Streaming.dfy`, `FileSystem.dfy`, `FileCommit.dfy` | the source reader and digest, a Unix volume with links, and the receiving side with other programs at work |

Everything that comes from outside is a parameter and is arbitrary: clock readings, random locators and
OAuth states (drawn fresh), provider answers, what other tasks leave in the token cache, what the operating
system and other programs do to files, and the order of events. A concurrent protocol is a step relation in which
every step is one atomic action of one actor; channels may deliver in any order, which allows more runs than
the relay has.

Four results refine what the code or its comments say.

* An accepted resolve policy can never fill the source table, so the full-table denial in
  `check_source` is dead code for validated policies (`Limiters.AcceptedPolicyNeverFills`).
* Every tracked connection of a rejected, idle peer has been told to close, provided the peer's exchanges read the
  decisions they are given (`LoopTheorems.ReadDecisionsClose`). Only a cancelled exchange misses a delivered
  decision, which the relay does at shutdown alone: its timeout polls the exchange before the deadline
  (crates/yon-relay/src/service.rs:1476-1482) on a single thread (crates/yon-relay/src/main.rs:457), and after
  shutdown the loop takes no further turn. The model lets exchanges be cancelled at any time; then exactly the connection
  whose rejection was lost stays open (`LoopTheorems.RejectionIsExact`), as a concrete run shows.
* A destination plan does not always name a free entry: under a trailing slash or dot the probe follows a
  dangling link and misses the name (`FileSystem.PlansOverDanglingLink`, against the comment at
  crates/yon/src/file_semantics.rs:375-379). `FileSystem.AbsenceIsExact` gives the condition, and
  `FileSystem.OnlyPlainPathsReceive` shows that no transferred file is ever committed to such a plan.
* Committing or cleaning up a received file works on the temporary *path*. When another program has bound
  that name to its own object, the object is moved to the final name while success is reported
  (`FileCommit.CommitsForeignFile`), or its name is removed (`FileCommit.CleanupRemovesForeignName`);
  `FileSystem.MoveSparesForeign` and `FileSystem.UnlinkSparesForeign` give the exact condition. Existing final
  objects and foreign bytes are safe in every case.

## Model

| member | source | states |
|---|---|---|
| `EagerRegistry.RunKeepsInv` | crates/yon-relay/src/registry.rs:183-254 | In every reachable registry owners hold at most one mapping, both quotas hold, nothing expired is kept, and a mapping is Active exactly when its owner has both signals. |
| `EagerRegistry.RunIsUnique` | crates/yon-relay/src/registry.rs:78-166 | The reference registry gives one answer to each history, so refining it fixes every response. |
| `EagerRegistry.LocatorExclusivity` | crates/yon-relay/src/registry.rs:145-166 | If a locator resolves to p and later to another q, then in between p released it or p was unavailable for 120 s without a break. |
| `EagerRegistry.GraceNeverRestarts` | crates/yon-relay/src/registry.rs:208-224 | A peer without one of its signals for 120 s holds nothing at the end, whatever happened to the other signal meanwhile. |
| `EagerRegistry.AvailableKeepsLocator` | crates/yon-relay/src/registry.rs:208-254 | An owner that is available and has neither released its locator nor been down for a whole grace period still resolves. |
| `EagerRegistry.AllocateIsIdempotent` | crates/yon-relay/src/registry.rs:90-114 | A later allocate by an owner that kept its locator answers the same locator. |
| `RegistryAnswers.ReclaimAnswers` | crates/yon-relay/src/registry.rs:117-142 | In every run a reclaim answers Acquired exactly when the available caller holds that locator, or holds nothing while it is free and neither quota is used up; Conflict exactly when the available caller holds another, or holds nothing while somebody else holds it; Capacity and ReservationRequired exactly in the remaining cases. |
| `RegistryAnswers.AllocateAnswers` | crates/yon-relay/src/registry.rs:90-114 | In every run an allocation answers the held locator again, Capacity, a random failure or a missing reservation exactly in their cases, and otherwise the free locator with the smallest ring distance from the random start. |
| `RegistryAnswers.AcquiredResolves` | crates/yon-relay/src/registry.rs:183-192 | An acquired locator resolves to its new owner at once, and no other peer gains or loses one. |
| `RegistryAnswers.ReleaseFrees` | crates/yon-relay/src/registry.rs:145-151 | A release frees exactly the named locator of the caller, whatever else is held. |
| `RegistryAnswers.ResolveAnswers` | crates/yon-relay/src/registry.rs:154-166 | A lookup answers p exactly when p holds the locator and is available, Retry exactly when its holder is not, Unavailable exactly when nobody holds it. |
| `RegistryAnswers.KeeperGetsItBack` | crates/yon-relay/src/registry.rs:125-130 | A peer that acquired a locator and neither released it nor was down for a whole grace period gets the same locator from every later allocate or reclaim while it is available. |
| `RegistryAnswers.NewHolderAsked` | crates/yon-relay/src/registry.rs:183-192 | A peer comes to hold a locator only through its own call that was answered with it. |
| `RegistryAnswers.AvailabilityFollowsEvents` | crates/yon-relay/src/registry.rs:78-87 | A peer is available exactly when the last event on each of its two signals set it up. |
| `RendezvousRegistry.Registry.constructor` | crates/yon-relay/src/registry.rs:63-75 | A new registry is valid and empty. |
| `RendezvousRegistry.Registry.Insert` | crates/yon-relay/src/registry.rs:183-192 | Adds exactly one Active mapping; the owner index stays inverse, the source counts exact, the quotas kept. |
| `RendezvousRegistry.Registry.Remove` | crates/yon-relay/src/registry.rs:194-206 | Removes exactly one mapping; the count decrement cannot underflow and no zero count remains. |
| `RendezvousRegistry.Registry.CollectExpired` | crates/yon-relay/src/registry.rs:235-254 | The fixed array of 320 slots takes every expired locator once and nothing else, without overflowing. |
| `RendezvousRegistry.Registry.Prune` | crates/yon-relay/src/registry.rs:235-254 | Leaves exactly the mappings inside their grace period. |
| `RendezvousRegistry.Registry.Refresh` | crates/yon-relay/src/registry.rs:208-224 | With both clock readings of the source, restores "Active exactly when both signals": a suspension takes effect at the second reading, a revival at the first, and an earlier suspension time is kept. |
| `RendezvousRegistry.Registry.SetReservation` | crates/yon-relay/src/registry.rs:78-81 | Refines the reference's reservation event at one of its two clock readings. |
| `RendezvousRegistry.Registry.SetConnection` | crates/yon-relay/src/registry.rs:84-87 | Refines the reference's connection event at one of its two clock readings. |
| `RendezvousRegistry.Registry.Probe` | crates/yon-relay/src/registry.rs:103-110 | Ends within len + 1 steps at the first free locator at or after the random start in ring order. |
| `RendezvousRegistry.RingPigeonhole` | crates/yonder-core/src/code.rs:76-78 | A run of k used locators along the wrapping ring needs k used locators. |
| `RendezvousRegistry.Registry.Allocate` | crates/yon-relay/src/registry.rs:90-114 | Refines the reference: reservation required, same locator again, capacity, random failure, or the first free locator. |
| `RendezvousRegistry.Registry.Reclaim` | crates/yon-relay/src/registry.rs:117-142 | Refines the reference, whose reclaim answers `RegistryAnswers.ReclaimAnswers` gives exactly. |
| `RendezvousRegistry.Registry.Release` | crates/yon-relay/src/registry.rs:145-151 | Removes the mapping only for its owner and always answers Released. |
| `RendezvousRegistry.Registry.Resolve` | crates/yon-relay/src/registry.rs:154-166 | Answers the owner of an Active mapping, Retry for a suspended one, Unavailable otherwise, and changes nothing the reference can see. |
| `RendezvousRegistry.Serve` | crates/yon-relay/src/registry.rs:78-254 | Lazy pruning refines eager expiry: over every sequence of operations and clock advances, also between the two readings of one operation, the class answers as the reference registry does. |
| `Limiters.EvictionIsInvisible` | crates/yon-relay/src/registry.rs:311-338 | A table evicting after `idle` agrees with token buckets kept for ever on every ordered run, full-table denials aside, if and only if `idle` covers the refill of a whole burst. |
| `Limiters.EarlyEvictionDiverges` | crates/yon-relay/src/registry.rs:332-338 | With a shorter idle time a concrete run makes the table admit what the bucket refuses. |
| `Limiters.AcceptedPolicyNeverFills` | crates/yonder-core/src/resource.rs:259-274 | Under every policy the constructor accepts, no ordered run of lookups ever meets a full source table. |
| `Limiters.EnterpriseLimitsAreIdeal` | crates/yon-relay/src/enterprise_resolve.rs:60-95 | One per second with burst 4, 600 s idle, 1024 sources: every enterprise start decision is that of unbounded buckets. |
| `Limiters.TableNeverExceedsCapacity` | crates/yon-relay/src/registry.rs:317-319 | Over every run, ordered or not, the source table stays within its capacity. |
| `Limiters.TableStaysBounded` | crates/yon-relay/src/enterprise_resolve.rs:80-82 | The equality guard keeps the bound, and within it equals the at-least guard of the enterprise table. |
| `Limiters.ResolveLimiters.Prune` | crates/yon-relay/src/registry.rs:332-338 | Keeps exactly the sources seen within the idle time. |
| `Limiters.ResolveLimiters.CheckGlobal` | crates/yon-relay/src/registry.rs:307-309 | Decides and charges as one token bucket. |
| `Limiters.ResolveLimiters.CheckSource` | crates/yon-relay/src/registry.rs:311-330 | Decides and charges one source of the bounded table, refusing newcomers only when it is full, and keeps its bound. |
| `Limiters.ResolveLimiters.Check` | crates/yon-relay/src/enterprise_resolve.rs:36-56 | Global bucket first, then a known source, then its bucket; a refusal charges nothing behind it. |
| `Limiters.CheckAll` | crates/yon-relay/src/registry.rs:300-338 | The limiter object answers every ordered sequence of calls like a relay that never forgets a source. |
| `LimiterRates.LimiterIsFair` | crates/yon-relay/src/registry.rs:300-309 | On every ordered run a limiter refuses a call exactly when, counted from some earlier call it let through, the calls let through and this one would exceed its burst plus its rate times the time elapsed. |
| `LimiterRates.FairIsUnique` | crates/yon-relay/src/registry.rs:300-309 | That condition mentions no arrival times and determines every decision. |
| `LimiterRates.BurstPasses` | crates/yonder-core/src/resource.rs:259-274 | The first burst of calls is never refused, however close together. |
| `LimiterRates.SpacedCallsPass` | crates/yonder-core/src/resource.rs:259-274 | Calls spaced at the configured rate are never refused. |
| `LimiterRates.DecisionsFollowTheRates` | crates/yon-relay/src/registry.rs:300-330 | Each decision of the relay is that of two such limiters in a row: the global rate and burst per second over all calls, then the rate and burst of the source over its calls that passed the first. |
| `EnterpriseSession.ReachableSessions` | crates/yon-relay/src/session.rs:288-428 | In every reachable session state and identity are never held together, each only while Authenticating, and terminal phases hold neither. |
| `EnterpriseSession.RunsOnlyMoveForward` | crates/yon-relay/src/session.rs:399-419 | Over any operations terminal phases are absorbing, the provider never changes once chosen, and a failing call changes nothing except a bad callback, which ends in InvalidState. |
| `EnterpriseSession.ResolvingMeansAdmitted` | crates/yon-relay/src/session.rs:314-369 | A session that reaches Authenticated, Resolving or Completed had, each successful and in this order: a selection of the provider it has with a state, a callback with that state, and a positive member validation. |
| `EnterpriseSession.EndingHasCause` | crates/yon-relay/src/session.rs:314-419 | Every ended session was ended by one operation, for the reason its phase names: completion, a wrong state, a rejected member, or an ending with that very phase. |
| `EnterpriseSession.EndingIsFinal` | crates/yon-relay/src/session.rs:410-419 | After an ending the session is over for good and holds nothing, in that phase unless it had ended before. |
| `EnterpriseSession.HonestSessionCompletes` | crates/yon-relay/src/session.rs:288-377 | Offer, selection, its own callback, membership, resolving and completion all succeed in this order for every provider, state, member and target. |
| `EnterpriseSession.EnterpriseResolveSession.constructor` | crates/yon-relay/src/session.rs:212-225 | A new session is Created, holds nothing, and has its deadline set. |
| `EnterpriseSession.EnterpriseResolveSession.OfferProviders` | crates/yon-relay/src/session.rs:288-294 | Moves only from Created; a failed call changes nothing. |
| `EnterpriseSession.EnterpriseResolveSession.Select` | crates/yon-relay/src/session.rs:297-311 | Fixes provider and fresh state from the offer; a random failure changes nothing. |
| `EnterpriseSession.EnterpriseResolveSession.Callback` | crates/yon-relay/src/session.rs:314-337 | Trades the matching state for the identity; a wrong one ends in InvalidState, the only failing call that changes the session. |
| `EnterpriseSession.EnterpriseResolveSession.ValidateMember` | crates/yon-relay/src/session.rs:340-356 | Destroys the identity and ends Authenticated or rejected. |
| `EnterpriseSession.EnterpriseResolveSession.BeginResolve` | crates/yon-relay/src/session.rs:359-368 | Moves only from Authenticated. |
| `EnterpriseSession.EnterpriseResolveSession.Complete` | crates/yon-relay/src/session.rs:371-377 | Records the target and completes only from Resolving. |
| `EnterpriseSession.EnterpriseResolveSession.Terminate` | crates/yon-relay/src/session.rs:410-419 | Any live session ends and is wiped; an ended one refuses. |
| `AdmissionSteps.RunKeepsInv` | crates/yon-relay/src/enterprise_resolve.rs:255-463 | The ownership and phase invariant holds after every step of every interleaving. |
| `AdmissionTheorems.ResolvedIsJustified` | crates/yon-relay/src/enterprise_resolve.rs:400-445 | An exchange writes Resolved(p) only after, in order: a callback took its own state, on the route of its provider membership was verified, the owner committed without cancellation and before the callback deadline, the exchange received it before the session deadline, and the registry mapped its locator to p. |
| `AdmissionTheorems.TransactionIsFixed` | crates/yon-relay/src/enterprise_resolve.rs:300-345 | Locator, deadline, provider and state of an exchange never change once set. |
| `AdmissionTheorems.CompletionAgreesWithPhase` | crates/yon-relay/src/callback_session.rs:238-253 | A delivered completion is Admitted exactly when its session is Authenticated, and otherwise the session is terminal. |
| `AdmissionTheorems.ExchangeCallsSucceed` | crates/yon-relay/src/enterprise_resolve.rs:400-445 | The exchange's begin_resolve, complete and unavailable never fail, so it always writes an answer; `AdmissionAnswers` says which. |
| `AdmissionTheorems.SessionsAreLinear` | crates/yon-relay/src/callback_session.rs:143-198 | Each session is in at most one place, the table never exceeds its capacity, and a returned exchange leaves no entry. |
| `AdmissionTheorems.RegistrationNeverReturns` | crates/yon-relay/src/callback_session.rs:143-198 | A registration leaves the table at most once, whether taken, removed or swept, and never returns. |
| `AdmissionTheorems.TakenAtMostOnce` | crates/yon-relay/src/callback_session.rs:166-169 | A registration is taken by at most one callback, once. |
| `AdmissionTheorems.StartedAtMostOnce` | crates/yon-relay/src/callback_session.rs:335-374 | At most one verification ever starts for an exchange. |
| `AdmissionTheorems.VerifiedAtMostOnce` | crates/yon-relay/src/callback_session.rs:374-442 | At most one verification ever finishes for an exchange. |
| `AdmissionTheorems.AdmittedPageMeansCommitted` | crates/yon-relay/src/callback_session.rs:444-469 | A browser is shown Admitted only after the owner committed an Admitted completion for that callback. |
| `AdmissionAnswers.AnswersAreJustified` | crates/yon-relay/src/enterprise_resolve.rs:255-463 | Every answer an exchange writes, or the lack of one, goes back to its one cause: Expired to a passed deadline, Failed to an abort, a lost reply, a full or clashing table or a terminal session, Resolved and Unavailable to the owner's answer. |
| `AdmissionAnswers.AnswerHasCause` | crates/yon-relay/src/enterprise_resolve.rs:334-463 | Conversely each such cause makes the exchange write that answer and no other. |
| `AdmissionAnswers.ReceiveAnswers` | crates/yon-relay/src/enterprise_resolve.rs:400-460 | A received completion is answered by its session alone: terminal gives Failed, authenticated past the deadline Expired, authenticated before it goes on to resolve. |
| `AdmissionAnswers.ExpiredMeansDeadline` | crates/yon-relay/src/enterprise_resolve.rs:411-418 | Expired is written only once the session deadline has passed. |
| `AdmissionAnswers.UnavailableMeansNoMapping` | crates/yon-relay/src/enterprise_resolve.rs:420-445 | Unavailable is written only after the owner found no Active mapping for the exchange's own locator. |
| `AdmissionAnswers.TakeDecides` | crates/yon-relay/src/callback_session.rs:326-356 | A callback that waits for its state gets the very entry registered under it, unless the entry had expired when it asked, and is shown invalid otherwise; in both cases nobody finds that state again. |
| `AdmissionAnswers.RouteDecides` | crates/yon-relay/src/callback_session.rs:356-442 | A callback on a foreign route is invalid, a denied one rejected, a provider failure a platform error, and only a code on its own route is verified. |
| `AdmissionAnswers.VerificationDecides` | crates/yon-relay/src/callback_session.rs:374-430 | Each outcome of a verification decides what is shown and how the session ends. |
| `AdmissionAnswers.CommitDecides` | crates/yon-relay/src/callback_session.rs:225-255 | The owner commits a cancellation first, then a passed callback deadline, then what was decided, and exchange and browser get that same result. |
| `AdmissionAnswers.TimeoutDecides` | crates/yon-relay/src/callback_session.rs:444-469 | A callback that cannot report before its deadline is shown a platform error, or invalid on a foreign route, and the exchange is told of a platform error. |
| `AdmissionAnswers.RunWatches` | crates/yon-relay/src/enterprise_resolve.rs:345-400 | In every reachable state the exchange of a session that is registered, held by a callback or being reported still listens, or has signalled that it is gone. |
| `AdmissionAnswers.AdmissionReachesExchange` | crates/yon-relay/src/callback_session.rs:238-253 | An admission is committed only while its exchange still listens, and then the exchange gets it: no browser is shown Admitted for an exchange that had already gone. |
| `AdmissionAnswers.RejectedPageMeansRefused` | crates/yon-relay/src/callback_session.rs:374-442 | A rejection goes back to a denial by the user or a member the provider refused. |
| `AdmissionSuccess.AdmissionStaysPossible` | crates/yon-relay/src/enterprise_resolve.rs:255-463 | From every reachable state with a free slot a new exchange can still be carried to Resolved: the protocol never wedges. |
| `CallbackTable.CallbackRegistry.Sweep` | crates/yon-relay/src/callback_session.rs:196-198 | Drops exactly the entries whose deadline has passed. |
| `CallbackTable.CallbackRegistry.Insert` | crates/yon-relay/src/callback_session.rs:143-162 | Sweeps, refuses a used state and then a full table, otherwise adds exactly this entry; never over capacity. |
| `CallbackTable.CallbackRegistry.Take` | crates/yon-relay/src/callback_session.rs:166-169 | Sweeps, then hands out and removes the entry. |
| `CallbackTable.CallbackRegistry.Remove` | crates/yon-relay/src/callback_session.rs:173-175 | Hands out and removes the entry even after its deadline. |
| `CallbackTable.SweepAgrees` | crates/yon-relay/src/callback_session.rs:196-198 | The table object's sweep is the protocol's sweep. |
| `CallbackTable.TakeAgrees` | crates/yon-relay/src/callback_session.rs:225-255 | The owner's Take step does to the table what the object does, whether or not the callback still waits. |
| `CallbackTable.RegisterAgrees` | crates/yon-relay/src/callback_session.rs:225-255 | The owner's Register step inserts or refuses exactly as the object does. |
| `CallbackTable.RemoveAgrees` | crates/yon-relay/src/callback_session.rs:225-255 | The owner's Remove step does to the table what the object does. |
| `LoopTheorems.RegistryFollowsSwarm` | crates/yon-relay/src/service.rs:1163-1233 | Over every run the registry's connection set is the set of peers with tracked connections, at most 8 each, and its reservation set that of the peers whose last reservation event was an acceptance. |
| `LoopTheorems.RegistryStaysValid` | crates/yon-relay/src/service.rs:890-911 | Whatever events and calls the loop serves, the registry keeps single ownership, quotas and the Active rule. |
| `LoopTheorems.ResolvesExactlyAvailableHolders` | crates/yon-relay/src/service.rs:518-528 | In every run a lookup answers Resolved(p) exactly when p holds the locator, has a tracked connection, and its last reservation event was an acceptance. |
| `LoopTheorems.RejectionIsExact` | crates/yon-relay/src/service.rs:690-1043 | Over every run, including calls served after their task ended: no rejection marker outlives both exchange and connections, and of a rejected, idle peer exactly the connection whose rejection was lost is still open. |
| `LoopTheorems.LostIsCancelled` | crates/yon-relay/src/service.rs:1397-1424 | A lost rejection comes from an exchange of that peer that was cancelled over a delivered decision. |
| `LoopTheorems.ReadDecisionsClose` | crates/yon-relay/src/service.rs:1025-1033 | Without such a cancellation, every tracked connection of a rejected, idle peer has been told to close. |
| `LoopTheorems.MissedDecisionLeavesConnectionOpen` | crates/yon-relay/src/service.rs:732-796 | A concrete run in which a cancelled exchange leaves its peer rejected, idle and connected. |
| `LoopTheorems.MissesDecision` | crates/yon-relay/src/service.rs:890-911 | The same from every reachable state in which a peer is turned away. |
| `LoopHistories.BookIsHistory` | crates/yonder-net/src/connection.rs:92-131 | For every history without reused ids the book tracks exactly the connections that were established while fewer than eight of their peer were up and have not been closed since, each with the source it was established with. |
| `LoopHistories.RunTracks` | crates/yon-relay/src/service.rs:1163-1195 | The same of the loop's book after every turn of every run. |
| `LoopHistories.UniqueIsOnlyUp` | crates/yonder-net/src/connection.rs:127-131 | A connection is the unique one of its peer exactly when it alone is up. |
| `LoopHistories.IncomingStarts` | crates/yon-relay/src/service.rs:732-796 | An exchange starts exactly with a permit, for a peer that is idle, not rejected and has a single connection up, and is admitted on that connection. |
| `LoopHistories.CallMeetsRegistry` | crates/yon-relay/src/service.rs:1274-1315 | A call is put to the registry exactly when the connection it was admitted on is the only one of its peer that is up, with the source that connection was established with; without a source only a release is; every other call is answered Retry and changes nothing. |
| `LoopHistories.RejectedWasTurnedAway` | crates/yon-relay/src/service.rs:890-911 | A peer is rejected only after the registry answered one of its calls with Capacity. |
| `LoopHistories.TurnedAwayIsRejected` | crates/yon-relay/src/service.rs:890-911 | Every peer so answered is rejected, and stays so until it is idle and disconnected. |
| `LoopHistories.OnlyRejectedAreTold` | crates/yon-relay/src/service.rs:1173-1187 | No tracked connection of a peer that is not rejected has been told to close. |
| `RelayLoop.Relay.constructor` | crates/yon-relay/src/service.rs:631-643 | A new loop is valid, knows no peer and rejects none. |
| `RelayLoop.Relay.Unique` | crates/yonder-net/src/connection.rs:127-131 | Names a connection exactly when it is the peer's only tracked one. |
| `RelayLoop.Relay.ConnectionEstablished` | crates/yon-relay/src/service.rs:1173-1187 | Moves the loop as its step relation says: at most 8 tracked per peer, the registry told, an overflowing connection or one of a rejected peer told to close at once. |
| `RelayLoop.Relay.ConnectionClosed` | crates/yon-relay/src/service.rs:1188-1195 | Moves the loop as its step relation says: exactly this connection untracked (see `LoopHistories.BookIsHistory`), the registry told, the marker of an idle peer without connections dropped. |
| `RelayLoop.Relay.ReservationChanged` | crates/yon-relay/src/service.rs:1219-1229 | The registry's reservation set follows the event; nothing else changes. |
| `RelayLoop.Relay.RegistryIncoming` | crates/yon-relay/src/service.rs:732-796 | An exchange starts exactly for an idle, unrejected peer with a unique connection and a permit. |
| `RelayLoop.Relay.HandleRegistryCall` | crates/yon-relay/src/service.rs:1274-1315 | A call reaches the registry only on the still unique connection it was admitted on; otherwise nothing changes. It rejects exactly on Capacity. |
| `RelayLoop.Relay.ServeWaitingCall` | crates/yon-relay/src/service.rs:890-911 | The registry's decision is delivered to the waiting task, Capacity marks the peer, and a failing random source stops the loop without touching the registry. |
| `RelayLoop.Relay.ServeLateCall` | crates/yon-relay/src/service.rs:890-911 | The registry decides as for a waiting call; a rejection nobody waits for tells every tracked connection of the peer to close. |
| `RelayLoop.Relay.RegistryDone` | crates/yon-relay/src/service.rs:1025-1033 | A finished exchange that read a rejection closes its peer; a marker without connections is dropped. |
| `RelayLoop.Relay.MoveTask` | crates/yon-relay/src/service.rs:1397-1424 | What an exchange does on its own, as the step relation says. |
| `RelayLoop.Relay.ResolveTarget` | crates/yon-relay/src/service.rs:518-528 | Answers as the reference registry resolves and changes nothing the loop can see. |
| `RelayLoop.Relay.HandleResolveCall` | crates/yon-relay/src/service.rs:1352-1385 | Retry past the global quota, an error for a malformed request, Retry without a unique sourced connection or past the source quota, and in every other case the registry's resolution. |
| `RelayLoop.Relay.Turn` | crates/yon-relay/src/service.rs:690-1043 | Every turn of the object is a step of the relation. |
| `RelayLoop.Drive` | crates/yon-relay/src/service.rs:690-1043 | The object runs every sequence of events, up to a failing random source, as a run of the step relation, so every theorem about runs holds of it. |
| `TokenCache.UsableFor` | crates/yon-relay/src/provider.rs:183-186 | A token is usable for nine tenths of its lifetime, rounded up, below 50 minutes, and for all but five minutes of it from there on. |
| `TokenCache.ProviderTokenCache.Fresh` | crates/yon-relay/src/provider.rs:160-169 | Hands a token out only strictly before its early expiry, and clears a stale one. |
| `TokenCache.ProviderTokenCache.Store` | crates/yon-relay/src/provider.rs:172-190 | Stores exactly the positive lifetimes of up to a day that the clock can represent; otherwise keeps the old entry. |
| `TokenCache.ProviderTokenCache.InvalidateIf` | crates/yon-relay/src/provider.rs:195-203 | Clears the entry exactly when it holds the failed token. |
| `TokenCache.ProviderTokenCache.StoreThenFresh` | crates/yon-relay/src/verifier.rs:379-384 | A token just stored is always fresh at that instant. |
| `TokenCache.StoresBalanceClears` | crates/yon-relay/src/verifier.rs:369-389 | In every run stores equal expiries plus invalidations plus occupancy, so stores are at most one plus both. |
| `TokenCache.TokensRetireThemselves` | crates/yon-relay/src/provider.rs:192-203 | A cached token leaves only after its own early expiry or a report of that very token; a late report of another never erases it. |
| `TokenCache.HandedOutInTime` | crates/yon-relay/src/provider.rs:158-169 | Every token handed out was fetched in this run and is handed out strictly before its early expiry. |
| `TokenCache.FreshTokenIsShared` | crates/yon-relay/src/verifier.rs:369-389 | Until a fetched token is reported or its early expiry comes, every task that asks is handed it and nobody fetches again. |
| `TokenCache.FetchesDoNotOverlap` | crates/yon-relay/src/verifier.rs:374-385 | How the step relation encodes the mutex held across a fetch: until it is over no other task asks the cache or reports a token. |
| `TokenCache.Turn` | crates/yon-relay/src/verifier.rs:706-729 | The cache object moves as the step relation says. |
| `Verifier.Provider.Acquire` | crates/yon-relay/src/verifier.rs:369-389 | A fresh cached token is handed out without a request; a miss costs one, whose token is handed out exactly when it is well formed and can be stored. |
| `Verifier.Provider.AccessToken` | crates/yon-relay/src/verifier.rs:369-389 | A failure is that of the one fetch made and never a token failure; a provider that helps always yields a token. |
| `Verifier.Provider.Report` | crates/yon-relay/src/verifier.rs:387-389 | Afterwards the cache does not hold the failed token. |
| `Verifier.TooLargeMeans` | crates/yon-relay/src/verifier.rs:282-297 | An exchange counts as too large exactly when its response is over 64 KiB. |
| `Verifier.TokenInvalidMeans` | crates/yon-relay/src/verifier.rs:28-32 | An exchange counts as an invalid token exactly for the provider codes that say so. |
| `Verifier.RejectedMeans` | crates/yon-relay/src/verifier.rs:391-463 | An exchange counts as a rejection exactly for the codes that refuse code or member, or an answer that names no active one. |
| `Verifier.Provider.IdentifyWecom` | crates/yon-relay/src/verifier.rs:476-489 | The first loop ends with a user id this code bought or the failure of its last exchange, after at most one refresh, and gives up on an invalid token only after one. |
| `Verifier.Provider.Confirm` | crates/yon-relay/src/verifier.rs:491-503 | The status loop ends with an active answer for this user or the failure of its last exchange; no refresh if one was spent, and no invalid token is final before one. |
| `Verifier.Provider.VerifyWecom` | crates/yon-relay/src/verifier.rs:465-503 | At most 5 requests and one refresh against any provider; success implies this code bought the user id and the last answer says that user is active, and an active answer is never refused; errors follow the last exchange. |
| `Verifier.Provider.VerifyFeishu` | crates/yon-relay/src/verifier.rs:775-804 | The same with at most 6 requests, and the user belongs to the configured tenant. |
| `Verifier.Provider.VerifyMember` | crates/yon-relay/src/verifier.rs:239-262 | Empty codes and codes over 512 bytes are invalid, then unconfigured providers are a platform error, both without any request. Every other call asks the provider, at most 6 times: a member comes with evidence for this code and an active last answer, an active answer is never refused, an error is that of the last exchange, an accepted one is denied only for a token outliving the clock or an oversized user id, an invalid token is final only after a second one and a report. Against a provider that helps throughout, whatever the cache holds, the user it knows is a member. |
| `CallbackQuery.ValidPercentEncoding` | crates/yon-relay/src/callback.rs:471-487 | Accepts exactly the strings where every percent sign is followed by two hexadecimal digits. |
| `CallbackQuery.FillSlots` | crates/yon-relay/src/callback.rs:425-443 | Reports a duplicate exactly when a known key occurs twice, and otherwise holds the one value of each. |
| `CallbackQuery.ParseCallbackQuery` | crates/yon-relay/src/callback.rs:420-468 | A well-escaped query means what its recognised parameters mean; any other is refused as badly encoded. |
| `CallbackQuery.OrderAndUnknownsAreIrrelevant` | crates/yon-relay/src/callback.rs:430-443 | Queries with the same known parameters in any order, among any unknown ones, mean the same (sections 3.1 and 4.1.2 of RFC 6749). |
| `CallbackQuery.PermutationInvariant` | crates/yon-relay/src/callback.rs:430-443 | Permuting the decoded parameters changes nothing. |
| `CallbackQuery.DuplicatesAreRefused` | crates/yon-relay/src/callback.rs:440-442 | A query is refused as duplicate exactly when two parameters share a known name. |
| `CallbackQuery.CodeIsAlone` | crates/yon-relay/src/callback.rs:445-456 | A code comes out exactly when it and a 43-byte state are given once, it has 1 to 512 bytes, and no error parameter is given. |
| `CallbackQuery.ErrorHasNoCode` | crates/yon-relay/src/callback.rs:457-463 | A denial (`access_denied`) or provider failure (any other error) comes out exactly when a 43-byte state and a non-empty error are given once, no code is, and no detail repeats (section 4.1.2.1 of RFC 6749). |
| `CallbackQuery.StateRefusals` | crates/yon-relay/src/callback.rs:444-447 | Without a repetition the state is refused exactly when it is missing or not 43 bytes long. |
| `CallbackQuery.CodeRefusals` | crates/yon-relay/src/callback.rs:449-455 | A code is refused for itself exactly when it comes alone beside a good state, empty or over 512 bytes. |
| `Streaming.ResplitDigest` | crates/yon/src/file_semantics.rs:548-556 | However received blocks are cut, equal bytes give equal digests. |
| `Streaming.SourceFile.constructor` | crates/yon/src/file_semantics.rs:265-274 | Records size and modification identity from the opened handle. |
| `Streaming.SourceFile.Recheck` | crates/yon/src/file_semantics.rs:315-323 | Fails exactly when size or modification identity differs from the recorded one, or cannot be read. |
| `Streaming.SourceFile.ReadChunked` | crates/yon/src/file_semantics.rs:339-365 | Hands out the file's next bytes in a chunk of at most 64 KiB, never beyond the initial size and without underflow; nothing exactly at the end. It fails to read exactly when the operating system fails the call, and otherwise fails exactly when the file ended at or before the bytes already read, with the error of the recheck that follows. |
| `Streaming.Stream` | crates/yon/src/transfer.rs:894-937 | Against a source changing at any time the blocks are non-empty, bounded, contiguous and hashed in step, ending at exactly the initial size or in an error that something did to the file or a read explains. |
| `Streaming.Pump` | crates/yon/src/transfer.rs:894-955 | A completed send declares the initial size and the digest of exactly the bytes sent, of a source unchanged at the recheck; an abort has its cause; and a file nobody touches, read without failures, always arrives whole. |
| `Streaming.UnchangedFileArrives` | crates/yon/src/file_semantics.rs:339-365 | If no read saw the content change, a completed send carried exactly the file. |
| `Streaming.Sha256Of` | crates/yon/src/file_semantics.rs:1167-1180 | Short reads do not change the digest of a reader. |
| `FileSystem.WalkLast` | crates/yon/src/file_semantics.rs:471-489 | Probing a last name that is no link to follow looks into the directory its parent path leads to, through any links. |
| `FileSystem.AbsentMeansFree` | crates/yon/src/file_semantics.rs:471-489 | A path whose text ends in its last name and that is absent under a directory is a free entry, not even a dangling link, and conversely. |
| `FileSystem.AbsenceIsExact` | crates/yon/src/file_semantics.rs:471-489 | An absent path under a directory is a free entry exactly when its text has no trailing slash or dot, or its last name is not a link. |
| `FileSystem.PlansOverDanglingLink` | crates/yon/src/file_semantics.rs:437-448 | A target ending in a slash over a dangling link is planned although its name is taken. |
| `FileSystem.OnlyPlainPathsReceive` | crates/yon/src/file_semantics.rs:641-658 | Under a trailing slash or dot only a taken-over temporary name can be committed, never the transferred file. |
| `FileSystem.EnsureDestinationFree` | crates/yon/src/file_semantics.rs:471-489 | Succeeds exactly when the first probe, following a last link under a trailing slash or dot, found nothing and the parent was a directory at the second; each refusal is given exactly for what its probes met. |
| `FileSystem.BuildPlan` | crates/yon/src/file_semantics.rs:457-467 | Ready exactly when both probes are good, with the parent as temporary directory; a refusal names what the probes met. |
| `FileSystem.ResolveDestination` | crates/yon/src/file_semantics.rs:429-452 | With others changing the volume between probes, there is a plan exactly when the request means a path (base and plain default name, an explicit path found absent, or a plain name inside the directory found there) and both its probes are good; a plan lies below the base unless the target is absolute; each refusal has its cause. |
| `FileSystem.RelativeIsBelowBase` | crates/yon/src/file_semantics.rs:146-153 | A relative target is planned below the base directory by its own components, an absolute one as it stands. |
| `FileSystem.PlainNameLandsInside` | crates/yon/src/file_semantics.rs:437-448 | An accepted default name is one component of at most 1024 bytes and denotes an entry of the very directory it is put into. |
| `FileSystem.MoveSparesForeign` | crates/yon/src/file_semantics.rs:641-658 | A successful commit spares every foreign object if and only if the temporary name was not taken over. |
| `FileSystem.UnlinkSparesForeign` | crates/yon/src/file_semantics.rs:641-658 | Cleaning up spares every foreign object if and only if the temporary name is not a foreign file or link, and touches no other name. |
| `FileSystem.ReboundNameIsLost` | crates/yon/src/file_semantics.rs:641-658 | Cleaning up a taken-over temporary name removes a name whose object this transfer did not create. |
| `FileCommit.CleanupRemovesForeignName` | crates/yon/src/file_semantics.rs:578-580 | The same at the end of a concrete run of creation, take-over and cleanup. |
| `FileCommit.CommitsForeignFile` | crates/yon/src/file_semantics.rs:641-658 | Against a concrete program that takes the temporary name over before the commit, a whole transfer reports success and the final name leads to that program's bytes. |
| `FileCommit.CreateTemp` | crates/yon/src/file_semantics.rs:525-532 | The temporary file is a new object under the first generated name that was free when tried, in the planned directory; otherwise nothing was created. |
| `FileCommit.PrivateTempFile.WriteBlock` | crates/yon/src/file_semantics.rs:548-556 | Size, hasher and file content stay in step; a failed write harms nothing foreign. |
| `FileCommit.PrivateTempFile.Finish` | crates/yon/src/file_semantics.rs:564-573 | The sealed digest and size are those of exactly the bytes written. |
| `FileCommit.SealedTempFile.VerifyFinish` | crates/yon/src/file_semantics.rs:611-626 | Passes exactly when size and digest agree with what was declared; otherwise names the size first, then the digest. |
| `FileCommit.SealedTempFile.Commit` | crates/yon/src/file_semantics.rs:641-658 | Succeeds exactly when directory and name are allowed and the move is possible at that instant; the final name was free and leads to the sealed bytes if and only if the temporary name was not taken over; failure only tries to remove the temporary name. |
| `FileCommit.Receive` | crates/yon/src/transfer.rs:1150-1250 | Commits exactly when a name was free in time, nothing failed, size and digest are as declared and the move was possible when tried, and otherwise names the first of these that failed; every call keeps all other names and files, and spares foreign objects unless the temporary name had been taken over. |
| `FileCommit.Deliver` | crates/yon/src/transfer.rs:894-955 | Over any channel, after a commit the received file holds exactly the bytes the sender read, given that the digest does not collide on the two byte strings, and the final name leads to it if and only if the temporary name was not taken over; re-cutting alone never fails verification, and an untouched file is always sent whole. |

## Left out

- The relay's shutdown, cancellation at shutdown, logging, counters, listeners and signals: plumbing that settles no state modelled here.
- TLS, HTTP routing, HTML pages and connection deadlines of the callback server, and the outbound HTTP client: library calls.
- Configuration, identity and secret files, URL building, zeroization: single checks or memory hygiene a model cannot express.
- Wire encodings and JSON decoding: requests and responses arrive already typed, a body that does not decode is one value.
- The lexical splitting of a target path into components and the form decoding of a query: library functions, here parameters.
- Machine integers: sizes, counts and times are unbounded; only the clock overflow in the token cache is modelled, as `horizon`.
- The rate limiter's rounding of a second into nanoseconds: token buckets are exact over a common tick.
- Bounded, first-in first-out channels: the models deliver queued messages in any order and without a bound.
- The peer identifier too long to encode, a resolve error that peers known to the swarm cannot have.
- Windows path rules, I/O error-kind tables, and the Tokio twins of the file types: tables, or the same logic again.
- The link-then-unlink fallback of the no-replace rename: the rename is one atomic call.
- Other programs writing into the private temporary file itself: its mode keeps other users out, and the same user is trusted not to.
- Opening a source (device and directory refusals) and user cancellation inside the transfer loops: easy branches that end the transfer.
- RelayLoop.Relay.Turn: one clock reading per turn; the registry itself is modelled with both readings of its signal changes.
