# Verified model of the network engine

This project models the stateful core of a multiplayer network library and of its two
reference models, and proves what they promise over all inputs and all runs. It is written in
Dafny; `dafny verify dfyconfig.toml` checks everything.

## Components

| files | what they model |
|---|---|
| `InterestModel`, `InterestGrid`, `InterestWorld`, `InterestGraph`, `InterestBarriers`, `ReverseIndex`, `Sums` | the replication graph: registrations, grid footprints, reverse lists, counters, connections |
| `InterestGather`, `InterestClosure`, `InterestRequired`, `InterestEligible` | gathering what one connection may see, and the dependency closure of a prediction group |
| `ScopeProtocol`, `ScopeSafety`, `ScopeObjects` | the scope protocol of the spatial reference model, as two ends and an unreliable network |
| `JournalModel`, `JournalInvariant`, `JournalSteps`, `JournalInsert`, `JournalReconcile`, `JournalDecide`, `JournalRuns`, `JournalConfirmed`, `JournalBounds`, `JournalPeak`, `JournalOvershoot`, `JournalObject` | the predicted-event journal and the change stream it emits |
| `InboxModel`, `InboxInvariant`, `InboxSteps`, `InboxRuns`, `InboxTheorems`, `InboxWindow`, `InboxFull`, `InboxObject` | admission, preparation and commit of target-tick commands |
| `SchedulerModel`, `SchedulerOrder`, `SchedulerChoice`, `SchedulerTheorems`, `SchedulerAdmission`, `SchedulerDelivery`, `SchedulerRuns`, `SchedulerForeign`, `SchedulerDeadlines`, `SchedulerStarvation`, `SchedulerObject` | the token bucket, the due order, the two selection passes and the transmission loop |
| `RemoteModel`, `RemoteSamples`, `RemoteInvariant`, `RemotePresent`, `RemoteObject` | delayed remote samples and their presentation |
| `OutcomeModel`, `OutcomeRuns`, `OutcomeShared`, `OutcomeObject` | the ledger of terminal action results |
| `ClockModel`, `ClockTheorems`, `ClockLead`, `ClockObject` | clock estimation and prediction lead; offset and delay are those of section 8 of RFC 5905 |
| `TickRates`, `TickClocks` | rational tick rates and the catch-up clock |
| `ReplayModel`, `ReplayStep`, `ReplayServer`, `ReplayObject` | rollback and replay of the engineering reference model |
| `NetTypes` | shared result types and saturating arithmetic |

Each component follows one pattern. A `...Model` module gives the transitions of a value, with
every branch and error of the code. Invariant and run modules state what every transition keeps
and what follows for whole runs. An `...Object` module holds the class whose methods update its
fields in place, with the loops of the code, and whose contracts say that the new state is the
model's; ghost fields carry the history the run theorems speak about.

## How the code is read

- A subtraction that would underflow and a lookup that would fail stop the call; the model answers
  such a call with the fault and the state reached, and no call follows it in a run.
- Times are nanoseconds, positions and distances are exact reals, byte charges are natural
  numbers, and counters that saturate or are checked do so explicitly at their machine limits.
- Game callbacks (policies, rules, validators, pose and payload types) are pure functions and
  opaque values; a transport callback is a function from the position in the plan to its answer.
- The fingerprint of a command is the command itself, that is, the hash is taken to be injective.
- Ordered maps and sets are maps and sets. Where the code iterates over one, the model takes the
  elements in any order unless the result depends on it; members of a scheduling request are kept
  as an ordered list because the first offending member decides the error.
- The journal's sorted vectors of bindings and rejected actions are a map and a set; its entries
  stay a sorted list that is searched by bisection. A vector's capacity is its reserved size.
- The scope protocol is modelled as steps of both ends over a set of messages ever sent, so a
  message may be lost, repeated or arrive in any order; destroy messages may arrive at any time.
- The outcome sequence counter is shared: other ledgers may take numbers between two calls.

## Where code and words differ

- The reference server drops admissions that left its audit window without remembering the
  sequence, so an old sequence can be admitted and fire again: `EveryWindowForgets` is such a run
  for every window. It does not happen exactly when no firing command repeats a committed sequence
  (`FailsExactly`), which a client ensures by never using a sequence twice
  (`DistinctSequencesFireOnce`). Exactly-once execution as such is proved for the production inbox.
- An audit that may hold only as many records as there are future ticks does refuse commands
  (`ExactAuditFills`). `AuditFullExactly` gives the exact condition, and `RoomyAuditNeverFull`
  shows that one more record removes it.
- A plan does not say which scheduler issued it. A plan of another scheduler can make the credit
  or an age underflow or name an unknown unit (`ForeignPlanOverdraws`, `ForeignPlanIsAhead`,
  `ForeignPlanIsUnknown`). The model gives these as explicit breaks of the call.
  `HarmlessExactly` says which plans are safe, and a scheduler's own always are (`OwnRunsHold`).
- Age beats priority only for units that fit: `OverdueIsSent` says when an overdue unit is sent,
  and `OverdueIsStarved` is a run in which one never is.
- The journal checks its resident ceiling after it has stored a corrected payload. The configured
  peak has room for exactly that (`PeakIsNeverPassed`, `PeakIsReached`).
- A destroy notice is not one of the server's own scope messages. A ready scope is held by the
  client exactly unless one arrived (`ScopeSafety.Safe`); the server does not learn of it
  (`DestroyIsOneSided`).
- Validation of scheduling requests reports different errors for different orders of an invalid
  list (`ErrorDependsOnOrder`); whether a list is valid, and the plan, metrics and state of a valid
  one, do not depend on the order.

## Model

| member | source | states |
|---|---|---|
| `InterestEligible.Gather` | engine/net/src/interest/gather.rs:141-259 | an Ok result lists exactly the entities, with exactly the reasons, of a scan of every registration (permitted, and global, owned, semantic or within radius with hysteresis), plus the admitted prediction group; an error is reported exactly when a ceiling, the policy revision or the connection forces it, and nothing is ever truncated |
| `InterestEligible.GatherWorld` | engine/net/src/interest/gather.rs:141-244 | the same on the index alone: filtered candidates equal the full scan, and overflow answers name a ceiling that all lists together really exceed |
| `InterestEligible.FilteredIsFullScan` | engine/net/src/interest/gather.rs:204-217 | dropping candidates the policy, the scene or the distance excludes leaves the full scan |
| `InterestEligible.KeptIsScanned` | engine/net/src/interest/gather.rs:204-217 | the reasons kept for one candidate are those the scan gives it |
| `InterestEligible.SeenIsListed` | engine/net/src/interest/gather.rs:193-217 | an entity near enough to be seen is on a cell list the observers read |
| `InterestEligible.Predict` | engine/net/src/interest/gather.rs:218-244 | the prediction answer is the least closed set, or a refusal whose error names a cause that excludes every admissible set, or the entity limit when that set does not fit beside the scan; refused, no entry carries the required reason |
| `InterestEligible.LeastIsUnique` | engine/net/src/interest/gather.rs:283-329 | there is only one least closed set, so the worklist order does not matter |
| `InterestRequired.Required` | engine/net/src/interest/gather.rs:283-329 | terminates; Ok exactly when the set reachable from the roots exists, is permitted, prediction-complete and within both limits, and then it is that least closed set; each error names a cause that no admissible set avoids |
| `InterestRequired.Visit` | engine/net/src/interest/gather.rs:295-327 | one worklist turn keeps the visited set forced by the roots |
| `InterestRequired.Follow` | engine/net/src/interest/gather.rs:312-326 | following the edges of one entity queues each unseen dependency once |
| `InterestClosure.CauseExcludes` | engine/net/src/interest/gather.rs:283-329 | an entity or limit that stops the walk excludes every admissible closed set |
| `InterestClosure.AllForcedFits` | engine/net/src/interest/gather.rs:283-329 | whatever the walk has visited lies in every closed set that contains the roots |
| `InterestGather.CollectCandidates` | engine/net/src/interest/gather.rs:178-199 | reading the global, owner, semantic and cell lists names exactly the listed entities with their reasons and counts each visit, or reports a ceiling really exceeded |
| `InterestGather.ReadList` | engine/net/src/interest/gather.rs:161-199 | one more list adds exactly its entities under its reason |
| `InterestGather.Offer` | engine/net/src/interest/gather.rs:161-177 | adds each listed entity once and merges reasons, failing exactly when a ceiling would be passed |
| `InterestGather.Add` | engine/net/src/interest/gather.rs:161-177 | one candidate, one visit: refused exactly at a ceiling |
| `InterestGrid.FootprintCovers` | engine/net/src/interest/graph.rs:175-210 | an entity within its influence of a position is registered in the cell of that position |
| `InterestGrid.FootprintBounded` | engine/net/src/interest/graph.rs:181-210 | a footprint has no more cells than the span check allowed |
| `InterestGrid.RectangleSize` | engine/net/src/interest/graph.rs:181-210 | a span of cells has as many members as its sides multiply to |
| `InterestGraph.Graph.constructor` | engine/net/src/interest/graph.rs:109-129 | an empty graph satisfies the whole invariant |
| `InterestGraph.Create` | engine/net/src/interest/graph.rs:76-129 | a graph for every accepted configuration, the configuration error for every other |
| `InterestGraph.Graph.Apply` | engine/net/src/interest/graph.rs:222-344 | after success the indices, counters and limits are those recomputed from the changed registrations; after any error nothing has changed; which error is decided by the registrations alone |
| `InterestGraph.Graph.SetConnection` | engine/net/src/interest/graph.rs:371-407 | installs an authorised view with an exact observer total, or changes nothing |
| `InterestGraph.Graph.RemoveConnection` | engine/net/src/interest/graph.rs:408-419 | forgets the view and keeps the observer total exact |
| `InterestGraph.Graph.Prepare` | engine/net/src/interest/graph.rs:423-455 | frames strictly increase and ticks and policies never go back; otherwise nothing changes |
| `InterestBarriers.BarriersNeverGoBack` | engine/net/src/interest/graph.rs:158-169 | over any sequence of changes and frames, what passes the barriers is in order (ticks and policies never go back, frames strictly advance) and the world revision is exactly the number of changes that passed |
| `InterestBarriers.TurnedAwayExactly` | engine/net/src/interest/graph.rs:158-165 | a change is turned away at the barrier exactly when something of a later tick has passed, or every revision has been used |
| `InterestGraph.CheckView` | engine/net/src/interest/graph.rs:371-407 | the answer to a view in the order the checks are made |
| `InterestGraph.ConnectionInstalled` | engine/net/src/interest/graph.rs:371-407 | the observer total never underflows and stays the real sum |
| `InterestWorld.UpsertWorld` | engine/net/src/interest/graph.rs:222-344 | the upsert answer is that of the registrations alone, and an accepted one leaves every index equal to a recomputation, on the unchanged-footprint path too |
| `InterestWorld.ReplaceIdentified` | engine/net/src/interest/graph.rs:253-281 | the unchanged-footprint path is always accepted and replacing in place keeps every index exact |
| `InterestWorld.PredictedTotals` | engine/net/src/interest/graph.rs:287-313 | the predicted cell, membership and route counts equal the real ones after the commit |
| `InterestWorld.PredictedOutcome` | engine/net/src/interest/graph.rs:287-313 | checking the predictions decides exactly as checking the resulting world would |
| `InterestWorld.Reregister` | engine/net/src/interest/graph.rs:282-340 | moving an entity rebuilds exactly its own entries in every index |
| `InterestWorld.RemoveIndices` | engine/net/src/interest/graph.rs:346-366 | withdraws one entity from every list, leaving no empty list behind |
| `InterestWorld.InsertIndices` | engine/net/src/interest/graph.rs:317-339 | enters one entity in every list its geometry and routes name |
| `InterestWorld.CheckIdentity` | engine/net/src/interest/graph.rs:227-252 | the identity errors, in order, or everything an upsert needs |
| `InterestWorld.ChangeWorld` | engine/net/src/interest/graph.rs:222-344 | one change, applied to the whole world or not at all |
| `ReverseIndex.DropAll` | engine/net/src/interest/graph.rs:458-465 | removing a member empties no other list and drops lists that become empty |
| `ReverseIndex.InsertAll` | engine/net/src/interest/graph.rs:317-331 | entering a member mirrors its keys exactly |
| `ReverseIndex.MirrorIsUnique` | engine/net/src/interest/graph.rs:458-465 | only one index mirrors given registrations |
| `ReverseIndex.ListedIsHolders` | engine/net/src/interest/gather.rs:178-199 | a lookup answers as a scan of all members would |
| `ReverseIndex.PredictedKeys` | engine/net/src/interest/graph.rs:287-302 | the number of keys after a re-registration can be predicted from the touched lists |
| `ScopeSafety.RunIsSafe` | todo/reference_model/spatial_model.py:254-371 | over a network that drops, duplicates and reorders, with both ends in one connection epoch: a ready, non-leaving server scope is held by the client under that exact token at a version no older than the decoded one, and a dormant one at the desired version, exactly unless the client was told the entity is destroyed; the held scope is above the closed fence |
| `ScopeSafety.WithoutDestroyAllHeld` | todo/reference_model/spatial_model.py:254-371 | without destroy notices every ready, non-leaving scope of every run is held |
| `ScopeSafety.DestroyIsOneSided` | todo/reference_model/spatial_model.py:346-349 | a destroy notice takes the scope from the client while the server still counts it as ready |
| `ScopeSafety.RunKeepsInv` | todo/reference_model/spatial_model.py:254-371 | the inductive invariant holds in every reachable system |
| `ScopeSafety.InvIsSafe` | todo/reference_model/spatial_model.py:254-371 | the inductive invariant gives the safety statement, both directions |
| `ScopeSafety.NextPreserves` | todo/reference_model/spatial_model.py:254-371 | every step, of either end or of the network, keeps the invariant |
| `ScopeSafety.StateDeliveryPreserves` | todo/reference_model/spatial_model.py:338-366 | delivering a state, however late or repeated, keeps the invariant |
| `ScopeSafety.StateAckPreserves` | todo/reference_model/spatial_model.py:293-303 | an acknowledgement, however late or repeated, keeps the invariant: what it makes ready the client has decoded |
| `ScopeSafety.ExitAckPreserves` | todo/reference_model/spatial_model.py:317-322 | an exit acknowledgement keeps the invariant: it retires only the token that is leaving |
| `ScopeSafety.ClosedForGood` | todo/reference_model/spatial_model.py:338-366 | a closed scope is never held again in its connection epoch |
| `ScopeSafety.EpochsAdvance` | todo/reference_model/spatial_model.py:324-371 | the connection epochs of both ends only grow |
| `ScopeSafety.RetransmissionAccepted` | todo/reference_model/spatial_model.py:285-303 | a retransmitted pending state is accepted or already held |
| `ScopeSafety.RepairConverges` | todo/reference_model/spatial_model.py:281-303 | one uninterrupted send, delivery and acknowledgement brings the client to the desired version and settles dormancy |
| `ScopeObjects.ServerScopes.constructor` | todo/reference_model/spatial_model.py:262-269 | no scope and no counter, so every entity starts at incarnation one |
| `ScopeObjects.CreateServer` | todo/reference_model/spatial_model.py:262-269 | a server table for every positive configuration, the configuration error for every other |
| `ScopeObjects.ServerScopes.Enter` | todo/reference_model/spatial_model.py:270-279 | opens the next incarnation, or refuses and changes nothing |
| `ScopeObjects.ServerScopes.SendPending` | todo/reference_model/spatial_model.py:285-291 | the message for the desired version, remembered as in flight |
| `ScopeObjects.ServerScopes.StateAcknowledged` | todo/reference_model/spatial_model.py:293-303 | ready and dormant exactly when the acknowledged version allows it |
| `ScopeObjects.ServerScopes.Changed` | todo/reference_model/spatial_model.py:305-310 | a changed entity needs state again |
| `ScopeObjects.ServerScopes.Exit` | todo/reference_model/spatial_model.py:312-315 | marks the scope leaving |
| `ScopeObjects.ServerScopes.ExitAcknowledged` | todo/reference_model/spatial_model.py:317-322 | forgets exactly the acknowledged leaving scope |
| `ScopeObjects.ServerScopes.Reset` | todo/reference_model/spatial_model.py:324-327 | a strictly newer epoch forgets everything |
| `ScopeObjects.ClientScopes.constructor` | todo/reference_model/spatial_model.py:331-337 | nothing held, nothing closed, nothing destroyed |
| `ScopeObjects.ClientScopes.Apply` | todo/reference_model/spatial_model.py:338-366 | accepts or refuses a message and acknowledges what it decoded |
| `ScopeObjects.ClientScopes.ApplyStateMessage` | todo/reference_model/spatial_model.py:353-366 | holds the newest version of a scope above its fence |
| `ScopeObjects.ClientScopes.Reset` | todo/reference_model/spatial_model.py:368-371 | a strictly newer epoch forgets everything |
| `JournalRuns.StreamRefinesJournal` | engine/net/src/events/journal.rs:248-272 | in every reachable journal, folding all emitted creates, updates, cancels and resets yields exactly the live, revocable entries with their current payloads |
| `JournalRuns.ReachableEntries` | engine/net/src/events/journal.rs:248-291 | a decision is rejected exactly when the phase is, a payload is kept exactly when live, and a rejected action has no live or accepted entry |
| `JournalRuns.DecisionsAreFinal` | engine/net/src/events/journal.rs:477-558 | however a run goes on, until its command is retired or the scope reset an entry stays, keeps its decision, binding and lifetime, and once expired or rejected is never live again |
| `JournalRuns.SupersededStaysExpired` | engine/net/src/events/journal.rs:430-455 | an event overtaken by a newer generation of its entity is expired for the rest of the run |
| `JournalRuns.BindingsNeverShared` | engine/net/src/events/journal.rs:408-469 | no two events hold the same entity and generation |
| `JournalRuns.BindingsOnlyRise` | engine/net/src/events/journal.rs:408-469 | between scope resets the bindings emitted for an index have strictly rising generations |
| `JournalRuns.OneShotOnce` | engine/net/src/events/journal.rs:339-391 | over any run a one-shot key is created at most once |
| `JournalRuns.RetiredStaysSilent` | engine/net/src/events/journal.rs:562-593 | a retired command or an old scope never creates anything again |
| `JournalConfirmed.ConfirmedSurvives` | engine/net/src/events/journal.rs:292-296 | in any reachable journal neither the passing of time nor a replay takes an accepted, presented event off the screen |
| `JournalBounds.EveryStepIsBounded` | engine/net/src/events/journal.rs:168-216 | after every step of every run from an accepted configuration: records, fences and bindings are within their ceilings, retained bytes within the resident ceiling, and the change list within both transition ceilings with an exact payload total |
| `JournalPeak.PeakIsNeverPassed` | engine/net/src/events/journal.rs:56-80 | at every single write of every operation of every run, successful or failing, the journal, its staged copy, the change list and a payload copy under way together stay within the configured peak |
| `JournalPeak.TransactionTraced` | engine/net/src/events/journal.rs:198-216 | the moments an operation passes through lead from the copied journal to its result one write at a time, and none exceeds the resident ceiling by more than one payload |
| `JournalPeak.PresentTraced` | engine/net/src/events/journal.rs:370-391 | the one overshoot: a corrected payload is stored before it is measured, and costs at most one payload over the ceiling |
| `JournalOvershoot.PeakIsReached` | engine/net/src/events/journal.rs:376-379 | the peak is exact: an accepted configuration has a run with a moment that holds all of it, the staged copy over its own ceiling |
| `JournalBounds.RunBounded` | engine/net/src/events/journal.rs:46-90 | an accepted configuration is never outgrown, whatever the run |
| `JournalBounds.BindTidy` | engine/net/src/events/journal.rs:408-469 | a new fence is taken only with room for it, and superseding one needs none |
| `JournalBounds.RetireBounded` | engine/net/src/events/journal.rs:562-577 | retiring only releases |
| `JournalRuns.RunKeeps` | engine/net/src/events/journal.rs:198-593 | from any good journal every run keeps the invariant over its whole change stream and undoes no decision |
| `JournalRuns.ExecuteKeeps` | engine/net/src/events/journal.rs:198-216 | every successful operation keeps the invariant over the extended stream and creates only current keys |
| `JournalRuns.RetireKeeps` | engine/net/src/events/journal.rs:562-577 | retiring a command prefix drops nothing that is shown and forgets no played one-shot |
| `JournalRuns.RestartKeeps` | engine/net/src/events/journal.rs:578-593 | a new scope empties the view and fences every old key |
| `JournalReconcile.ReconcileSteps` | engine/net/src/events/journal.rs:299-407 | reconciliation keeps the invariant: corrections, re-presentations, rejections and disappearances all match the stream |
| `JournalReconcile.CorrectSteps` | engine/net/src/events/journal.rs:339-391 | one corrected event keeps it, in each of its branches |
| `JournalReconcile.PresentedOk` | engine/net/src/events/journal.rs:370-391 | what a corrected event emits is what a consumer needs to follow its entry |
| `JournalReconcile.VanishSteps` | engine/net/src/events/journal.rs:393-404 | cancelling vanished predictions keeps it |
| `JournalDecide.ResolveSteps` | engine/net/src/events/journal.rs:477-514 | accepting, binding or rejecting an event keeps it |
| `JournalDecide.BindSteps` | engine/net/src/events/journal.rs:408-469 | binding an entity keeps it, superseding the older generation first |
| `JournalDecide.RejectActionSteps` | engine/net/src/events/journal.rs:515-542 | rejecting a whole action keeps it, leaves every entry of the action rejected and fences later ones |
| `JournalDecide.ExpireSteps` | engine/net/src/events/journal.rs:545-558 | explicit expiry keeps it |
| `JournalDecide.FenceHolder` | engine/net/src/events/journal.rs:430-455 | the event behind a fence still holds the fenced entity while retained |
| `JournalSteps.AdvanceSteps` | engine/net/src/events/journal.rs:273-291 | expiring unconfirmed predictions keeps it |
| `JournalSteps.CancelSteps` | engine/net/src/events/journal.rs:248-272 | a cancellation keeps it |
| `JournalInsert.EnsureSteps` | engine/net/src/events/journal.rs:224-247 | giving an identity its entry keeps it and finds that entry |
| `JournalInsert.PosSplits` | engine/net/src/events/journal.rs:140-143 | the search position splits the sorted entries |
| `JournalInvariant.ReplaceKeeps` | engine/net/src/events/journal.rs:181-272 | one entry may move, if the emitted change explains the move |
| `JournalObject.Locate` | engine/net/src/events/journal.rs:140-143 | binary search finds the key or its place |
| `JournalObject.FindOrInsert` | engine/net/src/events/journal.rs:224-247 | bisection finds or makes room for the entry, so the entries stay sorted |
| `JournalObject.AdvanceStaged` | engine/net/src/events/journal.rs:273-291 | the expiry loop computes the staged expiry |
| `JournalObject.CorrectStaged` | engine/net/src/events/journal.rs:318-392 | the correction loop computes the staged corrections |
| `JournalObject.VanishStaged` | engine/net/src/events/journal.rs:393-404 | the disappearance loop computes the staged cancellations |
| `JournalObject.RejectStaged` | engine/net/src/events/journal.rs:515-542 | the rejection loop computes the staged rejections |
| `JournalObject.Bind` | engine/net/src/events/journal.rs:408-469 | binding over the sorted entries, found by bisection, gives the staged binding of the model: the older generation is cancelled before the newer is recorded |
| `JournalObject.Keep` | engine/net/src/events/journal.rs:571-574 | keeps exactly the entries above the watermark, in order |
| `JournalObject.Create` | engine/net/src/events/journal.rs:46-90 | a journal for every valid scope and configuration, the right error for every other |
| `JournalObject.EventJournal.constructor` | engine/net/src/events/journal.rs:82-90 | an empty journal satisfies the invariant |
| `JournalObject.EventJournal.Commit` | engine/net/src/events/journal.rs:198-216 | a staged copy is taken over whole; an error leaves the journal unchanged and emits nothing |
| `JournalObject.EventJournal.Advance` | engine/net/src/events/journal.rs:294-296 | transactional; keeps the invariant over the emitted history |
| `JournalObject.EventJournal.Reconcile` | engine/net/src/events/journal.rs:299-407 | transactional; keeps the invariant over the emitted history |
| `JournalObject.EventJournal.Resolve` | engine/net/src/events/journal.rs:477-514 | transactional; keeps the invariant over the emitted history |
| `JournalObject.EventJournal.RejectAction` | engine/net/src/events/journal.rs:515-542 | transactional; keeps the invariant over the emitted history |
| `JournalObject.EventJournal.Expire` | engine/net/src/events/journal.rs:545-558 | transactional; keeps the invariant over the emitted history |
| `JournalObject.EventJournal.RetireThrough` | engine/net/src/events/journal.rs:562-577 | refused over live history, otherwise drops exactly the prefix |
| `JournalObject.EventJournal.Reset` | engine/net/src/events/journal.rs:578-593 | only to a greater scope, with a reset change |
| `InboxTheorems.RunKeepsPromises` | engine/net/src/commands.rs:260-466 | over every run: each accepted command is what the commit of its target consumed, with its own input and actions; no sequence executes twice even after eviction; substitutes only where nothing was accepted; the audit refuses only when all it may hold is pending; receipts and continuity are those of the committed ticks |
| `InboxWindow.RunKeepsWindow` | engine/net/src/commands.rs:269-319 | over every run submissions stay within the rate and no retained sequence lies beyond the window |
| `InboxWindow.AdmitKeepsWindow` | engine/net/src/commands.rs:260-319 | no admission, accepted or refused, passes the rate or the window |
| `InboxWindow.FinalizeKeepsWindow` | engine/net/src/commands.rs:430-466 | each commit moves the window up by at least one sequence |
| `InboxTheorems.AcceptedIsConsumedAtItsTarget` | engine/net/src/commands.rs:341-358 | an accepted command is queued until its target tick and is what that tick consumed |
| `InboxTheorems.NoSequenceExecutesTwice` | engine/net/src/commands.rs:292-319 | two executed ticks with one sequence are one tick |
| `InboxTheorems.SubstituteMeansNothingAccepted` | engine/net/src/commands.rs:399-422 | a substituted tick had no accepted command |
| `InboxTheorems.AuditFullExactly` | engine/net/src/commands.rs:360-379 | a new sequence is refused exactly when every record the audit may hold is pending, which needs as few records as future ticks |
| `InboxTheorems.RoomyAuditNeverFull` | engine/net/src/commands.rs:189-198 | with more audit records than future ticks the audit-full error cannot occur |
| `InboxFull.ExactAuditFills` | engine/net/src/commands.rs:360-379 | every audit with no more records than future ticks is filled by one command for each of those ticks, and then answers that it is full |
| `InboxTheorems.PendingIffAudited` | engine/net/src/commands.rs:341-358 | an audit record is pending exactly when its command is queued |
| `InboxTheorems.PendingBounds` | engine/net/src/commands.rs:320-340 | queued targets lie in the future window, so there are at most that many |
| `InboxTheorems.ErrorsOnlyCount` | engine/net/src/commands.rs:260-319 | an error costs a submission and changes nothing else |
| `InboxTheorems.ReceiptsAreContiguous` | engine/net/src/commands.rs:450-465 | receipts are the latest committed ticks without a gap |
| `InboxTheorems.SubstituteFollowsCommittedTicks` | engine/net/src/commands/continuity.rs:35-48 | the substitute is the held last executed input while the gap is within the grace, else neutral, and has no actions |
| `InboxTheorems.RunOnlyGrows` | engine/net/src/commands.rs:260-466 | one more call only adds to what was accepted and committed |
| `InboxRuns.Run` | engine/net/src/commands.rs:184-466 | every state reached by calls on a new inbox satisfies the invariant |
| `InboxRuns.NextKeeps` | engine/net/src/commands.rs:260-466 | every call keeps the invariant |
| `InboxRuns.FinalizeKeeps` | engine/net/src/commands.rs:430-466 | committing moves exactly the prepared selection into the log |
| `InboxRuns.AdmitCases` | engine/net/src/commands.rs:260-291 | what a command must pass before its sequence is looked at |
| `InboxRuns.AdmitValidCases` | engine/net/src/commands.rs:292-319 | admission files a command, or answers without touching anything |
| `InboxRuns.PrepareReady` | engine/net/src/commands.rs:383-426 | preparing changes nothing but the selection, which is what the next tick will consume |
| `InboxSteps.FileKeeps` | engine/net/src/commands.rs:320-379 | filing, with or without eviction, keeps the invariant and accepts nothing twice |
| `InboxSteps.FilingOrder` | engine/net/src/commands.rs:360-379 | the audit order stays a list of the audited sequences, each once |
| `InboxObject.ValidateActions` | engine/net/src/commands.rs:282-290 | the first offending edge decides the error |
| `InboxObject.FindIdle` | engine/net/src/commands.rs:360-379 | the oldest record that is not pending |
| `InboxObject.MakeRoom` | engine/net/src/commands.rs:360-379 | a full audit drops its oldest record that is not pending and raises the retired watermark over it; with none to drop it is refused and nothing changes |
| `InboxObject.Create` | engine/net/src/commands.rs:184-221 | an inbox for every valid owner and configuration, the right error for every other |
| `InboxObject.CommandInbox.constructor` | engine/net/src/commands.rs:206-221 | a new inbox satisfies the invariant |
| `InboxObject.CommandInbox.Admit` | engine/net/src/commands.rs:260-358 | the answer and new state of admission; the log grows exactly by an accepted command |
| `InboxObject.CommandInbox.PrepareNext` | engine/net/src/commands.rs:383-426 | the next selection, and nothing else changes |
| `InboxObject.CommandInbox.Commit` | engine/net/src/commands.rs:430-466 | the prepared tick is finalised; the pending record it clears is always there |
| `SchedulerRuns.TokenEnvelope` | engine/net/src/scheduling.rs:281-310 | between any two points of any run, whatever plans are sent and whoever issued them, the bytes of completed calls are at most the burst plus the rate times the elapsed time |
| `SchedulerRuns.OwnRunsHold` | engine/net/src/scheduling.rs:233-413 | a scheduler that sends only plans it issued never breaks in any run: neither credit nor an age underflows and no unit is unknown |
| `SchedulerRuns.MildRunsHold` | engine/net/src/scheduling.rs:233-413 | the same for any plans that are refused, or paid for and not ahead of the clock, when they are sent |
| `SchedulerRuns.HarmlessExactly` | engine/net/src/scheduling.rs:384-413 | whatever the transport answers, a call completes with every history behind the clock exactly when the plan is refused, or is paid for by known units and is empty or not ahead of the clock |
| `SchedulerRuns.OwnPlansAreHarmless` | engine/net/src/scheduling.rs:384-413 | a plan of the scheduler itself, newest or not, meets that condition |
| `SchedulerRuns.TransmitCharges` | engine/net/src/scheduling.rs:398-411 | for any plan a completed call charges exactly what was accepted, and a broken one never more than there was |
| `SchedulerDelivery.NeverBreaksExactly` | engine/net/src/scheduling.rs:384-413 | no answer of the transport underflows the credit or meets an unknown unit exactly when the plan is refused or paid for |
| `SchedulerDelivery.BreaksUnlessCovered` | engine/net/src/scheduling.rs:398-411 | for given answers the loop runs through exactly when the accepted units are covered and known, and then has charged and stamped just those |
| `SchedulerDelivery.FirstFault` | engine/net/src/scheduling.rs:398-411 | a broken loop stopped at its first accepted unit that the credit does not cover, or that has no history |
| `SchedulerDelivery.StaysPastExactly` | engine/net/src/scheduling.rs:404-405 | a paid plan leaves the histories behind the clock, whatever the transport answers, exactly when it is empty or not ahead of it |
| `SchedulerDelivery.ScheduleBreaksExactly` | engine/net/src/scheduling.rs:306-310 | the age subtraction of a scheduling call underflows exactly when the call passes its checks and some requested unit has a history ahead of the barrier |
| `SchedulerForeign.ForeignPlanOverdraws` | engine/net/src/scheduling.rs:403 | a current plan of another scheduler makes the credit subtraction underflow |
| `SchedulerForeign.ForeignPlanIsUnknown` | engine/net/src/scheduling.rs:404 | a current plan of another scheduler reaches a unit without a history |
| `SchedulerForeign.ForeignPlanIsAhead` | engine/net/src/scheduling.rs:310 | a paid plan of another scheduler from a later tick is sent in full, and the next scheduling call underflows on the age |
| `SchedulerRuns.RefillExact` | engine/net/src/scheduling.rs:281-288 | the saturating refill is the exact capped one |
| `SchedulerRuns.SchedulePays` | engine/net/src/scheduling.rs:303-380 | from a sound state scheduling never breaks, and a new plan is covered by the credit and its units are known |
| `SchedulerRuns.TransmitKeeps` | engine/net/src/scheduling.rs:384-413 | a plan that is paid for and not ahead of the clock, wherever it came from, does not break the call, keeps the invariant and makes every older plan stale |
| `SchedulerTheorems.GreedyPlan` | engine/net/src/scheduling.rs:338-372 | the plan fits its budget, due units are selected or deferred and never both, each selected one is due and feasible, and every deferred feasible unit is larger than what is left |
| `SchedulerTheorems.CriticalUnitsFirst` | engine/net/src/scheduling.rs:338-352 | critical units are taken first while below the reserve; one left out found the reserve used or did not fit |
| `SchedulerTheorems.OverdueFirst` | engine/net/src/scheduling.rs:325-337 | no unit with time left comes before an overdue one, and the longest overdue comes first |
| `SchedulerDeadlines.OverdueIsSent` | engine/net/src/scheduling.rs:325-362 | over any run of turns in each of which the leading unit fits what the critical pass leaves, an overdue feasible unit is sent after at most as many turns as there are feasible units with no later deadline, whatever the priorities |
| `SchedulerDeadlines.LeaderSentExactly` | engine/net/src/scheduling.rs:338-362 | the first feasible unit of the order is sent exactly when the critical pass takes it or leaves room for it |
| `SchedulerDeadlines.LeaderIsRival` | engine/net/src/scheduling.rs:325-337 | while a feasible unit is overdue, the leading unit is that one or one whose deadline is no later |
| `SchedulerDeadlines.TurnProgress` | engine/net/src/scheduling.rs:306-411 | a turn whose leading unit fits and that does not send the overdue one leaves it with fewer rivals |
| `SchedulerStarvation.OverdueIsStarved` | engine/net/src/scheduling.rs:338-362 | without that condition, for as many turns as there are serials, a unit within the burst and the transport limit is overdue and never sent |
| `SchedulerTheorems.ChoiceIgnoresOrder` | engine/net/src/scheduling.rs:303-372 | plan and metrics depend only on which units are requested |
| `SchedulerAdmission.ScheduleIgnoresOrder` | engine/net/src/scheduling.rs:233-380 | permuting a request slice that is not refused gives the same plan, metrics and scheduler state, or the same break |
| `SchedulerAdmission.CheckRequestsExactly` | engine/net/src/scheduling.rs:253-279 | sequential validation accepts exactly the lists whose requests are authorised and share no id and no member |
| `SchedulerAdmission.ValidityIgnoresOrder` | engine/net/src/scheduling.rs:253-279 | whether a list of requests is valid does not depend on its order |
| `SchedulerAdmission.ErrorDependsOnOrder` | engine/net/src/scheduling.rs:253-279 | which error an invalid list is answered with does: two requests, both orders, two errors |
| `SchedulerOrder.OrderIsUnique` | engine/net/src/scheduling.rs:325-337 | two ordered lists of the same units are the same list |
| `SchedulerOrder.RankedSpec` | engine/net/src/scheduling.rs:325-337 | ranking orders the due units and loses none |
| `SchedulerOrder.PrecedesTotal` | engine/net/src/scheduling.rs:325-337 | of two different units exactly one comes first |
| `SchedulerChoice.DueUnitsExactly` | engine/net/src/scheduling.rs:308-324 | the due units are those never sent or older than their period |
| `SchedulerChoice.OpenPassSpec` | engine/net/src/scheduling.rs:353-362 | the second pass leaves out only what no longer fits |
| `SchedulerChoice.CriticalPassSpec` | engine/net/src/scheduling.rs:342-352 | the first pass takes critical units below the reserve |
| `SchedulerObject.Validate` | engine/net/src/scheduling.rs:253-279 | the validation loops compute the verdict and the requested ids |
| `SchedulerObject.CollectDue` | engine/net/src/scheduling.rs:306-324 | the due loop computes the due units, the infeasible count and the oldest age, or stops exactly when some age would underflow |
| `SchedulerObject.SelectUnits` | engine/net/src/scheduling.rs:338-362 | the two selection loops compute the selection |
| `SchedulerObject.CountOutcome` | engine/net/src/scheduling.rs:363-371 | the metrics loop counts deferrals and missed deadlines |
| `SchedulerObject.SendAll` | engine/net/src/scheduling.rs:398-411 | for any credit, histories and plan the transmission loop charges and stamps unit after unit, and stops where a subtraction or a lookup would fail |
| `SchedulerObject.Create` | engine/net/src/scheduling.rs:196-216 | a scheduler for every valid configuration, the configuration error for every other |
| `SchedulerObject.TokenScheduler.constructor` | engine/net/src/scheduling.rs:206-216 | starts with a full bucket |
| `SchedulerObject.TokenScheduler.Credit` | engine/net/src/scheduling.rs:222-232 | the most whole bytes within the burst that the stored credit and the time since then pay for |
| `SchedulerObject.TokenScheduler.Schedule` | engine/net/src/scheduling.rs:233-380 | the new state and plan, an error and no change, or the break of an age; a sound scheduler stays sound and does not break |
| `SchedulerObject.TokenScheduler.Transmit` | engine/net/src/scheduling.rs:384-413 | any plan may be sent; the new state and answer are the model ones, and a plan that is harmless, as all its own are, leaves a sound scheduler sound |
| `RemotePresent.PresentedIsHonest` | engine/net/src/interpolation/mod.rs:337-475 | in every reachable buffer a presented pose belongs to the scope asked for; interpolation has the cursor strictly between adjacent samples at its exact fraction; the pose time never passes the latest sample plus the cap |
| `RemotePresent.ShotsAreFaithful` | engine/net/src/interpolation/mod.rs:357-462 | each status fixes cursor, pose time and value: a pose is a sample, the blend of the two adjacent samples at the exact fraction, or the policy projection over the exact lead, cut at the cap |
| `RemotePresent.BeyondFaithful` | engine/net/src/interpolation/mod.rs:396-461 | past the newest sample the pose is the policy projection over exactly the lead or the cap, over a nonzero interval; what the policy declines is frozen at the newest sample |
| `RemotePresent.ExitedScopeStaysDark` | engine/net/src/interpolation/mod.rs:320-336 | once a scope has been left nothing is presented for it again, whatever arrives |
| `RemoteInvariant.Run` | engine/net/src/interpolation/mod.rs:195-336 | over any run accounting equals the true sums, histories stay ordered and bounded, identities only advance, tracks are never forgotten and the cursor never goes back |
| `RemoteInvariant.ReceiveKeeps` | engine/net/src/interpolation/mod.rs:200-317 | a received sample keeps all of that |
| `RemoteInvariant.ExitKeeps` | engine/net/src/interpolation/mod.rs:320-336 | leaving a scope releases exactly its own charge and keeps its fence |
| `RemoteInvariant.TracksCovered` | engine/net/src/interpolation/mod.rs:273-288 | replacing a history never underflows the totals |
| `RemoteInvariant.RecountAudits` | engine/net/src/interpolation/mod.rs:273-302 | the incremental accounting equals a recount |
| `RemoteInvariant.NewerTrans` | engine/net/src/interpolation/mod.rs:491-508 | newer identities compose |
| `RemoteSamples.MergedSpec` | engine/net/src/interpolation/mod.rs:251-271 | the merged history is ordered, holds the new sample, and drops only what left the span or the oldest when full |
| `RemoteSamples.MergedOk` | engine/net/src/interpolation/mod.rs:251-271 | the merged history is of one identity and within every bound |
| `RemoteObject.Create` | engine/net/src/interpolation/mod.rs:141-164 | a buffer for every valid configuration, the right error for every other |
| `RemoteObject.RemoteBuffer.constructor` | engine/net/src/interpolation/mod.rs:155-164 | an empty buffer satisfies the invariant |
| `RemoteObject.RemoteBuffer.Advance` | engine/net/src/interpolation/mod.rs:195-199 | the cursor follows the delayed clock and never goes back |
| `RemoteObject.RemoteBuffer.SetDelay` | engine/net/src/interpolation/mod.rs:190-192 | a larger delay pauses the cursor, nothing more |
| `RemoteObject.RemoteBuffer.Receive` | engine/net/src/interpolation/mod.rs:200-317 | the answer and new state of a sample, moving fences only forward |
| `RemoteObject.RemoteBuffer.Exit` | engine/net/src/interpolation/mod.rs:320-336 | retires exactly the current scope of the entity |
| `RemoteObject.RemoteBuffer.Present` | engine/net/src/interpolation/mod.rs:337-475 | an honest presentation of the current state |
| `OutcomeRuns.TerminalIsFinal` | engine/net/src/outcomes.rs:199-240 | while a result is retained it never changes and stays with its owner |
| `OutcomeRuns.AwaitedIsKept` | engine/net/src/outcomes.rs:283-298 | over any run an undelivered result stays as it is until it has been reported or its lane closed |
| `OutcomeRuns.PendingIsKept` | engine/net/src/outcomes.rs:188-198 | a reservation goes only by being finished or by its own cancellation, never to make room |
| `OutcomeRuns.Run` | engine/net/src/outcomes.rs:119-315 | over any run all three budgets hold and results are numbered in the order they were recorded |
| `OutcomeShared.SharedNumbersAreUnique` | engine/net/src/outcomes.rs:12-18 | however calls on two ledgers of one counter interleave, no number is given twice |
| `OutcomeShared.NextJoined` | engine/net/src/outcomes.rs:199-240 | a call on one ledger keeps both ledgers sound and their numbers apart |
| `OutcomeRuns.FitsIffAvailable` | engine/net/src/outcomes.rs:92-107 | a reservation fits all three budgets exactly when it asks for no more than is available |
| `OutcomeRuns.NextEvolves` | engine/net/src/outcomes.rs:119-315 | what one call may do to one record |
| `OutcomeRuns.NewKeySet` | engine/net/src/outcomes.rs:151-176 | a reservation adds exactly the keys asked for and not yet known |
| `OutcomeModel.IndexIsUnique` | engine/net/src/outcomes.rs:119-315 | only one delivery index agrees with given records |
| `OutcomeModel.DequeueIndexes` | engine/net/src/outcomes.rs:260-280 | reporting or removing takes exactly one entry out of the index and no empty lane stays |
| `OutcomeModel.OwnersRemove` | engine/net/src/outcomes.rs:299-315 | the owner count goes down with the record |
| `OutcomeObject.LaneIsScan` | engine/net/src/outcomes.rs:248-258 | a lane of the index lists exactly what a scan of the records finds |
| `OutcomeObject.Create` | engine/net/src/outcomes.rs:61-85 | a ledger for every valid configuration, the error for every other |
| `OutcomeObject.Sequencer.constructor` | engine/net/src/outcomes.rs:14-18 | numbering starts at one |
| `OutcomeObject.OutcomeLedger.constructor` | engine/net/src/outcomes.rs:77-84 | an empty ledger satisfies the invariant |
| `OutcomeObject.OutcomeLedger.AvailableFor` | engine/net/src/outcomes.rs:92-107 | how many more results the owner may reserve |
| `OutcomeObject.OutcomeLedger.Reserve` | engine/net/src/outcomes.rs:129-186 | all keys of a command are reserved within all three budgets, or nothing changes; counts and index stay exact |
| `OutcomeObject.OutcomeLedger.CancelReservations` | engine/net/src/outcomes.rs:188-198 | releases exactly the still pending keys |
| `OutcomeObject.OutcomeLedger.Finish` | engine/net/src/outcomes.rs:199-240 | records a result once under the next number and indexes it exactly while its lane is open |
| `OutcomeObject.OutcomeLedger.MarkReported` | engine/net/src/outcomes.rs:260-280 | marks all keys or none |
| `OutcomeObject.OutcomeLedger.CloseDelivery` | engine/net/src/outcomes.rs:119-126 | closes exactly the lane and its records |
| `OutcomeObject.OutcomeLedger.Expire` | engine/net/src/outcomes.rs:283-298 | drops exactly the settled results that are old enough |
| `OutcomeObject.OutcomeLedger.Remove` | engine/net/src/outcomes.rs:299-315 | drops one record with its count and index entry |
| `OutcomeObject.OutcomeLedger.Unreported` | engine/net/src/outcomes.rs:248-258 | exactly the finished, unreported, unclosed results of a lane, in finish order |
| `ClockTheorems.OffsetErrorBound` | engine/net/src/synchronization.rs:31-53 | with a fixed true offset and nonnegative path delays the sample has the true round trip and an offset off by at most half of it, plus rounding |
| `ClockTheorems.RunOffsetBound` | engine/net/src/synchronization.rs:154-188 | over any run of such exchanges the target offset is within half the smallest round trip in the window of the truth, plus rounding |
| `ClockTheorems.EstimatesTrackLocalTime` | engine/net/src/synchronization.rs:191-213 | over any run estimates never go backward and stay within the configured slew of local time |
| `ClockTheorems.ErrorNeverGrows` | engine/net/src/synchronization.rs:191-213 | while the target offset stays, the distance of the estimate from the target never grows |
| `ClockTheorems.SlewedStep` | engine/net/src/synchronization.rs:197-206 | one estimate moves exactly by its allowance toward the target |
| `ClockTheorems.BestIsBest` | engine/net/src/synchronization.rs:167-174 | the chosen sample has the smallest round trip of the window |
| `ClockTheorems.TargetOffsetBound` | engine/net/src/synchronization.rs:167-186 | the bound of the best sample carries over to the target |
| `ClockLead.TargetsStrictlyIncrease` | engine/net/src/synchronization.rs:321-345 | no target is ever assigned twice or out of order |
| `ClockLead.Run` | engine/net/src/synchronization.rs:289-345 | over any run the lead stays between one and twelve and targets rise by at most twelve |
| `ClockLead.OverbufferedExactly` | engine/net/src/synchronization.rs:289-318 | the lead is lowered exactly when at most a quarter of at least eight slacks are two ticks or less |
| `ClockLead.LeadMovesExactly` | engine/net/src/synchronization.rs:289-318 | a missed deadline raises the lead by one, only a clearly overbuffered window lowers it, by one, and both start a new window |
| `ClockObject.FindBest` | engine/net/src/synchronization.rs:167-174 | the scan for the best sample |
| `ClockObject.CreateEstimator` | engine/net/src/synchronization.rs:108-131 | an estimator for every valid configuration |
| `ClockObject.CreateController` | engine/net/src/synchronization.rs:252-262 | a controller for every lead from one to twelve |
| `ClockObject.ClockEstimator.constructor` | engine/net/src/synchronization.rs:122-131 | starts unsynchronised |
| `ClockObject.ClockEstimator.Observe` | engine/net/src/synchronization.rs:154-188 | the target offset stays that of the best sample in the window |
| `ClockObject.ClockEstimator.EstimateServerTime` | engine/net/src/synchronization.rs:191-213 | the new estimate, never earlier than the last and within the slew |
| `ClockObject.ClockEstimator.EstimateServerElapsed` | engine/net/src/synchronization.rs:215-219 | the estimate relative to the epoch |
| `ClockObject.ClockEstimator.Restart` | engine/net/src/synchronization.rs:226-232 | forgets everything but the configuration |
| `ClockObject.LeadController.constructor` | engine/net/src/synchronization.rs:252-262 | starts without targets |
| `ClockObject.LeadController.ObserveArrivalSlack` | engine/net/src/synchronization.rs:289-318 | the loop over recent slacks decides the lead as the model does, within its bounds |
| `ClockObject.LeadController.Assign` | engine/net/src/synchronization.rs:321-345 | the next target, or a pause, or a latched resynchronisation |
| `TickRates.ElapsedIffDeadlinePassed` | engine/net/src/types.rs:112-131 | a tick has elapsed exactly when its deadline has passed |
| `TickRates.InstantsIncrease` | engine/net/src/types.rs:112-116 | deadlines strictly increase |
| `TickRates.DeadlineExists` | engine/net/src/types.rs:112-116 | every 64-bit tick has a deadline |
| `TickRates.PhaseIsExact` | engine/net/src/types.rs:120-125 | tick and phase are the elapsed time in phase units, rounded down once |
| `TickClocks.Run` | engine/net/src/clock.rs:85-120 | with any catch-up limit, any polling order executes ticks 1, 2, 3, ... once each, none before its deadline, and each flush publishes exactly when a snapshot multiple ran since the last one |
| `TickClocks.AdvanceKeeps` | engine/net/src/clock.rs:85-120 | one poll keeps all of that |
| `TickClocks.AdvanceCatchesUp` | engine/net/src/clock.rs:85-120 | a poll commits all due ticks or a full burst of them |
| `TickClocks.DueIffDeadlinePassed` | engine/net/src/clock.rs:64-75 | debt counts exactly the ticks whose deadline has passed |
| `TickClocks.TickClock.constructor` | engine/net/src/clock.rs:41-58 | starts at tick zero |
| `TickClocks.TickClock.AdvanceTicked` | engine/net/src/clock.rs:85-120 | the catch-up loop commits one tick after the other; the log of executed ticks grows by exactly those |
| `ReplayObject.ReconciledIsServer` | todo/reference_model/model.py:233-266 | a client that reconciles from the server state at k, having run the same inputs and dependencies, holds the server states from k through its own tick |
| `ReplayModel.ReplayMatchesServer` | todo/reference_model/model.py:74-88 | replaying the same inputs from a state of a run gives the later states of that run |
| `ReplayStep.AmmoIsConserved` | todo/reference_model/model.py:74-88 | in every run ammunition and shots fired add up to the initial load |
| `ReplayStep.ShotsAreSpaced` | todo/reference_model/model.py:74-88 | two shots of a run are at least three ticks apart |
| `ReplayStep.PushesAddUp` | todo/reference_model/model.py:74-88 | while the pushes of a run never add up past the limit, none is lost: the velocity is their sum |
| `ReplayStep.PushingHarderNeverHurts` | todo/reference_model/model.py:74-88 | of two runs the one pushed no less at every tick is never slower and never behind, clamped or not |
| `ReplayStep.ReachIsBounded` | todo/reference_model/model.py:74-88 | between two ticks of a run the distance is at most eight a tick |
| `ReplayStep.CooldownAfterShot` | todo/reference_model/model.py:74-88 | the cooldown counts down from a shot one tick at a time |
| `ReplayModel.MissingExactly` | todo/reference_model/model.py:242-245 | replay input is missing exactly for the part that fell out of the history |
| `ReplayModel.PredictKeeps` | todo/reference_model/model.py:218-231 | prediction retains exactly the commands of the history window |
| `ReplayObject.Replay` | todo/reference_model/model.py:246-257 | the staged replay collects every state and event |
| `ReplayObject.ReferenceServer.constructor` | todo/reference_model/model.py:111-127 | starts at the initial state |
| `ReplayObject.ReferenceServer.Submit` | todo/reference_model/model.py:129-148 | the admission answer; queues and remembers exactly the accepted command |
| `ReplayObject.ReferenceServer.Advance` | todo/reference_model/model.py:150-174 | extends the run by exactly one step with the queued command or a substitute that never fires; every field becomes that of the model, on success and on failure |
| `ReplayServer.DistinctSequencesFireOnce` | todo/reference_model/model.py:129-174 | a run of a new server whose accepted commands have different sequences never executes an action twice, whatever the audit forgets |
| `ReplayServer.FailsExactly` | todo/reference_model/model.py:150-166 | in every run a tick fails exactly when its command fires under a sequence whose action was committed before |
| `ReplayServer.EveryWindowForgets` | todo/reference_model/model.py:170-172 | for every audit window, run by run: fire, wait until the audit has dropped the admission, and the same sequence is accepted again and fails its tick |
| `ReplayServer.RunKeeps` | todo/reference_model/model.py:129-174 | over every run the queue holds accepted commands of later ticks and the committed actions are exactly those of the commands that fired |
| `ReplayObject.ReferenceClient.constructor` | todo/reference_model/model.py:205-216 | starts at the initial state |
| `ReplayObject.ReferenceClient.Predict` | todo/reference_model/model.py:218-231 | one predicted tick, or an error and no change |
| `ReplayObject.ReferenceClient.Reconcile` | todo/reference_model/model.py:233-266 | replays from the authoritative state, or changes nothing |

## Left out

- Process supervision, transport, HTTP, configuration, rendering and the game: input and output, or wrappers over other libraries.
- Wire formats, payload codecs and hashing: library behaviour; sizes are parameters and hashes injective.
- `pack_redundant`, `codec.rs`, `input.rs`, `session.rs`, `ownership.rs`, `delivery.rs`, `combat_timing.rs`, `interest/canonical.rs`: short, and would mostly add easy members.
- `prediction/manager.rs`, production scopes and baselines and `synchronization/committed.rs` are not part of this model; `prediction/history.rs` and `replication/attachments.rs` only make sense with them.
- Floating-point rounding in the grid, in distances and in the interpolation fraction: reals are exact, so a fraction is zero only at a sample.
- The second policy-revision check of `gather`: a policy that is a value cannot change its revision during the call.
- Allocation failures when reserving vectors.
- `LeadController::bootstrap`, `estimate_server_tick` and the segment counter of the presentation cursor: single expressions.
- The presentation journal, baselines, group assembly, historical poses and spawn registry of the engineering reference model: the production journal is modelled instead, and the rest would add easy members.
- The spatial reference model's grid, culling and budget code: the production graph and scheduler are modelled instead.
- Resets of the clock estimator end a run: bounds between estimates are stated from one reset to the next.
