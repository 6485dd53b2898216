# FlowDesk core, modelled and proved

A Dafny model of the decision logic in FlowDesk's core package, with proofs of what
that logic keeps over every input, every order of the evidence and every run.
`dafny verify dfyconfig.toml` checks the whole project.

Six parts of the program are modelled.

* **Lane stall projection** (`LaneOrder`, `LaneProjection`, `LaneTheorems`, on the
  generic `PreferenceFold`): one snapshot per lane is chosen out of unordered evidence
  by a hand-written preference, then classified, counted and sorted.
* **Dispatch once** (`DispatchLedger`, `CanonicalRecord`, `EvidenceBundle`,
  `ApprovalSource`, `SessionEvidence`, `Precall`, `ProductionGate`, `DispatchOnce`,
  `ReservationRace`): the bounded ledger of dispatch attempts, the canonical printer
  behind the evidence hash, the one-shot approval, the pre-call check, the production
  gate, and contenders over one stored ledger.
* **Availability cache and reviewer fan-out** (`AvailabilityCache`, `ReviewerFanout`).
* **Compaction** (`CompactionLock`, `CompactionRun`, `ProgressWalk`): the directory lock
  as interleaved steps, one archive-and-delete run, and the directory walk.
* **Policy-pack merge** (`PolicyMerge`).
* **Agent and model selector** (`Selector`, `SelectorRegistry`): the selector over any
  table, and the built-in table of seven roles.

`Collections`, `StableSort`, `Texts` and `Checks` hold what these share: JavaScript
strings as sequences of UTF-16 code units, the stable array sort, joining, and the
string checks of the record validators, which stay abstract. Every result holds for
whatever strings those checks accept.

Code that loops and updates is a method with invariants, proved against a function or
a predicate; code that is one expression is a function. The SHA-256 digest, the locale
order of sort keys, ISO formatting and payload scanning are function parameters, and
a result that needs one of them to be injective or an order says so in its `requires`.

What the proofs turned up, each stated below as a lemma:

* The terminal "safety pass" of the lane projection never changes its result, on any
  evidence at all (`LaneOrder.SafetyPassRedundant`).
* The lane preference is not an order on all evidence: with one of three heartbeats
  unnumbered it can have a cycle (`LaneOrder.HeartbeatCycle`), and a heartbeat claiming
  `task_result` can make ties intransitive (`LaneOrder.TaskResultHeartbeatBreaksTies`).
  Exactly when it is a strict weak order is `LaneOrder.WeakOrderIff`. On any evidence the
  choice is independent of order exactly when one snapshot is preferred to all others
  (`LaneOrder.ChoiceOrderFreeIff`).
* The text behind the evidence hash identifies a bundle only among bundles whose fields
  hold no separator (`EvidenceBundle.BundleIdentity`); among all bundles every one of two
  or more entries shares its text with another (`EvidenceBundle.SharedIff`).
* A consumed approval passes its own validator only if the text of its consumption time
  passes the payload scan, which consuming does not run (`ApprovalSource.ConsumedIsAccepted`).
  A lifetime that passes its check opens a window exactly if it is at least a
  millisecond or the issue is before the epoch (`ApprovalSource.WindowNonEmptyIff`).
* The pre-call check permits revoked approvals, and does not compare actions; promotion
  refuses what it lets through (`DispatchOnce.PermittedRevokedAndForAnyAction`,
  `DispatchOnce.PermittedAcceptedIff`). A manifest whose binding hash was computed for an
  action is still tied to it (`DispatchOnce.ComputedBindingFixesAction`).
* The gate state `approved` is dead (`ProductionGate.NeverApproved`).
* Two compactors can own the lock at once without any clock running out
  (`CompactionLock.TwoHolders`), even if nobody checks between directory and stamp
  (`CompactionLock.PromptRunStillBreaks`); which checks are a danger is exact
  (`CompactionLock.CheckThreatensIff`).
* Compaction deletes a file whose archiving failed, deletes what was written between its
  two passes, and files of one name in two directories overwrite each other in the
  archive, the last two without an error being counted
  (`CompactionRun.ArchiveFailureLosesContent`, `CompactionRun.RewriteInBetweenLosesContent`,
  `CompactionRun.SameNameLosesContent`; exactly when: `CompactionRun.ConservedIff`).
* `deletion_behavior` can depend on the order of packs of equal priority
  (`PolicyMerge.DeletionDependsOnOrder`; exactly when: `PolicyMerge.DeletionOrderFreeIff`).
* The selector's mismatch branch is dead: every entry of the built-in table is compatible
  with its family (`SelectorRegistry.MismatchIsDead`), so loosening a request never blocks
  it (`SelectorRegistry.LooseningIsSafe`). Over another table it could
  (`SelectorRegistry.LooseningCanExposeMismatch`; exactly when:
  `Selector.LooseningKeepsSelectionIff`).
* The cache validator accepts repeated entry ids, and then an unavailable model is
  eligible (`AvailabilityCache.DuplicateIdLetsIneligibleThrough`).
* The fan-out planner accepts a stagger that makes its ready plan fail its own validator
  (`ReviewerFanout.ReadyPlanMayBeInvalid`), and a plan that the launch blocks, not the
  revalidation, never passes it (`ReviewerFanout.BlockedPlanValidIff`).

## Model

| member | source | states |
|---|---|---|
| LaneOrder.ChosenTerminalIff | packages/core/src/lane-stall-projection.ts:116-140 | On any evidence the choice is a terminal state exactly when there is a task result, or a terminal record at the latest instant |
| LaneOrder.ChosenActiveIff | packages/core/src/lane-stall-projection.ts:116-140 | And an active state exactly when there is neither, and an active record at the latest instant |
| LaneOrder.ChosenIsLast | packages/core/src/lane-stall-projection.ts:141-151 | On well-formed evidence the choice is, among records of its task-result flag, instant and kind of state, a lifecycle record if there is one, and the last of its source by sequence number or id |
| LaneOrder.StateKinds | packages/core/src/lane-stall-projection.ts:10-29 | Which states are active and which terminal, by name |
| LaneOrder.WinnerRankOrderFree | packages/core/src/lane-stall-projection.ts:92-152 | For any evidence whatever, the chosen snapshot's task-result flag, instant and kind of state (terminal, active or neither) are the same for every order of the evidence |
| LaneOrder.SafetyPassRedundant | packages/core/src/lane-stall-projection.ts:266-297 | For any evidence, the two-fold algorithm with its terminal safety pass chooses what the single fold chooses |
| LaneOrder.TaskResultSticks | packages/core/src/lane-stall-projection.ts:126-131 | Once a lane has a task result, added lifecycle and heartbeat snapshots leave the chosen state `task_result` |
| LaneOrder.WeakOrderIff | packages/core/src/lane-stall-projection.ts:126-152 | On any evidence the preference is a strict weak order exactly when an unnumbered heartbeat standing by id between two numbered ones of its rank finds their numbers in the same order, and heartbeats and task results sharing a rank leave nothing to compare within their kind |
| LaneOrder.PreferStrictWeakOrder | packages/core/src/lane-stall-projection.ts:126-152 | In particular on well-formed snapshots the preference is irreflexive, transitive and negatively transitive |
| LaneOrder.PreferNegativelyTransitive | packages/core/src/lane-stall-projection.ts:126-152 | "Not preferred" is transitive on well-formed snapshots |
| LaneOrder.ChoiceOrderFreeIff | packages/core/src/lane-stall-projection.ts:92-152 | On any evidence the choice is the same for every permutation exactly when some snapshot is preferred to all others |
| LaneOrder.WellFormedOrderFreeIff | packages/core/src/lane-stall-projection.ts:92-152 | On well-formed evidence that is: exactly when the undominated snapshots are all equal |
| LaneOrder.ChoicePermutationInvariant | packages/core/src/lane-stall-projection.ts:92-152 | If heartbeats of one instant carry distinct sequence numbers and other evidence distinct ids, the choice is the same for every permutation |
| LaneOrder.HeartbeatCycle | packages/core/src/lane-stall-projection.ts:139-151 | Three heartbeats of one instant, one without a sequence number, are preferred in a cycle and the choice depends on their order |
| LaneOrder.TaskResultHeartbeatBreaksTies | packages/core/src/lane-stall-projection.ts:126-152 | A heartbeat claiming state `task_result` is tied with two task results that are not tied with each other: without the premise ties are no equivalence |
| PreferenceFold.OrderFreeIff | packages/core/src/lane-stall-projection.ts:92-114 | A keep-the-preferred fold over an asymmetric relation is independent of arrangement exactly when one element is preferred to all others |
| PreferenceFold.ChampionIffUndominatedUnique | packages/core/src/lane-stall-projection.ts:92-114 | For a strict weak order there is such an element exactly when the undominated elements coincide |
| LaneProjection.PickPerLane | packages/core/src/lane-stall-projection.ts:92-114 | The loop over a map computes, for each lane, the fold of that lane's parsed evidence, in first-seen lane order |
| LaneProjection.PickLatestLifecyclePerLane | packages/core/src/lane-stall-projection.ts:266-297 | The two passes give each lane with parseable evidence exactly its chosen snapshot, and no other lane |
| LaneProjection.Project | packages/core/src/lane-stall-projection.ts:452-607 | The rows are those of all lanes, sorted by class and age; the totals and the worst class are those of the rows; an unparseable time gives the empty projection |
| LaneTheorems.OneRowPerLane | packages/core/src/lane-stall-projection.ts:482-491 | The projected lanes are distinct and are exactly those with parseable evidence |
| LaneTheorems.TotalsAddUp | packages/core/src/lane-stall-projection.ts:519-530 | Active, inconsistent, terminal and unknown rows add up to the number of rows |
| LaneTheorems.WorstIsHead | packages/core/src/lane-stall-projection.ts:436-450 | The reported worst class is the class of the first sorted row |
| LaneTheorems.WorstIsLeastRank | packages/core/src/lane-stall-projection.ts:436-450 | The worst class bounds the class of every row and is attained |
| LaneTheorems.SilenceDecides | packages/core/src/lane-stall-projection.ts:493-510 | A lane that is active and consistent is stalled, late or normal exactly as every piece of its evidence, snapshots and progress alike, is older than the stall or the late threshold, or some piece is not |
| LaneTheorems.AgeInSeconds | packages/core/src/lane-stall-projection.ts:359-399 | The reported age is the whole seconds since the latest of all evidence of an active lane, or since the chosen record of any other, and zero before |
| LaneTheorems.RowAlerts | packages/core/src/lane-stall-projection.ts:428-434 | A row is abnormal exactly if inconsistent, stalled or late; its hint names an inconsistency first, else how the lane failed |
| LaneTheorems.OverdueIff | packages/core/src/lane-stall-projection.ts:532-542 | A heartbeat is overdue, by whole seconds, exactly when its expected instant is readable and past and no progress came since |
| LaneTheorems.ThresholdsMean | packages/core/src/lane-stall-projection.ts:459-468 | A minute and three minutes unless asked otherwise, never below ten seconds and always a second apart |
| LaneTheorems.EvidenceDates | packages/core/src/lane-stall-projection.ts:181-338 | A heartbeat is dated by its observation, other records by their update, else their creation; a signal without a readable instant counts from 0 |
| LaneTheorems.LaneNeverImproves | packages/core/src/lane-stall-projection.ts:359-399 | With the evidence fixed, a later observation never improves a lane's class or lowers its age |
| LaneTheorems.WorstNeverImproves | packages/core/src/lane-stall-projection.ts:436-467 | With the evidence fixed, a later observation never improves the worst class |
| LaneTheorems.TaskResultDecides | packages/core/src/lane-stall-projection.ts:126-131 | A parseable task result in the evidence puts its lane's row in state `task_result`, classed terminal or inconsistent |
| LaneTheorems.TerminalLane | packages/core/src/lane-stall-projection.ts:259-399 | A lane's row is in a terminal state exactly when its evidence holds a task result or a terminal record nothing is newer than, and its class is then terminal or inconsistent |
| LaneTheorems.InconsistentIff | packages/core/src/lane-stall-projection.ts:299-357 | A lane is inconsistent exactly when an inconsistency record says so and the lane's last progress is not both later than all of them and in a working phase |
| LaneTheorems.ClassificationOrderFree | packages/core/src/lane-stall-projection.ts:486-530 | If ids name records, class and elapsed seconds of every lane are independent of the order of the evidence, however heartbeats are numbered |
| LaneTheorems.RowOrderFree | packages/core/src/lane-heartbeat.ts:136-142 | On heartbeats the validator accepts, with distinct sequence numbers per lane and instant, the whole row of every lane is independent of the order of the evidence |
| LaneTheorems.TotalsOrderFree | packages/core/src/lane-stall-projection.ts:482-607 | If ids name records, every count and the worst class of the projection are the same for every order of the evidence |
| LaneTheorems.ProjectionOrderFree | packages/core/src/lane-stall-projection.ts:436-607 | On validated evidence with distinct sequence numbers every order gives the same rows, and the same sorted list exactly when lanes of one class and age stand in the same first-seen order |
| StableSort.SortAgreesIff | packages/core/src/lane-stall-projection.ts:436-450 | Two arrangements of the same elements sort alike exactly when tied elements stand in the same order in both |
| DispatchLedger.ValidateLedger | packages/core/src/dispatch-idempotency.ts:126-184 | The loop with two "seen" sets accepts exactly ledgers of at most 200 valid entries with distinct attempts and distinct keys |
| DispatchLedger.LedgerFieldsDecide | packages/core/src/dispatch-idempotency.ts:101-184 | Exchanging a time or a key in a valid ledger keeps it valid exactly if the new one is readable and clean |
| DispatchLedger.EvaluateReplay | packages/core/src/dispatch-idempotency.ts:186-226 | Replay-safe exactly for valid ids and a valid ledger holding neither attempt nor key; each label exactly for its cause |
| DispatchLedger.PrepareReservation | packages/core/src/dispatch-idempotency.ts:228-314 | The successor ledger appends one reserved entry, exactly when the old ledger is valid with room, attempt and key are new and the texts are acceptable |
| DispatchLedger.PrepareUpdate | packages/core/src/dispatch-idempotency.ts:316-397 | An update changes state and time of the one entry holding attempt and key, never back to `reserved`, and is prepared exactly when allowed |
| DispatchLedger.RunSound | packages/core/src/dispatch-idempotency.ts:228-397 | Over every run of reservations and updates the ledger stays valid, (attempt, key) pairs stay in place and only grow at the end, and no settled entry becomes reserved again |
| DispatchLedger.RecordedForever | packages/core/src/dispatch-idempotency.ts:186-226 | An attempt or key once in the ledger is replay-blocked in every later ledger of the run |
| DispatchLedger.ReservedOnce | packages/core/src/dispatch-idempotency.ts:228-314 | In one run, two stored reservations that share an attempt or a key are the same step |
| DispatchLedger.ReserveIffReplaySafe | packages/core/src/dispatch-idempotency.ts:228-314 | With acceptable texts, a reservation succeeds exactly when the replay check is clear and the ledger has room |
| ReservationRace.SwapRunIsLedgerRun | packages/core/src/dispatch-idempotency.ts:228-397 | If contenders store what they prepared only over the ledger they read, the stored ledgers of every interleaving form one run of the ledger |
| ReservationRace.OneReservation | packages/core/src/dispatch-idempotency.ts:228-314 | In every such interleaving at most one reservation of an attempt, and one of a key, is stored, and every stored one stays in the ledger |
| ReservationRace.ReservedTwiceIff | packages/core/src/dispatch-idempotency.ts:228-314 | If they store without comparing, an attempt can be reserved twice exactly when it can be reserved at all |
| ReservationRace.ForgottenIff | packages/core/src/dispatch-idempotency.ts:186-397 | Without comparing, a stored reservation can become replay-safe again exactly when it can be made at all and another reservation, of another attempt and key, or some update can be prepared on the same ledger |
| ReservationRace.BlindForgets | packages/core/src/dispatch-idempotency.ts:186-314 | A second reservation stored without comparing erases the first, whose attempt and key then pass the replay check again |
| CanonicalRecord.UnescapeEscape | packages/core/src/production-approval-source.ts:450-452 | Reading undoes JSON string escaping for every string of code units, surrogates paired or not |
| CanonicalRecord.OntoUnique | packages/core/src/production-approval-source.ts:445-453 | Unique parse: equal texts of two values, each followed by something that can follow a value, have equal values and equal rests |
| CanonicalRecord.PrintOnto | packages/core/src/production-approval-source.ts:445-453 | The printer prints exactly the canonical value: keys sorted at every level, `undefined` and non-finite numbers as null |
| CanonicalRecord.PrintDeterminesCanon | packages/core/src/production-approval-source.ts:445-453 | Two values print alike exactly when their canonical forms are equal |
| CanonicalRecord.PrintInjective | packages/core/src/production-approval-source.ts:445-453 | Two JSON values print alike exactly when they are equal up to the key order of their objects |
| CanonicalRecord.PrintEncodable | packages/core/src/production-approval-source.ts:445-453 | The printed text of any value, unpaired surrogates in its strings included, holds no control unit and no unpaired surrogate, so its UTF-8 encoding loses nothing |
| EvidenceBundle.BundleIdentity | packages/core/src/production-approval-source.ts:462-474 | Two bundles without separators in their fields, line breaks or not, have one hash preimage exactly when they are rearrangements of each other, records up to key order |
| EvidenceBundle.TamperDetected | packages/core/src/production-approval-source.ts:462-474 | Replacing one record keeps the hash preimage exactly when the new record is the same up to key order |
| EvidenceBundle.LineSharedIff | packages/core/src/production-approval-source.ts:471-471 | Another entry has the same line exactly when some field holds a separator |
| EvidenceBundle.SharedIff | packages/core/src/production-approval-source.ts:462-474 | A bundle shares its preimage with one that is no rearrangement of it exactly when it has two or more entries, or one with a separator in a field |
| EvidenceBundle.MaterialInjective | packages/core/src/production-approval-source.ts:481-496 | The provider-binding text determines model, action, workflow, attempt and profile |
| EvidenceBundle.MaterialSharedIff | packages/core/src/production-approval-source.ts:481-496 | Another binding has the same provider-binding text exactly when some field holds a separator |
| ApprovalSource.Issue | packages/core/src/production-approval-source.ts:508-624 | An approval is issued exactly for a confirmed, timely request whose evidence holds every required class, whose window opens, and whose derived id, hashes and texts are acceptable |
| ApprovalSource.PhraseDecides | packages/core/src/production-approval-source.ts:537-540 | Of all typed phrases exactly the expected one, of at least eight characters, gets the approval |
| ApprovalSource.TrivialPhraseRefused | packages/core/src/production-approval-source.ts:537-538 | A phrase repeated exactly is enough only if it has at least eight characters after trimming |
| ApprovalSource.BoundaryDecides | packages/core/src/production-approval-source.ts:528-536 | Exactly the pairs typed phrase with external user confirmation, and signed intent with external signed intent, are issued |
| ApprovalSource.ClockDecides | packages/core/src/production-approval-source.ts:548-559 | The issue time may lie at most 120 000 ms from the clock, either way |
| ApprovalSource.LifetimeDecides | packages/core/src/production-approval-source.ts:542-546 | Exactly the lifetimes up to 1 800 000 ms that open a window are issued |
| ApprovalSource.EvidenceDecides | packages/core/src/production-approval-source.ts:561-573 | Exactly evidence with an entry of every required class, and some class required, is enough |
| ApprovalSource.SomeRequestIsIssued | packages/core/src/production-approval-source.ts:508-624 | A request that is issued exists |
| ApprovalSource.ApprovalIdMeans | packages/core/src/production-approval-source.ts:588-588 | The derived id has at most 120 units, and tells attempt and nonce if these have 110 together |
| ApprovalSource.ApprovalRefsDecide | packages/core/src/production-approval-source.ts:122-271 | Exchanging a ref, the model or a hash of a valid approval keeps it valid exactly if the new value passes the check of its field |
| ApprovalSource.ApprovalShapeDecides | packages/core/src/production-approval-source.ts:122-271 | Means and boundary pair up, the window is open and readable, and the workflow is the one asked for, exactly |
| ApprovalSource.ConsumptionDecides | packages/core/src/production-approval-source.ts:122-271 | The three consumption fields come together or not at all, and name the bound attempt, another audit and a later, clean instant, exactly |
| ApprovalSource.IssuedValidIff | packages/core/src/production-approval-source.ts:590-606 | Past the guards on the request, the record passes its validator exactly when the window opens, the derived id and both hashes have the right form, and the four scanned texts are clean |
| ApprovalSource.WindowNonEmptyIff | packages/core/src/production-approval-source.ts:542-590 | The window of a positive lifetime is non-empty exactly when the lifetime is at least a millisecond or the issue is before the epoch |
| ApprovalSource.ConsumedInsideWindow | packages/core/src/production-approval-source.ts:272-367 | An issued approval is consumed with its own binding exactly strictly inside its window under a fresh audit ref; the window is at most thirty minutes |
| ApprovalSource.SubMillisecondNeverIssued | packages/core/src/production-approval-source.ts:542-590 | From the epoch on a lifetime below a millisecond passes the lifetime check but is never issued |
| ApprovalSource.ConsumedIsAccepted | packages/core/src/authority-promotion.ts:270-290 | A consumed approval passes its validator and the promotion check exactly when its consumption time passes the payload scan; issued < consumed < expires |
| ApprovalSource.NeverConsumedTwice | packages/core/src/production-approval-source.ts:307-307 | A consumed approval cannot be consumed again by any request |
| ApprovalSource.BoundToIssue | packages/core/src/production-approval-source.ts:272-367 | A consuming request computed from another issue request succeeds only if every bound field and the evidence, up to arrangement, agree |
| ApprovalSource.BindingHashDetermines | packages/core/src/production-approval-source.ts:476-496 | Two issued records carry one binding hash exactly when the five bound fields agree |
| ApprovalSource.OneWinner | packages/core/src/production-approval-source.ts:353-379 | However contenders read and compare-and-swap, at most one consumes the approval, and the stored record then stays the winner's |
| ApprovalSource.BlindWritesBothSucceed | packages/core/src/production-approval-source.ts:272-367 | If consumed records are stored without comparing, a run of two reads and two writes ends with two winners, the first record overwritten |
| ApprovalSource.BlindRaceIff | packages/core/src/production-approval-source.ts:272-367 | Without the comparison a race can end with two winners exactly when the approval can be consumed at all |
| Precall.EvaluateBase | packages/core/src/dispatch-attempt-manifest.ts:236-310 | Permitted exactly for a valid, ready manifest with a valid consumed approval bound to it in every field; each label exactly for its cause |
| Precall.EvaluateDurable | packages/core/src/dispatch-attempt-manifest.ts:320-455 | Permitted exactly on a clean reload whose first matching approval, first audit record and first ledger fit the manifest and whose fallback plan is met; each label exactly for its cause |
| Precall.PlanEnforcedIff | packages/core/src/dispatch-attempt-manifest.ts:409-427 | The durable check permits exactly what it would without fallback plans in the reload, if the first plan, should it demand a full regate, names this attempt and its evidence is loaded |
| Precall.ManifestStateDecides | packages/core/src/dispatch-attempt-manifest.ts:123-235 | What each manifest state asks of consumed-approval ref and audit commitment, exactly |
| Precall.ManifestTimesDecide | packages/core/src/dispatch-attempt-manifest.ts:123-235 | A manifest is created no later than updated, both readable and clean |
| Precall.OtherApprovalsIgnored | packages/core/src/dispatch-attempt-manifest.ts:333-354 | An approval of another id found first does not stand in the way of a permitted call |
| Precall.OtherAuditsIgnored | packages/core/src/dispatch-attempt-manifest.ts:355-378 | Nor does an audit the manifest does not refer to |
| Precall.PermittedIsAudited | packages/core/src/dispatch-attempt-manifest.ts:355-378 | A permitted call has an audit on record under its ref that names no other workflow or attempt |
| ProductionGate.Evaluate | packages/core/src/production-enablement.ts:1271-1539 | The blocker labels are exactly those whose condition holds, without repetition, and state and readiness follow from them |
| ProductionGate.HealthBlockers | packages/core/src/production-enablement.ts:525-562 | The health labels, each exactly for its cause; fresh usage evidence clears them all |
| ProductionGate.NeverApproved | packages/core/src/production-enablement.ts:1507-1522 | State `approved` is never returned, for any input |
| ProductionGate.DispatchCapableMeans | packages/core/src/production-enablement.ts:1495-1513 | `dispatch_capable` exactly when no error is recorded, the decision approves, and a list of requirements without labels is met |
| ProductionGate.HealthDecides | packages/core/src/production-enablement.ts:525-562 | With no other health record and no usable usage record, exactly a fresh, dispatchable, healthy record without a failure opens the gate |
| ProductionGate.UsageDecides | packages/core/src/production-enablement.ts:525-562 | With no other usable usage record and no good health record, exactly a fresh and dispatchable usage record opens it |
| ProductionGate.PassedIsAudited | packages/core/src/production-enablement.ts:563-584 | An open gate has an audit of its workflow under the given ref, of its attempt if given, and of no other decision |
| ProductionGate.PassedIsReserved | packages/core/src/production-enablement.ts:585-606 | Asked for an attempt or key, the gate opens only on a reservation of both in one ledger entry |
| ProductionGate.MarkerLabels | packages/core/src/production-enablement.ts:1280-1300 | The three platform labels are raised exactly if the record of their class is missing |
| ProductionGate.OneHealthRecord | packages/core/src/production-enablement.ts:525-562 | What the health labels say of a single health record |
| ProductionGate.ResultLabelsMean | packages/core/src/production-enablement.ts:1355-1431 | Invalid, failed and missing results raise their own labels, exactly |
| ProductionGate.InputRefsMean | packages/core/src/production-enablement.ts:1455-1480 | Past the errors, the input counts as evidence its five refs, the refs of its three results, and its lane refs |
| ProductionGate.EvidenceSettled | packages/core/src/plugin-verification-boundary.ts:70-75 | The evidence blockers are all platform-dependent exactly when reload, audit, source, ledger, match and reservation are in order |
| ProductionGate.GateMonotone | packages/core/src/production-enablement.ts:518-614 | A gate that passes on a reload passes on every reload holding at least the same entries, in any order |
| DispatchOnce.ReservationSatisfiesGate | packages/core/src/production-enablement.ts:585-606 | A stored reservation is what the gate scoped to its attempt and key looks for |
| DispatchOnce.SettledNoLongerSatisfiesGate | packages/core/src/production-enablement.ts:585-606 | After the attempt is updated its ledger no longer satisfies the gate scoped to it |
| DispatchOnce.GateAndPrecallNeedTwoLedgers | packages/core/src/production-enablement.ts:585-606 | Attempt-scoped gate and durable pre-call check pass on one reload only if its first ledger lacks attempt and key and a later one holds the attempt reserved |
| DispatchOnce.BothGatesCanPass | packages/core/src/production-enablement.ts:585-606 | A reload with the ledger before the reservation and the one after it passes both checks |
| DispatchOnce.PermittedCanReserve | packages/core/src/dispatch-attempt-manifest.ts:379-407 | A permitted call can reserve on the ledger that was checked exactly when that ledger has room |
| DispatchOnce.NotPermittedAfterReservation | packages/core/src/dispatch-attempt-manifest.ts:379-407 | After a stored reservation of the attempt or key, no reload that starts from a later ledger of the run permits the call |
| DispatchOnce.PermittedApprovalIsSpent | packages/core/src/dispatch-attempt-manifest.ts:335-357 | The approval behind a permitted call cannot be consumed again |
| DispatchOnce.IssuedConsumedPermitted | packages/core/src/dispatch-attempt-manifest.ts:236-310 | A manifest bound to an issued and consumed approval is permitted exactly when it is valid and ready and the consumption time passes the payload scan |
| DispatchOnce.PermittedAcceptedIff | packages/core/src/authority-promotion.ts:270-290 | A permitted call's approval is accepted for promotion exactly when its action is the promoted one and it is not revoked |
| DispatchOnce.PermittedRevokedAndForAnyAction | packages/core/src/dispatch-attempt-manifest.ts:236-310 | Whatever the check permits it permits with the approval revoked and its action exchanged, and promotion refuses that approval |
| DispatchOnce.ComputedBindingFixesAction | packages/core/src/dispatch-attempt-manifest.ts:236-310 | A manifest whose binding hash was computed for an action is permitted with an issued and consumed approval only if that was issued for the action |
| CompactionLock.MutualExclusion | packages/core/src/compaction-runner.ts:145-178 | In every interleaving in which no removal hits a lock that is there, at most one contender holds the lock |
| CompactionLock.DeletesOnlyByTheHolder | packages/core/src/compaction-runner.ts:264-276 | In such a run the contender that deletes is the one holder |
| CompactionLock.RemovalExact | packages/core/src/compaction-runner.ts:171-174 | In a run harmless so far, a removal can be followed by two holders with one more step of the remover exactly when it hits a lock that is there |
| CompactionLock.CheckThreatensIff | packages/core/src/compaction-runner.ts:145-153 | A check can end in the removal of a lock that is there exactly when it finds a lock without a stamp, one stamped more than 60 000 ms before, or none while another contender is still at it |
| CompactionLock.PromptRunsAreSafe | packages/core/src/compaction-runner.ts:145-178 | Under one clock, if holders are through within 60 000 ms of their stamp, no check falls between directory and stamp, and nobody makes the directory under a pending removal, every removal is harmless and one holder at most holds at any time |
| CompactionLock.SomeRunIsPrompt | packages/core/src/compaction-runner.ts:145-178 | A run that meets these premises and acquires the lock exists |
| CompactionLock.PromptRunStillBreaks | packages/core/src/compaction-runner.ts:145-178 | Without the last premise that fails: a run of a single instant, no check before a stamp, in which a removal hits a lock stamped at that instant |
| CompactionLock.CanOwnAloneIff | packages/core/src/compaction-runner.ts:164-178 | A contender waiting before a stamped lock comes to own it by its own steps exactly when the stamp is more than 60 000 ms old |
| CompactionLock.DeletionsAccounted | packages/core/src/compaction-runner.ts:242-276 | In every run, broken locks included, a deleted path was listed by the same contender under its first lock as older than its cutoff |
| CompactionLock.FailedDeletedNothing | packages/core/src/compaction-runner.ts:264-298 | A contender that does not get a lock has deleted nothing |
| CompactionLock.TwoHolders | packages/core/src/compaction-runner.ts:145-178 | A reachable state in which two contenders own the lock, a missing stamp having been taken for a stale lock |
| CompactionLock.DeletesWithoutALock | packages/core/src/compaction-runner.ts:170-170 | A reachable state in which a contender deletes a file while there is no lock, the other owner having released it |
| CompactionRun.StateRoot.ArchiveAll | packages/core/src/compaction-runner.ts:254-263 | While others write before every turn: the archive is the fold of the stale files their turns find and could archive; a vanished file is an error; archived and errors add up |
| CompactionRun.StateRoot.DeleteAll | packages/core/src/compaction-runner.ts:265-275 | While others write before every turn: files and counts after the pass; a vanished file is an error; removed and errors add up |
| CompactionRun.StateRoot.Compact | packages/core/src/compaction-runner.ts:242-290 | Files, archive, counts and both roots after a run, whatever others write before every turn and before the second walk; archived + removed + errors is twice the stale count; a dry run touches nothing |
| CompactionRun.StaleIff | packages/core/src/compaction-runner.ts:247-247 | A listed file is stale exactly if it is older than the cutoff |
| CompactionRun.ConservedIff | packages/core/src/compaction-runner.ts:250-276 | Whatever others write between any two turns, no content is lost exactly when every deleted file was archived as it was when deleted and not overwritten by another content |
| CompactionRun.AloneConserved | packages/core/src/compaction-runner.ts:250-276 | With no other writer, that is: exactly when every file there before is there after or in the archive under its name |
| CompactionRun.DistinctNamesConserve | packages/core/src/compaction-runner.ts:250-276 | With no archive error, distinct base names and no stale file written in between nothing is lost and each stale file is archived as it was |
| CompactionRun.SameNameLosesContent | packages/core/src/compaction-runner.ts:258-258 | Two files of one name in two directories lose a content without an error |
| CompactionRun.ArchiveFailureLosesContent | packages/core/src/compaction-runner.ts:254-275 | A file whose archiving fails is deleted all the same |
| CompactionRun.RewriteInBetweenLosesContent | packages/core/src/compaction-runner.ts:250-276 | A listed file written anew between the passes is deleted with its new content, without an error |
| CompactionRun.RootsAgree | packages/core/src/compaction-runner.ts:79-82 | With an injective hash two roots agree exactly when the multisets of file names do |
| ProgressWalk.ListProgress | packages/core/src/compaction-runner.ts:203-221 | The stack loop throws exactly when some file has the prefix but not the pattern, and otherwise finds exactly what the recursive account of the tree finds |
| ProgressWalk.ListingNamesEachFileOnce | packages/core/src/compaction-runner.ts:203-221 | If no directory holds two entries of one name, the listing names every file once |
| ProgressWalk.OnlyTwoNamesSkipped | packages/core/src/compaction-runner.ts:203-221 | Directories named `archive` and `.locks` are passed over, every other is walked |
| PolicyMerge.Merge | packages/core/src/config-policy.ts:356-392 | The merge loop computes the fold of the packs in stable priority order, and throws exactly on an invalid configuration or pack |
| PolicyMerge.MergedIsValid | packages/core/src/config-policy.ts:269-289 | Merging valid packs into a valid configuration under valid options gives a policy the effective-policy validator accepts |
| PolicyMerge.RetentionStaysValid | packages/core/src/config-policy.ts:122-138 | The invariant of the fold: longer retention is allowed, or the 14/7/30-day bounds hold |
| PolicyMerge.MergedNarrows | packages/core/src/config-policy.ts:330-376 | Each limit is the least of the configured one and the overrides; release defaults and configured modes stay disabled |
| PolicyMerge.DisabledIff | packages/core/src/config-policy.ts:360-376 | A mode is disabled exactly if it is one of the four release defaults, configured, or workflow optimization under some disabling rule for a release, tool, provider family, agent profile or extension |
| PolicyMerge.RetentionOverrideDecides | packages/core/src/config-policy.ts:122-138 | A retention override is accepted exactly within 14, 7 and 30 days and not allowing longer ones |
| PolicyMerge.ConfiguredRetentionDecides | packages/core/src/config-policy.ts:122-138 | The configured retention may exceed these bounds exactly if it allows longer retention |
| PolicyMerge.ConfiguredModesDecide | packages/core/src/config-policy.ts:197-206 | The configuration must disable the four release-one modes, and chat routing unless hooks are enforced |
| PolicyMerge.UsageOverrideDecides | packages/core/src/config-policy.ts:140-154 | A usage override is accepted exactly with a non-negative freshness limit |
| PolicyMerge.HealthOverrideDecides | packages/core/src/config-policy.ts:155-167 | A health override is accepted exactly with a non-negative freshness limit |
| PolicyMerge.HookOverrideDecides | packages/core/src/config-policy.ts:168-178 | A hook override is accepted exactly if it enforces hooks and neither blocks nor cancels chats |
| PolicyMerge.RuleDecides | packages/core/src/config-policy.ts:179-191 | A rule is accepted exactly with ids, an effect other than allow, and a clean summary of 1 to 160 units |
| PolicyMerge.HookMeans | packages/core/src/config-policy.ts:349-354 | Chat intake is off exactly if some pack turns it off; the hook mode stays the configured one |
| PolicyMerge.MergedOrderFree | packages/core/src/config-policy.ts:330-376 | Retention limits, usage, health, hook policy and disabled modes depend on the set of packs only |
| PolicyMerge.DeletionMeans | packages/core/src/config-policy.ts:337-337 | `deletion_behavior` is delete-after-expiry if anyone says so, else the last override's in priority order, else the configured |
| PolicyMerge.DeletionOrderFreeIff | packages/core/src/config-policy.ts:337-337 | The deletion behaviour is the same for every order of the packs exactly when the configuration or some pack says delete, or the overriding packs of highest priority agree |
| PolicyMerge.MergedOrderFreeIff | packages/core/src/config-policy.ts:330-376 | With valid hook overrides: under the same condition, and only then, the whole policy apart from rules and hashes is independent of the order of the packs |
| PolicyMerge.DistinctPrioritiesOrderFree | packages/core/src/config-policy.ts:366-376 | With distinct priorities the whole policy, rules in order included, is independent of the order of the packs, up to the list of hashes |
| PolicyMerge.DeletionDependsOnOrder | packages/core/src/config-policy.ts:337-337 | For every valid configuration that does not say delete, two packs of one priority that merge in both orders, with different deletion behaviour |
| AvailabilityCache.EligibleExactly | packages/core/src/model-availability-cache.ts:358-377 | Eligible are exactly the registered, available, highest-tier entries if and only if no other entry shares an id with one; distinct ids suffice |
| AvailabilityCache.EligibleSorted | packages/core/src/model-availability-cache.ts:366-376 | With distinct ids the eligible list holds the qualified entries, ordered by family preference, usage pressure and key |
| AvailabilityCache.EligibleOrder | packages/core/src/model-availability-cache.ts:341-377 | No eligible entry stands behind one of a family preferred less, nor within a family behind one under heavier usage pressure, nor within equal pressure out of key order |
| AvailabilityCache.PreferenceRankMeans | packages/core/src/model-availability-cache.ts:352-356 | A family ranks by its first place in the preference list, and after it if it is not named |
| AvailabilityCache.DuplicateIdLetsIneligibleThrough | packages/core/src/model-availability-cache.ts:606-639 | A valid cache with a repeated id has an unqualified eligible entry |
| AvailabilityCache.CacheHitMeans | packages/core/src/model-availability-cache.ts:699-767 | The plan is a cache hit exactly for a valid cache bound to the very same context |
| AvailabilityCache.DriftNamesTheField | packages/core/src/model-availability-cache.ts:699-767 | A change of one context value is reported under its own name alone |
| AvailabilityCache.CacheContextDecides | packages/core/src/model-availability-cache.ts:572-640 | Every context value of a valid cache may be exchanged exactly for one that passes its check |
| AvailabilityCache.CacheEntriesDecide | packages/core/src/model-availability-cache.ts:572-640 | A valid cache has an entry, and each field of an entry passes its own check |
| AvailabilityCache.RevalidatesIff | packages/core/src/model-availability-cache.ts:1300-1373 | Revalidation succeeds exactly for a valid cache bound to the expected context with a registered, available, highest-tier entry |
| AvailabilityCache.RevalidatedBindings | packages/core/src/model-availability-cache.ts:1300-1373 | With distinct ids it carries one binding for every qualified entry, all of them and no other, in the order of the sort keys |
| AvailabilityCache.OnlyThePlannersPlan | packages/core/src/model-availability-cache.ts:1375-1424 | As evidence for a revalidation exactly the planner's own plan for this cache and context will do, and it then gives what plain revalidation gives |
| AvailabilityCache.EvidenceAgreesWithPlain | packages/core/src/model-availability-cache.ts:1375-1424 | With the planner's own plan, revalidation from evidence gives what plain revalidation gives |
| AvailabilityCache.ContextChangeRefuses | packages/core/src/model-availability-cache.ts:1300-1424 | A change of any context field makes both revalidations refuse, whatever plan is shown |
| AvailabilityCache.StalePlanRefuses | packages/core/src/model-availability-cache.ts:1394-1413 | A plan made for another context is no evidence |
| AvailabilityCache.MaterializedRevalidates | packages/core/src/model-availability-cache.ts:1211-1298 | A cache is materialized exactly from an acquired result that meets the expectation, its own validation refusing nothing; it is a hit in its context and revalidates to the one acquired binding, with and without the plan |
| AvailabilityCache.ExpectationDecides | packages/core/src/model-availability-cache.ts:1211-1298 | An expectation is met exactly if every value it names is the one of the context |
| AvailabilityCache.MaterializedResult | packages/core/src/model-availability-cache.ts:1211-1298 | A materialized result was acquired, planned, available and of the highest tier, without blocked labels |
| AvailabilityCache.SomeResultMaterializes | packages/core/src/model-availability-cache.ts:1211-1298 | A result that is materialized exists |
| ReviewerFanout.SpreadByModel | packages/core/src/model-availability-cache.ts:321-333 | The loop computes first occurrences followed by repeats |
| ReviewerFanout.SpreadPermutes | packages/core/src/model-availability-cache.ts:321-333 | Spreading is a permutation |
| ReviewerFanout.SpreadKeepsModelOrder | packages/core/src/model-availability-cache.ts:321-333 | Spreading is stable: the bindings of each model keep their order |
| ReviewerFanout.FirstsAreDistinctModels | packages/core/src/model-availability-cache.ts:321-333 | The part put first carries every model once, in order of first appearance |
| ReviewerFanout.RoundRobinUsesMostModels | packages/core/src/model-availability-cache.ts:1561-1583 | Round robin over spread bindings makes n lanes use min(n, number of models) models |
| ReviewerFanout.RoundRobinRepeats | packages/core/src/model-availability-cache.ts:1561-1566 | The first lanes take the bindings in order, and every later lane what the lane one round before it took |
| ReviewerFanout.Schedule | packages/core/src/model-availability-cache.ts:1585-1594 | The counting loop delays each lane by the number of earlier lanes on its model times the stagger |
| ReviewerFanout.KthLane | packages/core/src/model-availability-cache.ts:1585-1594 | The k-th lane on a model starts at (k - 1) times the stagger |
| ReviewerFanout.DelaysBoundedIff | packages/core/src/model-availability-cache.ts:1710-1710 | All delays are within a bound exactly when (largest repeat count - 1) times the stagger is |
| ReviewerFanout.PlanFanout | packages/core/src/model-availability-cache.ts:1511-1623 | The plan is ready exactly for a valid revalidation and launch whose requests pass, and then carries round-robin requests, the schedule and the bounded concurrency |
| ReviewerFanout.PerspectivesIff | packages/core/src/model-availability-cache.ts:558-570 | Perspectives are valid exactly if they are one to three, each once |
| ReviewerFanout.DefaultConcurrency | packages/core/src/model-availability-cache.ts:1543-1550 | Without a requested concurrency all lanes may run at once |
| ReviewerFanout.LaunchBounds | packages/core/src/model-availability-cache.ts:1543-1559 | The exact bounds on concurrency, timeout, orphan age, retries and stagger of a launch |
| ReviewerFanout.BadRevalidationBlocks | packages/core/src/model-availability-cache.ts:1527-1530 | A revalidation without bindings, or with a bad id, context or model, blocks the plan and is named as the cause |
| ReviewerFanout.PlanUsesMostModels | packages/core/src/model-availability-cache.ts:1597-1601 | A ready plan uses as many models as it can, and concurrency is at least one and at most that number |
| ReviewerFanout.PlanUsesQualifiedModels | packages/core/src/model-availability-cache.ts:1300-1601 | From cache to lanes: n lanes use the minimum of n and the number of models of qualified entries |
| ReviewerFanout.PlanUsesOnlyQualifiedModels | packages/core/src/model-availability-cache.ts:1300-1601 | Every planned lane runs on the model of a registered, available, highest-tier entry |
| ReviewerFanout.ReadyPlanValidIff | packages/core/src/model-availability-cache.ts:1625-1732 | A ready plan passes the plan validator exactly when (largest repeat count - 1) times the stagger is at most 60000 |
| ReviewerFanout.ReadyPlanBounds | packages/core/src/model-availability-cache.ts:1625-1732 | The exact bounds the plan validator sets on concurrency, stagger and each delay of a ready plan |
| ReviewerFanout.EnoughModelsAlwaysValid | packages/core/src/model-availability-cache.ts:1561-1601 | With a model for every lane all lanes start at once and the ready plan passes its validator whatever the stagger |
| ReviewerFanout.ReadyPlanMayBeInvalid | packages/core/src/model-availability-cache.ts:1559-1559 | Three lanes on one model at the largest accepted stagger make a ready plan that its validator rejects |
| ReviewerFanout.BlockedPlanValidIff | packages/core/src/model-availability-cache.ts:1511-1732 | A blocked plan passes the plan validator exactly when the revalidation blocks it and ids, perspectives, concurrency and stagger of the launch are in order; one blocked by the launch or its requests never does |
| ReviewerFanout.UnparseableTimeNeverValid | packages/core/src/model-availability-cache.ts:1535-1536 | A launch at an unparseable time on a good revalidation gives a plan its validator rejects |
| ReviewerFanout.MaterializedFansOut | packages/core/src/model-availability-cache.ts:1211-1623 | A materialized cache leads through plan and revalidation, in its own context, to a ready fan-out |
| Selector.Select | packages/core/src/omnigent-selection.ts:246-268 | The loop with its three flags returns the first entry meeting the constraints, or the reason with the right precedence |
| Selector.AdmissibleMeans | packages/core/src/omnigent-selection.ts:246-268 | The constraints of a request one by one; what it leaves out constrains nothing |
| Selector.UsageRowDecides | packages/core/src/omnigent-selection.ts:418-427 | A usage row lets its family through exactly if it is not marked non-dispatchable, carries no blocking alert and shows something remaining |
| Selector.OneGoodRowIsEnough | packages/core/src/omnigent-selection.ts:400-416 | Of several rows of a family one good one is enough; without a row nothing is asked |
| Selector.SelectIsArgmin | packages/core/src/omnigent-selection.ts:228-268 | For any registry the request is decided by the admissible entry of least score, earliest among equals: it is selected if compatible and blocks otherwise; with none admissible the reason is the given one |
| Selector.SelectedEntry | packages/core/src/omnigent-selection.ts:333-388 | Asking for a model or tier selects the first of the most confident admissible entries (high before medium before low); asking for reasoning selects it among named Claude models if one is admissible, else among all; any other request selects the first admissible entry |
| Selector.CompatibleRegistrySelects | packages/core/src/omnigent-selection.ts:228-268 | With a compatible registry a request is blocked exactly when nothing is admissible |
| Selector.OrderedByScore | packages/core/src/omnigent-selection.ts:333-361 | Whatever the request, the candidates are the filtered registry stably sorted by one score |
| Selector.PreferenceReducesToConfidence | packages/core/src/omnigent-selection.ts:350-361 | After the filter the three-part score is the confidence |
| Selector.TierSumIsLexicographic | packages/core/src/omnigent-selection.ts:384-388 | The tier sum orders named Claude models first, then by confidence |
| Selector.LooseningKeepsSelectionIff | packages/core/src/omnigent-selection.ts:228-268 | A request that selects still selects after loosening exactly when the entry that is best afterwards is compatible |
| Selector.LooseningKeepsSelection | packages/core/src/omnigent-selection.ts:228-268 | With a compatible registry loosening never turns a selection into a block |
| SelectorRegistry.RegistryCompatible | packages/core/src/omnigent-selection.ts:65-225 | Every entry of the built-in table has a harness of its family and a model with one of its prefixes |
| SelectorRegistry.MismatchIsDead | packages/core/src/omnigent-selection.ts:228-268 | For every role and request: never blocked by a mismatch, blocked exactly when nothing is admissible, otherwise the admissible entry of least score |
| SelectorRegistry.LooseningIsSafe | packages/core/src/omnigent-selection.ts:228-268 | For every role, loosening a request never turns a selection into a block |
| SelectorRegistry.LooseningCanExposeMismatch | packages/core/src/omnigent-selection.ts:228-268 | In a table with an incompatible entry before a compatible one of another agent, dropping the agent constraint blocks the request |

## Left out

- Field-by-field checks of the records (allowed keys, fixed flags, enumerations): records are typed, and only the clauses that relate fields or feed a result are kept.
- The string checks behind opaque ids, hash refs, model ids, dates and the payload scan: function parameters, quantified over; so are trimming, ISO formatting, locale order and the digest.
- Error texts, redaction and safe-action lists; an error list is modelled by whether it is empty, and label lists by which labels are in them and that none repeats.
- Digest collisions and the cut of hashes to 32 digits: results about hashes are about the hashed texts, or assume an injective hash and say so.
- Timestamps are the text with what `Date.parse` makes of it; instants outside the range of a date are not modelled, nor is floating-point rounding.
- Reloading evidence from disk (`session-evidence.ts`): a reload is its result, with records of the shape their class declares.
- The directory structure and file system under the compaction lock: paths, times and a lock directory with its stamp, failing operations as arbitrary tests; gzip, symbolic links met after listing and the evidence file of the run are not modelled.
- CompactionRun.StateRoot.Compact: a directory walk and the turn of one file are taken as one step each; overlapping compactors are the subject of CompactionLock.
- PolicyMerge.DistinctPrioritiesOrderFree: sufficient only, for the order of the rules; the exact condition for everything but rules and hashes is in DeletionOrderFreeIff and MergedOrderFreeIff.
- ReservationRace: how the stored ledger is kept is the caller's; the two ways of storing are the model's.
- The retention-policy lookup and the state-root safety checks of the compaction runner.
- Promotion beyond its approval check, and the promotion of reviewer verdicts, fallback and external writes.
- The default-dispatch readiness, authorization and release-two closure evaluators of `production-enablement.ts`, and the input results of the gate other than by their validator's verdict.
- The acquisition plan, reviewer assignment plan and binding inventory of the availability cache; requested model ids in the binding predicate.
- ReviewerFanout.BlockedPlanValidIff: the cache id and labels that a blocked plan copies from its revalidation are taken as well-formed.
- ReviewerFanout.PlanFanout: launch defaults other than the concurrency are taken as filled in, and a launch request's own validator is a parameter.
- Usage, health and hook fields of policies with a single legal value, and the order of the disabled modes.
- Decoding of selector requests, unknown roles, reason codes of entries, ids and expiry times of selections.
- Building heartbeat records (`lane-heartbeat.ts`): only what its validator guarantees is used, as a premise.
- Chat routing, hooks, connectors, guard boundary and everything outside `packages/core/src`.
