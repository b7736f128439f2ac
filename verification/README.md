# SwitchOps: a Dafny model with proofs

SwitchOps is a sidecar for one managed Cisco switch. It observes the switch, compares what it sees with what
its operator expects, merges evidence from several providers, analyses the resulting lab graph, and carries out
a handful of bounded, reversible changes. This project models the parts of it that compute and decide, and
proves what they promise, for all inputs, all runs and all interleavings.

`dafny verify dfyconfig.toml` checks everything.

| module | what it models |
|---|---|
| `Walks`, `Sorting`, `Text`, `Common` | walks and components of graphs, ascending id lists, string trimming, result types |
| `LabGraph`, `LabFailures` | reachability, shortest reported paths and failure scenarios of the lab graph |
| `Identity`, `UnifiedComponents`, `UnifiedClaims` | identity resolution across providers, operator decisions, union-find, merged attributes and relationships |
| `GuardPrograms`, `WriteGuards`, `PolicyStore` | the two nested guards: the calls that take them, every interleaving of these, and the objects behind them |
| `IosConfig`, `Operations` | the IOS simulator and its configuration text; the bounded transaction with its rollback |
| `ChangeSessions`, `SnapshotCompare` | the durable session state machine with crashes; the before/after comparison |
| `DiscoveryHistory`, `ReconciliationEvents` | stores whose tables are functions of their whole history |
| `TopologyBuilder`, `Reconciler` | the topology loop over interfaces, and the verdict on one port |
| `DeviceWorker`, `CounterDelta`, `InterfaceNames` | the worker and its back-off, counter deltas, interface names |

Where the source mutates (queues, maps, objects, stores) the model is a method or a class, proved against a
specification function or predicate; the theorems are about those. Ids that the source only compares are
natural numbers; hashes and fingerprints are abstract values. Time is an integer argument.

## What the code does that its documentation does not say

Each of these is a lemma or a contract below: a concrete run or input, or the exact condition under which the promise holds.

- Terminal change records are called immutable (`README.md:93-95`). Marking a preflight unavailable has no status
  guard, and the request handler reaches it for a session that already succeeded (`backend/app/main.py:1885-1886`);
  the session can then be prepared and executed a second time. It rewrites exactly the records that are terminal.
- A strong disagreement is said to merge nothing (`README.md:109`) and not to be overridable
  (`docs/V0.7-UNIFIED-LAB.md:54`). A conflicted pair does merge when other confirmed links connect it, and is
  then shown as agreed; a pair that shares only its model is never recorded as a conflict, so an operator can
  confirm it.
- Rolling a description back restores it exactly when it has no whitespace at either end.
- The status row and the power row are looked up under a name that is the port's short name for GigabitEthernet
  only (`backend/app/operations.py:345`, `backend/app/operations.py:354`).
- A power operation on a port the power table does not list ends `failed` even when every step worked.
- The signature that suppresses repeated events joins labels with a bar; with a bar inside a label another
  pair of label texts shares its signature, and without one none does (an absent label is the text "-").
- The error total of a port is the sum of nine 32-bit columns (`backend/app/parsers/errors.py:48-52`), so two of them
  wrapping together yields a negative delta, and a row missing from one table makes the next delta the whole total;
  the error of a stored number is given exactly.
- "No caller waits forever" (`backend/app/device_session.py:414`): a job that passed the stop check but is queued
  after the drain's last look is never settled.
- An attribute called ambiguous for "multiple current values", or in conflict over "different current values"
  (`backend/app/unified_reconciliation.py:86-101`), may owe that to a stale claim alone, and a settled value depends on
  the order of the claims exactly when values of different types print alike.

## Model

| member | source | states |
|---|---|---|
| LabGraph.Reachable | backend/app/lab_assurance.py:1059-1076 | the breadth-first search returns exactly the connected component of the start in the graph left after the omission and without EXPECTED edges |
| LabGraph.NeighbourSets | backend/app/lab_assurance.py:1060-1067 | the adjacency of every node is its neighbour set in that graph, both directions |
| LabGraph.IncidenceLists | backend/app/lab_assurance.py:1226-1231 | each node's row lists exactly the retained edges at it, with their other ends |
| LabGraph.Search | backend/app/lab_assurance.py:1236-1243 | the early-exit search reaches the target exactly when a walk exists, and no walk is shorter than the depth it found |
| LabGraph.Chain | backend/app/lab_assurance.py:1256-1263 | following predecessors terminates and yields a simple walk from the primary along retained edges that no walk beats in hops |
| LabGraph.Paths | backend/app/lab_assurance.py:1221-1289 | every device but the primary gets, in order, the report of a shortest simple route, or the two-hop form exactly when no walk exists |
| LabGraph.ReportIsAsWeakAsItsHops | backend/app/lab_assurance.py:1264-1289 | the reported state is the weakest state on any hop, and some hop over an edge shows it |
| LabGraph.PathStatesMean | backend/app/lab_assurance.py:1218-1289 | a path is unknown without a walk; with one it is proven only if every hop is, unknown only if some hop is, and rests on observation alone if no hop is expected, ambiguous or unknown |
| LabGraph.HopsShowTheirEnd | backend/app/lab_assurance.py:1268-1279 | each hop shows the edge that led to it, by the interface at its own end |
| LabGraph.RunIsWalk | backend/app/lab_assurance.py:1256-1263 | a reported chain visits consecutive nodes of the graph |
| LabFailures.Failures | backend/app/lab_assurance.py:1125-1186 | the scenarios, in order, are those of each losable edge and then each losable device, affected ids being all ids the primary no longer reaches |
| LabFailures.EdgesReported | backend/app/lab_assurance.py:1125-1130 | the edge scenarios are about exactly the physical and routing edges, each as what it is |
| LabFailures.DevicesReported | backend/app/lab_assurance.py:1148-1151 | the device scenarios are about exactly the other switches, routers, gateways and access points, each as what it is |
| LabFailures.LostExactlyByBridges | backend/app/lab_assurance.py:1125-1147 | losing an edge cuts off a device that had a path exactly when the edge is a bridge of the primary's component |
| LabFailures.OneEndpointLost | backend/app/lab_assurance.py:1125-1147 | whenever anything is cut off, exactly one endpoint of the edge is |
| LabFailures.LostSideOfEdge | backend/app/lab_assurance.py:1125-1147 | the devices cut off are precisely those the lost endpoint still reaches without the edge |
| LabFailures.AffectedByEdge | backend/app/lab_assurance.py:1126-1127 | the affected list is the devices cut off plus every device that had no path to begin with |
| LabFailures.LostExactlyBehindDevice | backend/app/lab_assurance.py:1148-1186 | losing a device cuts off exactly the devices all of whose walks from the primary visit it |
| LabFailures.DeviceLossCoversEdgeLoss | backend/app/lab_assurance.py:1125-1186 | losing a device affects, itself apart, all that losing any one of its edges affects |
| LabFailures.RouteUsesLostEdge | backend/app/lab_assurance.py:1125-1289 | the route to a device that an edge loss cuts off uses that edge, unless it leans on an EXPECTED edge |
| LabFailures.RoutePassesLostDevice | backend/app/lab_assurance.py:1148-1289 | the route to a device that a device loss cuts off passes through it, unless it leans on an EXPECTED edge |
| LabFailures.PathsAgreeWithBaseline | backend/app/lab_assurance.py:1062-1228 | paths and failure analysis agree on who is reachable if and only if no EXPECTED edge crosses the border of the primary's component |
| Identity.ResolvePair | backend/app/identity_resolution.py:40-195 | the state of a pair is a function of its comparable identifiers, and a conflict is recorded exactly for a conflicted pair |
| Identity.PairStateSymmetric | backend/app/identity_resolution.py:40-195 | swapping the two entities changes nothing |
| Identity.OutcomesMean | backend/app/identity_resolution.py:40-195 | in terms of the values reported: confirmed exactly when a strong one agrees and none disagrees, conflicted exactly when one disagrees and something corroborates the pair, and when candidate |
| Identity.TokensMean | backend/app/identity_resolution.py:29-37 | a value counts when reported under that kind, a hardware address only if globally administered |
| Identity.DisagreementOutcome | backend/app/identity_resolution.py:142-181 | a pair with a strong disagreement is conflicted, candidate or rejected, and when each |
| Identity.CountStrong | backend/app/identity_resolution.py:206-212 | the counts are the number of entities per provider and token |
| Identity.ResolveAll | backend/app/identity_resolution.py:198-255 | the links are exactly those of all pairs across providers, confirmed only when a token is held by one entity on each side; the conflicts name exactly the conflicted pairs |
| Identity.SameFinal | backend/app/identity_resolution.py:198-255 | the outcome for a pair does not depend on the order of the entities |
| Identity.FinalStateSymmetric | backend/app/identity_resolution.py:198-255 | the outcome for a pair is the same in both directions, the uniqueness demotion included |
| Identity.ConfirmedIsSafe | backend/app/identity_resolution.py:206-255 | an automatic confirmation has no comparable strong disagreement and rests on a token unique in both providers |
| Identity.TokenProvesOnePair | backend/app/identity_resolution.py:206-267 | no token confirms two pairs between the same two providers |
| Identity.ApplyDecisions | backend/app/unified_reconciliation.py:125-148 | every link becomes what the stored decision on it says, or stays; what that means for a pair is DecisionsRule |
| Identity.DecisionsNeverWaiveConflicts | backend/app/unified_reconciliation.py:125-148 | a conflicted link survives every decision unchanged, and whatever is still automatic afterwards is safely confirmed |
| Identity.ConfirmedDespiteDisagreement | backend/app/unified_reconciliation.py:130-137 | a disagreeing pair ends confirmed exactly when it is not plausible, shares its model and the operator confirms it |
| Identity.ModelAloneIsOpen | backend/app/identity_resolution.py:142-181 | two concrete records, two serials and one model, that a stored confirmation confirms |
| UnifiedComponents.Find | backend/app/unified_reconciliation.py:42-46 | halving the path terminates at the root and leaves every root as it was |
| UnifiedComponents.Union | backend/app/unified_reconciliation.py:48-51 | afterwards two ids share a root exactly when the pairs joined so far connect them |
| UnifiedComponents.Components | backend/app/unified_reconciliation.py:39-59 | the result is the partition determined by the set of ids and the set of confirmed pairs alone, whatever the order of entities and links |
| UnifiedComponents.TogetherExactlyWhenConnected | backend/app/unified_reconciliation.py:53-59 | two ids are listed together exactly when confirmed links connect them |
| UnifiedComponents.PartitionShape | backend/app/unified_reconciliation.py:56-59 | groups are nonempty, ascending and disjoint, and come in the order of their least ids |
| UnifiedComponents.PartitionCovers | backend/app/unified_reconciliation.py:53-59 | an id is in some group if and only if it is one of the entities' ids |
| UnifiedComponents.Reconcile | backend/app/unified_reconciliation.py:112-190 | the merged records are that partition under the decided links, each with its identity state; which pairs are confirmed, open and conflicted is determined by the resolution and the stored decisions |
| UnifiedComponents.DecisionsRule | backend/app/unified_reconciliation.py:125-148 | a pair is joined exactly when proved and not rejected, or open and confirmed by the operator; it is left open exactly when nothing was decided; a rejected pair is neither; a conflict stands whatever was decided |
| UnifiedComponents.StateMeans | backend/app/unified_reconciliation.py:169-176 | a record is agreed exactly when it holds two providers, else in conflict exactly when a member contradicts some entity, else ambiguous exactly when a member is open to one |
| UnifiedComponents.ReconcileApart | backend/app/unified_reconciliation.py:112-190 | an entity that nothing joins, a rejected pair included, comes out as a record of its own, provider-only unless it contradicts some entity or is open to one |
| UnifiedComponents.ConflictHiddenByMerge | backend/app/unified_reconciliation.py:169-176 | a conflicted pair inside one component is presented as agreed |
| UnifiedComponents.ThirdRecordConnects | backend/app/unified_reconciliation.py:39-59 | a record confirmed with both halves of a conflicted pair puts them in one component |
| UnifiedComponents.ConflictedPairMergesExactly | backend/app/unified_reconciliation.py:163-176 | the halves of a conflicted pair end in one record, shown as agreed, if and only if confirmed links connect them |
| UnifiedComponents.ReconcileThree | backend/app/unified_reconciliation.py:112-190 | any conflicted pair whose halves are both confirmed with a third record is reconciled to one agreed record |
| UnifiedComponents.ConflictedYetMerged | backend/app/identity_resolution.py:40-255 | three concrete records that are such a trio |
| UnifiedComponents.ReconcileTrio | backend/app/unified_reconciliation.py:112-190 | those three records, reconciled: one record, agreed |
| UnifiedClaims.ResolveAttribute | backend/app/unified_reconciliation.py:62-109 | the state says how the relevant claims stand to each other, the values reported per provider are exactly those claimed, and a settled value is the last claimed |
| UnifiedClaims.RelevantMeans | backend/app/unified_reconciliation.py:67-70 | the claims that count are exactly those about a member, of that field and with a value |
| UnifiedClaims.NoPrecedence | backend/app/unified_reconciliation.py:62-109 | exchanging the providers' identities changes neither state nor value |
| UnifiedClaims.OrderIsImmaterial | backend/app/unified_reconciliation.py:62-109 | reordering or repeating the claims never changes the state, nor the value when all carry the same value |
| UnifiedClaims.OrderMattersExactly | backend/app/unified_reconciliation.py:77-97 | all orders of the claims resolve an attribute to the same value if and only if it is not settled or its relevant claims carry one value |
| UnifiedClaims.SameTextOtherValue | backend/app/unified_reconciliation.py:77-80 | claims can be agreed in text and still differ in value |
| UnifiedClaims.SettledIsCurrent | backend/app/unified_reconciliation.py:72-96 | a settled state also holds of the current claims alone, as agreement exactly when two providers have a current claim |
| UnifiedClaims.StaleMakesAmbiguousExactly | backend/app/unified_reconciliation.py:72-88 | an attribute is called ambiguous though its current claims alone are not if and only if each provider has one current text and some provider contradicts a stale claim of its own |
| UnifiedClaims.StaleMakesConflictExactly | backend/app/unified_reconciliation.py:72-100 | providers are said to differ though their current claims do not if and only if no provider contradicts itself, the current claims share one text and a stale claim has another |
| UnifiedClaims.OneStaleClaimSuffices | backend/app/unified_reconciliation.py:72-88 | one stale claim of another text makes any settled attribute ambiguous |
| UnifiedClaims.OneStaleStrangerSuffices | backend/app/unified_reconciliation.py:72-100 | one stale claim of another text, by a provider with no other claim, puts any settled attribute in conflict |
| UnifiedClaims.Relationships | backend/app/unified_reconciliation.py:227-267 | one relationship, in order, for each triple that some claim connects, resting on exactly the claims that connect it |
| UnifiedClaims.LinkStatesMean | backend/app/unified_reconciliation.py:240-262 | a relationship is agreed or in conflict only with two providers and a current claim, and which of the two as its texts are one or not |
| UnifiedClaims.ClaimSupportsOne | backend/app/unified_reconciliation.py:231-239 | a claim supports one relationship at most and never one of a record with itself |
| GuardPrograms.ProgramsDisciplined | backend/app/operations.py:70-131 | every call that takes the guards nests them write lock first, touches guarded state only under its lock, and sends only what it has checked under locks still held |
| WriteGuards.RunKeepsInv | backend/app/interface_policy.py:227-237 | in every interleaving no lock is held twice and every fact a call has checked stays true while it holds the lock |
| WriteGuards.SendsAreAuthorized | backend/app/operations.py:409-431 | whenever an interface command is about to be sent, forward or back, the session is unlocked, writes are on and the port is operable |
| WriteGuards.SavesAreUnlocked | backend/app/operations.py:823-829 | a save is sent only from an unlocked session |
| WriteGuards.CallsDoWhatWasAsked | backend/app/operations.py:86-131 | in every interleaving a call only does what it was asked: commands go to the port and host it named, only an unlocking call unlocks and only a locking call locks |
| WriteGuards.OnlyUnlockingUnlocks | backend/app/operations.py:86-100 | a locked session becomes unlocked only by a step of a call asked to unlock that had found writes controlled |
| WriteGuards.FinishedCallAchieved | backend/app/operations.py:86-100 | a call that ran to its end, neither refused nor leaving early, has locked, unlocked, switched or set what it was for |
| WriteGuards.LockHolds | backend/app/operations.py:96-100 | after a locking call the session is unlocked again only if an unlocking call that had found writes controlled did so since |
| WriteGuards.NeverDeadlocked | backend/app/change_assurance.py:868-977 | while any call is unfinished some call can move, the re-entry from execute included |
| WriteGuards.StepsShorten | backend/app/operations.py:121-131 | every step brings its call nearer to its end, and so does leaving early, at a refused check, by a device error or by a return |
| PolicyStore.InterfacePolicyStore.SetControlledWrites | backend/app/interface_policy.py:132-140 | takes effect exactly as the interleaving model says, and is refused exactly on an invalid file |
| PolicyStore.InterfacePolicyStore.SetInterfaceState | backend/app/interface_policy.py:158-177 | refused exactly without a host, for an operable non-physical port, or on an invalid file, and otherwise sets that one state |
| PolicyStore.InterfacePolicyStore.EnsureProtected | backend/app/interface_policy.py:179-192 | protects that one port, or changes nothing |
| PolicyStore.InterfacePolicyStore.CheckOperable | backend/app/interface_policy.py:201-225 | passes exactly for a physical port that a valid policy marks operable |
| PolicyStore.InterfacePolicyStore.EnterGuard | backend/app/interface_policy.py:227-237 | opens exactly when writes are on and the port is operable |
| PolicyStore.SessionLock.Unlock | backend/app/operations.py:86-94 | unlocks exactly when writes are on, with the effect the interleaving model gives that step |
| PolicyStore.SessionLock.Lock | backend/app/operations.py:96-100 | locks, with the effect the interleaving model gives that step |
| PolicyStore.SessionLock.EnterGuard | backend/app/operations.py:120-131 | opens exactly when the session is unlocked and writes are on |
| PolicyStore.ProtectionOnlyTakesAway | backend/app/interface_policy.py:179-192 | automatic protection never makes a port operable, on any policy, and takes that from its own port only |
| PolicyStore.StateIsLastDecided | backend/app/interface_policy.py:51-192 | after any history of edits the file is valid and each port is in the state last given to it |
| PolicyStore.OperableExactlyWhenLastWord | backend/app/interface_policy.py:158-225 | a port may be operated on if and only if it is physical and the last word on it was OPERABLE |
| IosConfig.ReplaceOnlyOne | backend/app/switch_client.py:172-183 | replacing a block gives that block the new body and leaves every other block as it was |
| IosConfig.NewBodyReads | backend/app/switch_client.py:184-196 | a re-rendered block reads as the fixture's block with the overridden properties changed |
| IosConfig.Simulator.RenderRunningConfig | backend/app/switch_client.py:163-196 | rendering succeeds exactly when every overridden interface has a block, and re-renders exactly those |
| IosConfig.Simulator.RunRawAction | backend/app/switch_client.py:213-237 | exactly the bounded four-line sequences and a renderable save are accepted, each with its one effect, and a refusal changes nothing |
| IosConfig.OverridesAreLast | backend/app/switch_client.py:213-237 | after any history the overrides are the last values it set |
| IosConfig.ReadsLastValues | backend/app/switch_client.py:163-237 | reading the rendered configuration gives the last value set for each property of each interface, and the fixture's otherwise |
| Operations.RollbackRestores | backend/app/operations.py:292-320 | forward then rollback restores all bounded properties if and only if the operation is not about a description or the description is trimmed |
| Operations.PaddingIsLost | backend/app/operations.py:292-320 | a concrete description with a leading space, which the rollback does not bring back |
| Operations.RestoringLine | backend/app/operations.py:292-352 | the restoring line brings the property back whatever it was in between, but for a padded description |
| Operations.SimulatedRollbackRestores | backend/app/operations.py:265-320 | the same through the simulator's rendering and reading |
| Operations.Check | backend/app/operations.py:503-569 | proceeds, absent faults, exactly for an admissible change, having read the old value and its restoring line |
| Operations.Verify | backend/app/operations.py:635-663 | says met only when the device is in the intended state, and absent faults exactly then |
| Operations.Undo | backend/app/operations.py:677-701 | claims restoration only when the property reads as before, and absent faults exactly when the power table shows the port and the old description was not padded |
| Operations.Attempt | backend/app/operations.py:600-712 | success means the state was observed, rolled back means the device is as before, no other property or interface differs, and a forward line that was accepted ends in success or is followed by its restoring line |
| Operations.RunAuthorized | backend/app/operations.py:434-712 | one audit attempt per result, blocked means nothing sent, at most the forward and the restoring line go out, the restoring line exactly when the forward line was accepted without success, nothing else changes, no-save-needed means unchanged, and without faults the status is determined and only a success leaves a change |
| Operations.PlainOutcomesMean | backend/app/operations.py:503-712 | without faults: blocked exactly when not permitted, or needed with no backup; failed exactly when a power change that is sent cannot be seen |
| ChangeSessions.Service.Execute | backend/app/change_assurance.py:852-977 | the record and the history move exactly by the events of an execution |
| ChangeSessions.Service.RunPreflight | backend/app/change_assurance.py:757-818 | refused in flight and after completion, otherwise saved as preflight and then ready or blocked |
| ChangeSessions.Service.BlockBeforeExecution | backend/app/change_assurance.py:820-828 | blocks a session that has not begun, and touches no other |
| ChangeSessions.Service.RecoverIncomplete | backend/app/change_store.py:74-89 | exactly the sessions in flight become indeterminate |
| ChangeSessions.SentIsNeverForgotten | backend/app/change_assurance.py:852-977 | at any point of any run with crashes in which no terminal record is marked unavailable, a command that may have been sent means a session in flight or settled, and the primitive ran once at most |
| ChangeSessions.PrimitiveNeedsClearance | backend/app/change_assurance.py:861-915 | at any point of any run with crashes the primitive starts, and a command goes out, only in an execution that found its session ready, both guards open, the before-state captured and the repeated preflight clear |
| ChangeSessions.ExecutionStartsExactlyWhenCleared | backend/app/change_assurance.py:861-915 | a completed execution so cleared does start the primitive; one whose before-state or repeated preflight fails blocks the session and sends nothing; any other does nothing |
| ChangeSessions.ExecutionEndsAsObserved | backend/app/change_assurance.py:917-977 | the final status of a cleared execution says exactly what the primitive returned and the after-state showed, and is indeterminate without either |
| ChangeSessions.StagesShow | backend/app/change_assurance.py:899-910 | while the primitive runs the record shows verifying and rolling back exactly in those stages |
| ChangeSessions.ReadyNeedsClearPreflight | backend/app/change_assurance.py:757-818 | a session becomes ready only by a preflight that captured its evidence and found it clear |
| ChangeSessions.OtherCallsEnd | backend/app/change_assurance.py:745-828 | the statuses that a completed creation, preflight and block leave |
| ChangeSessions.TerminalIsAbsorbing | backend/app/change_assurance.py:757-828 | no call and no crash rewrites a settled record, marking that very record unavailable excepted |
| ChangeSessions.UnavailableSparesExactlyTheUnsettled | backend/app/change_assurance.py:830-850 | marking a preflight unavailable leaves every terminal record as it was if and only if the stored record of its session is not terminal, and then run-at-most-once survives too |
| ChangeSessions.UnavailableRunsOnceExactlyBeforeExecution | backend/app/change_assurance.py:830-850 | of run-at-most-once alone: it survives the mark if and only if the primitive was never started |
| ChangeSessions.InterruptedIsRewritten | backend/app/main.py:1875-1888 | a run in which a session settled as indeterminate by a crash, its primitive never started, becomes blocked |
| ChangeSessions.SucceedsThenRunsAgain | backend/app/main.py:1875-1888 | a run of seven calls in which a succeeded session is blocked, made ready and executed again |
| SnapshotCompare.CompareSnapshots | backend/app/change_assurance.py:528-703 | the differences are, in order, those of the target, of every unrelated port and of the rest, each with its values before and after; no warning exactly when the snapshots agree outside the declared effects, no difference exactly when they agree altogether |
| SnapshotCompare.CompareOthers | backend/app/change_assurance.py:604-621 | clean exactly when the same unrelated ports are present and all ten fields of each are equal |
| SnapshotCompare.LastOnPortWins | backend/app/change_assurance.py:604-605 | of two interfaces listed for one port the later is compared |
| SnapshotCompare.SucceededExactlyWhen | backend/app/change_assurance.py:956-977 | the final status is succeeded if and only if the primitive succeeded, the declared state was met and the snapshots agree outside the declared effects |
| SnapshotCompare.Settle | backend/app/change_assurance.py:930-977 | comparing two snapshots and settling: succeeded, succeeded with warnings and rolled back are each reached exactly when what they claim holds of the primitive and the snapshots |
| SnapshotCompare.MetMeansAchieved | backend/app/change_assurance.py:556-568 | on a truthful snapshot the declared state is met exactly when the operation achieved what it is for, but for padding around a description |
| SnapshotCompare.EffectsAreDeclared | backend/app/change_assurance.py:570-576 | the property an operation changes is among its declared effects, and no other configured property is |
| SnapshotCompare.EqualSnapshotsAgree | backend/app/change_assurance.py:528-703 | equal snapshots give no difference and no warning |
| DiscoveryHistory.DiscoveryStore.ApplyObservation | backend/app/discovery_store.py:117-357 | entities and evidence move by one observation; the devices returned are the root and exactly the active entities, those seen with their first sighting; the links and the evidence returned are this observation's and exactly those still active, what an incomplete observation missed as old as its last sighting; nothing recorded is rewritten |
| DiscoveryHistory.ActiveExactlySinceLastComplete | backend/app/discovery_store.py:117-357 | after any run the active ids are exactly those seen in the last complete observation or since |
| DiscoveryHistory.FirstAndLastTimes | backend/app/discovery_store.py:117-357 | rows exist for exactly the ids ever seen and hold the first and last time of each |
| DiscoveryHistory.InactiveOnlyByOmission | backend/app/discovery_store.py:117-357 | an inactive id was omitted by a complete observation and not seen since |
| DiscoveryHistory.UpsertAllObserves | backend/app/discovery_store.py:165-237 | updating row by row, repetitions included, amounts to one observation of all the ids |
| DiscoveryHistory.AgeingIsNotHistory | backend/app/discovery_evidence.py:99-126 | waiting never makes a fact fresher and never makes it history; revocation does |
| DiscoveryHistory.AgesInSteps | backend/app/discovery_evidence.py:28-126 | a link is current for 20 seconds and aging for 80, announcements and addresses for 180 and 720, intent never ages |
| ReconciliationEvents.SignatureIdentifies | backend/app/reconciliation.py:924-928 | while no observed label holds a bar, equal signatures mean equal status, drift and label texts |
| ReconciliationEvents.BarsCollideExactly | backend/app/reconciliation.py:924-928 | another pair of label texts shares a situation's signature if and only if one of its label texts contains a bar |
| ReconciliationEvents.CollisionIsSilent | backend/app/reconciliation.py:931-1020 | and then the second situation raises neither discrepancy nor resolution, though just as eventful |
| ReconciliationEvents.WasEventfulReadsStatus | backend/app/reconciliation.py:986-988 | the status recovered from a stored signature is the one it was made from, whatever the labels |
| ReconciliationEvents.IntentStore.ObserveReconciliation | backend/app/intent_store.py:189-241 | the row keeps its first-seen time exactly while the signature repeats; the time returned is the one before the call |
| ReconciliationEvents.IntentStore.ReconciliationEvents | backend/app/reconciliation.py:931-1020 | rows and events after a summary are those of its results in turn |
| ReconciliationEvents.StoreFollowsTimelines | backend/app/intent_store.py:189-258 | each port's row is determined by that port's own history |
| ReconciliationEvents.EventsExactlyOnChange | backend/app/reconciliation.py:931-1020 | a discrepancy fires exactly when the signature changes to an eventful one, a resolution exactly on a step from eventful to not |
| ReconciliationEvents.ResolutionsAlternate | backend/app/reconciliation.py:931-1020 | between two resolutions on a port there is always a discrepancy |
| ReconciliationEvents.FirstSeenStartsCurrentRun | backend/app/intent_store.py:189-241 | the stored first-seen time is the start of the current maximal run of equal signatures |
| TopologyBuilder.BuildPort | backend/app/topology.py:539-1002 | endpoint and link of a port are functions of telemetry, apart from the expectation and role fields; so is every record but those of intent and description, apart from how a sole address's relationship is read; recorded intent goes before the description |
| TopologyBuilder.BuildTopology | backend/app/topology.py:539-1002 | so are all endpoints, all links and all records on the switch but those of intent and description |
| TopologyBuilder.IntentDoesNotInterfere | backend/app/topology.py:539-1002 | two builds that differ only in descriptions and stored expectations yield the same endpoints in all observed fields, the very same links with the same records behind them, and the same records but for those of intent and description |
| TopologyBuilder.IntentBindsNothing | backend/app/topology.py:581-645 | records of intent and description support no relationship and no attachment, and change none of the others that do |
| TopologyBuilder.IntentObservesNothing | backend/app/topology.py:581-645 | nor do they add or change a record of any other kind |
| TopologyBuilder.RelationIsCosmetic | backend/app/topology.py:671-747 | how a description makes a sole address read changes no evidence id and no binding |
| TopologyBuilder.EndpointSources | backend/app/topology.py:748-900 | an endpoint's identity source is an announcement exactly when something announced itself on its port |
| TopologyBuilder.SourceOrder | backend/app/topology.py:657-900 | an identity comes from CDP, else LLDP, else the local machine, else the vendor of a sole address |
| TopologyBuilder.ConfidenceMeans | backend/app/discovery_evidence.py:191-240 | how sure existence and identity of an endpoint are: what each level takes, and that a contradicting vendor costs one step |
| Reconciler.FreshEndpointFirst | backend/app/reconciliation.py:173-182 | whatever is carried over after this poll's endpoints, a live port's endpoint is this poll's, identified exactly by an announcement of this poll |
| Reconciler.CarriedOverNeverDecides | backend/app/reconciliation.py:166-218 | carried-over endpoints never change what is observed on a port |
| Reconciler.UnannouncedIsNeverIdentified | backend/app/reconciliation.py:166-318 | a port on which nothing announced itself in this poll is never aligned nor in identity drift, whatever is carried over, and is uncertain whenever it is live and something is expected |
| Reconciler.IdentityVerdictsNeedAnnouncement | backend/app/reconciliation.py:670-752 | a verdict about identity needs a live port, an announcement in this poll and an expectation |
| Reconciler.VerdictsMean | backend/app/reconciliation.py:670-752 | when each verdict is given; aligned exactly when what is there identified itself, is in no conflict and matches the expectation |
| Reconciler.ObservedExactly | backend/app/reconciliation.py:166-318 | a port carries something observed exactly when it is up, identified exactly when something announced itself there in this poll |
| Reconciler.EventfulVerdicts | backend/app/reconciliation.py:909-909 | drift, something missing and something unexpected are worth an event; no other verdict is |
| Reconciler.TokensMatchSymmetric | backend/app/reconciliation.py:78-92 | matching does not depend on which side is which |
| Reconciler.ShortWordsMustBeShared | backend/app/reconciliation.py:78-92 | words of fewer than four letters match only when shared, longer ones also inside another word |
| Reconciler.NeighbourChangeExactly | backend/app/reconciliation.py:755-790 | a change of neighbour is reported exactly when both the remembered and the present one identified themselves and the port came up or carries another name |
| DeviceWorker.FailuresSpan | backend/app/device_session.py:294-346 | k generic failures since the last success span at least the sum of min(60, 2^(i+1)) for i from 1 to k-1 |
| DeviceWorker.PauseBounds | backend/app/device_session.py:310-346 | a success clears the pause, a refusal sets one between 4 and 60 seconds, and one over credentials or host key exactly 60 |
| DeviceWorker.DeviceSession.EnsureClient | backend/app/device_session.py:294-346 | attempts exactly when there is no live client and the pause is over; without a client the stored error is that of the latest attempt |
| DeviceWorker.DeviceSession.TakeLeast | backend/app/device_session.py:75-82 | the job taken is the least by priority and number |
| DeviceWorker.DeviceSession.Serve | backend/app/device_session.py:372-412 | one future is settled: as unavailable exactly without a client, with the reason of the latest attempt, else as the job ended; the client survives exactly a success or a failure that left it alive |
| DeviceWorker.DeviceSession.Loop | backend/app/device_session.py:348-412 | runs until it reads the stop flag or takes the order to stop, and answers one job in each turn that finds any: run to its end with a client, unavailable with the reason of the latest attempt without |
| DeviceWorker.DeviceSession.Work | backend/app/device_session.py:348-423 | in any interleaving with other threads, every turn before the stop that finds a job queued answers the least one as the line to the device allows; only what is left then is told that the application is shutting down, never a job that has had as many turns as there were jobs; when the drain is over every job put before its last look is settled exactly once |
| DeviceWorker.EveryJobServed | backend/app/device_session.py:348-412 | a job is answered by the loop once it has had as many turns as there were jobs |
| DeviceWorker.DeviceSession.WorkThenLate | backend/app/device_session.py:252-270 | jobs put after that look are exactly the ones left unsettled |
| DeviceWorker.OnlyMoreUrgentOvertake | backend/app/device_session.py:48-82 | while a job waits, only more urgent jobs, or equally urgent ones numbered earlier, are taken |
| CounterDelta.ShownAfter | backend/app/parsers/errors.py:48-52 | the shown total moves by the true growth less 2^32 for each wrap of a column |
| CounterDelta.NumberIsGrowth | backend/app/telemetry_store.py:102-120 | for growth below 2^32 a numeric delta is the true growth if and only if one column wrapped at most, and negative if and only if two did |
| CounterDelta.ResetExactly | backend/app/telemetry_store.py:112-120 | a reset is reported exactly for a wrap away from the two thresholds |
| CounterDelta.WithinOneWord | backend/app/telemetry_store.py:102-120 | while the total fits 32 bits every number is true, and growth up to 429,496,730 is never called a reset |
| CounterDelta.BoundIsTight | backend/app/telemetry_store.py:118-120 | growth of 429,496,731 can be |
| CounterDelta.TwoWrapsGoNegative | backend/app/telemetry_store.py:118-119 | two columns wrapping together: growth of two stored as a negative delta |
| CounterDelta.AmountsAddUp | backend/app/telemetry_store.py:178-205 | over a reset-free run the deltas add up to the whole growth |
| CounterDelta.StoredError | backend/app/telemetry_store.py:178-205 | over two snapshots with any tables, a number misses the true growth by exactly what the tables kept back of the two totals, a missing row or a missing block of columns, and 2^32 per wrap beyond the one allowed for |
| CounterDelta.StoredIsGrowthExactly | backend/app/telemetry_store.py:178-205 | when the tables kept nothing back, a number is the true growth if and only if one column wrapped at most |
| CounterDelta.StoredInOneWordExactly | backend/app/telemetry_store.py:178-205 | while the totals fit 32 bits, a number is the true growth if and only if both tables kept back the same |
| CounterDelta.MissedRowComesOutRight | backend/app/telemetry_store.py:434-441 | beyond one word a missing row can yield the true growth by accident |
| CounterDelta.TelemetryStore.RecordSnapshot | backend/app/telemetry_store.py:429-492 | each interface's delta is against the latest snapshot, which the new one replaces |
| CounterDelta.TelemetryStore.TwoSnapshots | backend/app/telemetry_store.py:429-492 | that error, for the numbers two successive snapshots store, whatever was stored before |
| CounterDelta.TelemetryStore.MissedRow | backend/app/telemetry_store.py:429-441 | among any ports and tables, a row missing once gives a reset or wrap that was none and then the whole total |
| InterfaceNames.PrintParses | backend/app/command_registry.py:141-170 | the canonical text of an interface denotes that interface |
| InterfaceNames.NormalizeTwice | backend/app/command_registry.py:141-170 | normalizing is idempotent on every accepted ASCII name |
| InterfaceNames.SameNameExactly | backend/app/command_registry.py:141-170 | two spellings normalize alike if and only if they denote the same interface |
| InterfaceNames.ShortNormalizesBack | backend/app/command_registry.py:181-186 | the short form of an accepted name normalizes to the same canonical name |
| InterfaceNames.MatchesAt | backend/app/command_registry.py:107-163 | trying prefixes longest first finds each accepted prefix among overlapping ones |
| InterfaceNames.TwParses | backend/app/command_registry.py:107-163 | the shortest spelling, used by no printed form, denotes its interface too |
| InterfaceNames.RowKeyIsShortExactlyForGigabit | backend/app/operations.py:344-359 | the row key of a physical port is its short name if and only if the port is GigabitEthernet |
| Text.SanitizedIsStable | backend/app/command_registry.py:215-228 | an accepted description is trimmed, bounded and harmless, and accepted again unchanged unless it is empty |
| Text.SanitizesExactly | backend/app/command_registry.py:215-227 | a description passes exactly when it is not empty and trims to at most 64 harmless characters, and then as that text |

## Left out

- The device: SSH, the Meraki client, key and credential files, ping and traceroute; the HTTP routes, the front end.
- SQLite and JSON as formats: tables are maps and sets, a transaction is one step, a session is a record.
- Text parsers: the model starts from parsed rows; configuration text is lines grouped into blocks ending in `!`.
- Findings, capability tables, health thresholds, the planner, evidence summaries: lists of cases.
- How the lab graph is built from observations: the graph is an input, edge ids unique where a claim needs it.
- LabFailures.Failures: interface, group and power scenarios of the same function are not modelled.
- Identity.ResolveAll: reasons' wording, provenance references and timestamps are not modelled; entity ids are distinct, as the stores guarantee.
- UnifiedClaims.ResolveAttribute: values are told apart by type and printed form; the joined display strings are sets of texts.
- UnifiedComponents.Reconcile: labels, categories, freshness and evidence lists of merged records.
- WriteGuards.StepsShorten: a call may leave early anywhere but at the release of a lock, which does not fail.
- WriteGuards.SavesAreUnlocked: whether writes are still enabled is not held stable during a save, so it is not claimed.
- WriteGuards.SendsAreAuthorized: the configured host is read again by the precheck; the claim is about the host the precheck read.
- PolicyStore.InterfacePolicyStore.SetInterfaceState: a failing disk write and the canonical spelling of the stored names are not modelled.
- IosConfig.Simulator.RunRawAction: the simulator's status and power tables are left out, as they reflect a fixed set of ports only.
- Operations.RunAuthorized: progress reporting, wording, and the fingerprints of the save tracker; the device changes only through what is sent; an exception that is not an `Exception` is not modelled.
- ChangeSessions.SentIsNeverForgotten: calls on one session are assumed not to overlap; preflights and executions run on the one worker, but both marks of a blocked session are unlocked reads, checks and saves on the request thread (`backend/app/main.py:1886`, `backend/app/main.py:1924`).
- SnapshotCompare.CompareSnapshots: fingerprints are abstract; power modes are lowered in ASCII, which decides whether they equal `auto` or `never`; how a snapshot is captured is not modelled.
- DiscoveryHistory.DiscoveryStore.ApplyObservation: the list of at most fifty historical devices with one prior-observation record each, occupant history and link documents beyond freshness.
- TopologyBuilder.BuildTopology: the switch's own entry, evidence timestamps and summaries; the text classifiers and the vendor registry are parameters.
- Reconciler.UnannouncedIsNeverIdentified: the inferred claims and the wording; label tokens are parameters.
- DeviceWorker.DeviceSession.Work: the thread join, the metrics and the connection states shown to the user; an exception outside `Exception`; restarting the worker after a stop.
- CounterDelta.TelemetryStore.RecordSnapshot: other columns, events and the retention period.
- InterfaceNames.NormalizeTwice: names outside ASCII, and digit groups too long for the interpreter to convert.
- Ids are natural numbers standing for the finitely many strings in use, in their order; only equality and order are used.
