# Verified models of uni_agent's protocols and transformations

uni_agent runs language-model agents in sandboxes, collects their token trajectories through gateway
actors and feeds them to reinforcement-learning trainers.  This project models the parts whose
correctness is hardest to see from reading one function, and proves what they promise.  Run
`dafny verify dfyconfig.toml` here.

The models follow the code's own branches, constants and error cases.  Each stretch of a coroutine
between two awaits is one atomic step, and an arbitrary scheduler chooses the next one.  Where the
code works by changing an object, there is a class whose methods are proved against functions on
values; the properties over whole runs are lemmas about these functions.

| file | what it models |
|---|---|
| Sequences.dfy | shared facts on integer lists, sorting in descending order |
| StagePlacement.dfy, StageRequests.dfy | which placement groups a training or rollout stage asks for, the strict-pack search, the rollout init waves |
| AgentDx.dfy, AgentDxObject.dfy | the lifecycle of a remote sandbox whose create may land late: first as a machine of interleaved steps, then as the object with its cleanup loop |
| GatewayManagers.dfy | the load counters and tables of the gateway managers |
| SessionGroups.dfy, GroupResults.dfy, GroupOutcomes.dfy, GroupProgress.dfy, LostSessions.dfy | whole rollouts of session groups over gateway actors with FIFO mailboxes, what a finalized group returns and when it does, that every task can end, and the one way to lose a session |
| Checkpoints.dfy | writing, publishing, pruning and resuming checkpoints with crashes in between |
| LogDispatch.dfy, RootLogger.dfy | the log queue with its writer thread, and the borrowed root logger |
| JsonSchemas.dfy | the schema normaliser for tool definitions |
| TextLines.dfy, EditFile.dfy | Python's string operations as far as the editor needs them, and the editor with undo |
| TrajectoryStore.dfy | trajectory keys and scores, written by the framework and read back by the inference example |
| AssistantSpans.dfy | runs of model tokens and cropping at their ends |
| ImageMaps.dfy | image references and glob rules |
| TaskConfig.dfy, GatewayInjection.dfy, InjectionHeap.dfy | nested configuration merging and dotted-path injection, as functions on values and as writes to dictionaries in the heap |

In the Agent DX model the server may do anything but one thing: a constructor error whose outcome is not
reported as "unknown", also one that reports no outcome, is trusted to mean that nothing runs and nothing
will arrive.  `AgentDx.EnvironmentNeverForgotten` needs exactly that (`AgentDx.DefiniteErrorIsTrusted`).

Some expected properties are false of the code.  For each there is a lemma with a case, or a family of
cases, in which it fails, and the exact condition under which it holds:

- Rollout requests of a policy do not add up to its GPUs when nnodes is negative (nothing is asked
  for), and a negative GPU count per node passes the checks and yields negative requests
  (`StageRequests.NegativeNodesAskForNothing`, `StageRequests.RolloutRequestsTotal`); the search then
  decides about the other requests only, and can reject what could be placed
  (`StageRequests.NegativeRequestsAreRejected`, `StageRequests.ValidateStageResources`).
- Not every failure that poisons an Agent DX sandbox deletes its environment: those do whose handler
  stops it, and all while start is still setting up (`AgentDx.UnavailableCommandKeepsEnvironment`,
  `AgentDx.OnlyStoppingFailuresStop`).
- The base gateway manager's counters break under a duplicate create or overlapping aborts
  (`GatewayManagers.DuplicateCreateCountsTwice`, `GatewayManagers.OverlappingAbortsCountBelowZero`,
  `GatewayManagers.CountersRightExactly`).
- A second cancellation while a failed finalize aborts its roles leaves a session behind exactly
  when no call for it is under way (`LostSessions.InterruptedAbortHappens`,
  `LostSessions.InterruptedAbortLosesSession`).
- Saving the tracker's own step again can leave a checkpoint that validation accepts although a part is
  torn, and saving a step that its own prune deletes leaves a tracker without a directory; every other
  save is safe (`Checkpoints.UnsafeSaveLosesTracker`, `Checkpoints.TrackerAlwaysResumable`).
- A line whose emit is overtaken by unregister is lost without being counted
  (`LogDispatch.StraddlingEmitLosesItsLine`, `LogDispatch.LineLandsExactly`).
- A repeated cleanup returns root early (`RootLogger.RepeatedExitReturnsRootEarly`,
  `RootLogger.ReturnedEarlyExactly`), and a host level set before a further register is lost
  (`RootLogger.NextRegisterForgetsHostLevel`, `RootLogger.HostLevelIsKept`).
- The schema normaliser fails on a scalar `anyOf`, and drops a property that is named `title`
  (`JsonSchemas.ScalarAnyOfFails`, `JsonSchemas.FailsExactlyOnScalarAnyOf`,
  `JsonSchemas.TitlePropertyIsDropped`, `JsonSchemas.ObjectLookup`).
- Undo restores a file exactly only without tabs and carriage returns, and undoing a create leaves an
  empty file (`EditFile.TabIsNotRestored`, `EditFile.EditThenUndo`,
  `EditFile.UndoneCreateLeavesEmptyFile`).  The uniqueness check of a replacement does not see overlapping
  occurrences (`TextLines.OverlapInAaa`, `TextLines.CountTellsUniqueWithoutBorder`).
- A swapped image rule does not undo the rule when the captured text reads as having a tag that no
  slash follows any more (`ImageMaps.PortOfHostA`, `ImageMaps.SwappedRuleUndoesUntagged`).
- Merging configurations is not associative (`TaskConfig.ScalarCutsOff`,
  `TaskConfig.AssociativeExactly`).
- A dotted path with an empty component is written and read at different places
  (`GatewayInjection.EmptyComponentLosesAgents`, `GatewayInjection.ReadsAfterWritesExactly`).

## Model

| member | source | states |
|---|---|---|
| StagePlacement.StrictPackSearch.CanStrictPack | examples/multi_policy/trainer/multi_policy_trainer.py:468-484 | With its cache, the search answers exactly whether the remaining demands can be placed one by one, although it tries one node per distinct capacity and re-sorts after each placement; the cache never holds a wrong answer |
| StagePlacement.StrictPackSearch.Search | examples/multi_policy/trainer/multi_policy_trainer.py:473-484 | One node per capacity, tried on sorted capacities, decides the same as trying every node |
| StagePlacement.FitsPermuted | examples/multi_policy/trainer/multi_policy_trainer.py:474-482 | Whether demands can be placed depends on the multiset of free capacities only, which justifies skipping equal capacities, sorting and caching |
| StagePlacement.SameAfterPlacing | examples/multi_policy/trainer/multi_policy_trainer.py:477-481 | Placing on any node of the same capacity, then sorting, gives the same answer |
| StagePlacement.FitsIffPackable | examples/multi_policy/trainer/multi_policy_trainer.py:468-484 | For demands and capacities that are not negative, step-by-step placement succeeds exactly when some assignment of every demand to a node keeps each node's load within its capacity |
| StagePlacement.PackableSorted | examples/multi_policy/trainer/multi_policy_trainer.py:465-466 | Sorting the demands does not change whether an assignment exists |
| StagePlacement.PackableWithinTotal | examples/multi_policy/trainer/multi_policy_trainer.py:458-463 | The total-GPU check that runs first rejects no instance that has an assignment |
| StagePlacement.NegativeTailAlwaysFits | examples/multi_policy/trainer/multi_policy_trainer.py:465-486 | Negative demands are sorted last and always fit, so the other demands alone decide |
| StagePlacement.NegativeDemandCounterexample | examples/multi_policy/trainer/multi_policy_trainer.py:465-486 | With a negative demand the search can reject an instance that an assignment satisfies |
| StageRequests.NegativeRequestsAreRejected | examples/multi_policy/trainer/multi_policy_trainer.py:364-490 | A policy configuration that reaches the check with such demands: two policies ask for 5 and -5 GPUs and pass the divisibility checks, an assignment exists, and the search rejects them |
| StageRequests.NegativeNodesAskForNothing | examples/multi_policy/trainer/multi_policy_trainer.py:364-408 | A configuration with -1 nodes passes the checks and asks for nothing |
| StageRequests.GetStageResourceRequests | examples/multi_policy/trainer/multi_policy_trainer.py:333-410 | The request list is all policies' requests in configuration order; the first invalid policy decides the error |
| StageRequests.RolloutRequestsTotal | examples/multi_policy/trainer/multi_policy_trainer.py:364-408 | A policy's rollout requests add up to nnodes times GPUs per node exactly when nnodes is not negative; all are alike, a node's GPUs or a whole replica where that is less; some is negative exactly when GPUs per node is negative and nnodes positive |
| StageRequests.RolloutAcceptedExactly | examples/multi_policy/trainer/multi_policy_trainer.py:364-408 | A rollout is accepted exactly when its GPUs are a whole number of replicas and a replica a whole number of the parts it takes on a node; without GPUs on a node the division fails |
| StageRequests.WorldSizeCounts | examples/multi_policy/trainer/multi_policy_trainer.py:371-393 | The GPUs of one replica: each prefill replica adds the tensor-parallel width, each decode replica the decode width, which is the tensor-parallel one unless given, once per data and pipeline rank; without disaggregation it is one prefill replica |
| StageRequests.TrainingRequestsTotal | examples/multi_policy/trainer/multi_policy_trainer.py:323-360 | A training stage is refused, naming the policy, exactly when one of its pools is not positive; otherwise its requests are positive and add up to the GPUs of all its pools |
| StageRequests.TrainingGroups | examples/multi_policy/trainer/multi_policy_trainer.py:323-360 | How often a training stage asks for a group of so many GPUs in the pool of a name: as often as the pool has nodes if that is the pool's number of GPUs per node, and never otherwise |
| StageRequests.FirstRefusedDecides | examples/multi_policy/trainer/multi_policy_trainer.py:333-410 | A stage is accepted exactly when every policy is, and otherwise fails with the error of the first policy that is not |
| StageRequests.TrainingStageGroups | examples/multi_policy/trainer/multi_policy_trainer.py:333-361 | The requests of a whole training stage are, for every policy and every pool that it has, one group per node of the pool with all GPUs that the pool has on a node, and nothing else |
| StageRequests.TrainingStageFits | examples/multi_policy/trainer/multi_policy_trainer.py:333-490 | These requests can be strict-packed exactly when all these groups can be put on the nodes, each whole on one node, in whatever order they are listed |
| StageRequests.LargePoolNeverFits | examples/multi_policy/trainer/multi_policy_trainer.py:458-490 | A pool with more GPUs on a node than any node of the cluster cannot be placed, whatever the total is |
| StageRequests.RequestsOfPolicy | examples/multi_policy/trainer/multi_policy_trainer.py:333-408 | Within the whole list, the requests of a policy are exactly its own, in order |
| StageRequests.SearchDecides | examples/multi_policy/trainer/multi_policy_trainer.py:458-486 | Total check and search together decide whether the demands that are not negative have an assignment |
| StageRequests.ValidateStageResources | examples/multi_policy/trainer/multi_policy_trainer.py:435-490 | The check passes exactly when the stage's placement groups can be strict-packed; for a training stage, exactly when every pool is positive and gets all its groups of its own size, each whole on one node; too few GPUs in all and no packing are told apart; for negative requests the exact deviation is stated |
| StageRequests.PolicyFootprints | examples/multi_policy/trainer/multi_policy_trainer.py:414-421 | The loop gives a footprint to exactly the policies with a standalone rollout request |
| StageRequests.FootprintIsLargest | examples/multi_policy/trainer/multi_policy_trainer.py:414-421 | The footprint bounds every standalone rollout request of the policy, and is the size of one of them or 0 |
| StageRequests.FootprintOfPolicy | examples/multi_policy/trainer/multi_policy_trainer.py:364-421 | For an accepted policy with requests it is the number of GPUs that one replica takes on a node: the smaller of the node's GPUs and the replica's, or 0 if that is negative |
| StageRequests.GetRolloutInitWaves | examples/multi_policy/trainer/multi_policy_trainer.py:412-433 | It fails exactly when some policy has no rollout request; otherwise the waves group the policies by footprint, strictly decreasing, in configuration order inside a wave |
| StageRequests.WavesPartition | examples/multi_policy/trainer/multi_policy_trainer.py:427-433 | Every policy is in exactly one wave |
| StageRequests.WithFootprintInOrder | examples/multi_policy/trainer/multi_policy_trainer.py:427-430 | Inside a wave the policies stand in configuration order |
| AgentDx.StepKeepsInv | uni_agent/sandbox/agent_dx.py:279-497 | Every step of every task, the timer and the server keeps the lifecycle invariant |
| AgentDx.RunKeepsInv | uni_agent/sandbox/agent_dx.py:279-497 | So does every run, in every interleaving |
| AgentDx.EnvironmentNeverForgotten | uni_agent/sandbox/agent_dx.py:285-291 | In every run the remote constructor is called at most once, and once its call has returned, an environment that exists or can still arrive is marked for deletion |
| AgentDx.AcceptedCleanupIsFinal | uni_agent/sandbox/agent_dx.py:432-471 | A cleanup that is accepted, after any number of failed stops, is never undone by a create that lands late |
| AgentDx.CleanupEndsAsAnswered | uni_agent/sandbox/agent_dx.py:367-488 | Every stop that gets the lock, rollback and cancelled create, whatever other tasks do meanwhile: after at most 23 moves of the holder the lock is free and the server's answers have decided. A known environment stays pending only if the kill and the deletion after it, or the one deletion without a handle, all raise; one whose create is unconfirmed is accepted exactly if its id is known and the answers confirm the cleanup; what is not pending any more is gone |
| AgentDx.SeenDeletedGone | uni_agent/sandbox/agent_dx.py:432-446 | Seen, deleted and gone in one round confirms a cleanup, and no answers do without the environment having been seen and then found gone |
| AgentDx.CreateIsRemembered | uni_agent/sandbox/agent_dx.py:285-388 | In every run, what start remembers of the constructor call: a returned environment is attached, confirmed and pending; an unknown outcome is pending and unconfirmed under the id it came with; of a definite error nothing is pending |
| AgentDx.CancelIsHeeded | uni_agent/sandbox/agent_dx.py:362-384 | A start that is cancelled while its create call is under way stays cancelled until it goes on, and then deletes what was created |
| AgentDx.FailedSetupIsKept | uni_agent/sandbox/agent_dx.py:394-398 | A set-up that fails, or finds a fatal error, is kept for every later start to raise |
| AgentDx.ThingsCanSettle | uni_agent/sandbox/agent_dx.py:332-497 | From every reachable state there is a continuation after which nobody holds the lock and no stop is queued or about to be |
| AgentDx.LastsForever | uni_agent/sandbox/agent_dx.py:279-283 | Once nothing runs and nothing can arrive, that stays so, the first fatal error is never replaced, and a failed set-up is never forgotten |
| AgentDx.FailurePoisonsForGood | uni_agent/sandbox/agent_dx.py:279-312 | After a failure or the expiry every later data-plane call fails, with the first error |
| AgentDx.NothingPoisonedStaysAttached | uni_agent/sandbox/agent_dx.py:332-417 | After a failure that runs `_stop_poisoned`, any failure during set-up, a failed set-up, a failed or cancelled create, the expiry or a stop that got the lock: in every continuation, whenever things have settled the environment is not attached, and if it is still alive it is marked for deletion |
| AgentDx.TimerGuardsAttached | uni_agent/sandbox/agent_dx.py:386-430 | An environment attached when things have settled has its timer armed, a timer that is off once start has returned is never armed again, and the lock's holder never queues for the lock |
| AgentDx.OnlyStoppingFailuresStop | uni_agent/sandbox/agent_dx.py:525-584 | From every reachable state: a failure leads to a deletion exactly if its handler calls `_stop_poisoned` or start is still setting up; otherwise exactly the same continuations are possible as without it and they end alike but for the fatal error, so an environment nobody was about to stop stays attached |
| AgentDx.StopTakesEffect | uni_agent/sandbox/agent_dx.py:473-497 | From every reachable attached state, a run with three moves of the lock's holder or acquisitions by queued stops has detached the environment, and while a stop is queued such a move or acquisition is possible |
| AgentDx.DefiniteErrorIsTrusted | uni_agent/sandbox/agent_dx.py:285-291 | After a constructor error whose outcome is not unknown, the environment is remembered exactly if nothing runs and nothing can arrive: the one thing the server is trusted in |
| AgentDx.UnavailableCommandKeepsEnvironment | uni_agent/sandbox/agent_dx.py:580-584 | A run in which COMMAND_UNAVAILABLE poisons the sandbox and the environment keeps running |
| AgentDx.LockIsGivenBack | uni_agent/sandbox/agent_dx.py:332-497 | Whoever takes the lifecycle lock has given it back after at most 26 of its own moves, 23 for a `_delete` with its three reconcile attempts, whatever the server answers and however other tasks interleave, and until then it can move |
| AgentDx.HolderMovesOn | uni_agent/sandbox/agent_dx.py:432-471 | Each move of the lock's holder lowers its rank or frees the lock, and no other event changes the rank |
| AgentDxObject.AgentDxSandbox.RecordFailure | uni_agent/sandbox/agent_dx.py:279-283 | A recorded failure becomes the fatal error only if there was none |
| AgentDxObject.AgentDxSandbox.RecordError | uni_agent/sandbox/agent_dx.py:285-291 | An unknown outcome marks the create unconfirmed and pending and keeps the reported id |
| AgentDxObject.AgentDxSandbox.CreateReturned | uni_agent/sandbox/agent_dx.py:360-388 | However the constructor call ends, the object remembers whatever exists or may still arrive |
| AgentDxObject.AgentDxSandbox.ReconcileCreate | uni_agent/sandbox/agent_dx.py:432-446 | Against an environment that changes before every answer: confirmed exactly when the id is known and the logged answers confirm it, and then creation was observed and the environment is gone with no create under way; otherwise the cleanup stays pending |
| AgentDxObject.AgentDxSandbox.Delete | uni_agent/sandbox/agent_dx.py:448-471 | A cleanup is accepted exactly when nothing stays pending, and then nothing exists or can still arrive; by the logged answers of the server, a known environment is not accepted only if the kill and the deletion, or the one deletion, all raise, and an unconfirmed one exactly if they do not confirm it |
| AgentDxObject.AgentDxSandbox.StopUntilAccepted | uni_agent/sandbox/agent_dx.py:473-488 | Failed stops forget nothing, the first accepted one is final, and a known environment escapes them only if every call raises |
| GatewayManagers.MultiAgentGatewayManager.ReserveGroup | examples/multi_policy/framework/multi_agent_gateway_manager.py:95-123 | A create reserves the first least-loaded gateway and updates both tables and its counter together, or is refused and changes nothing |
| GatewayManagers.MultiAgentGatewayManager.DropGroupState | examples/multi_policy/framework/multi_agent_gateway_manager.py:246-251 | Dropping a group, also twice or after it is gone, keeps tables and counters consistent |
| GatewayManagers.MultiAgentGatewayManager.FinishShutdown | examples/multi_policy/framework/multi_agent_gateway_manager.py:227-232 | After a shutdown the empty state is consistent |
| GatewayManagers.SelectGatewayIndex | uni_agent/gateway/manager.py:65-68 | The chosen gateway carries the least and is the first that does |
| GatewayManagers.LeastLoaded | uni_agent/gateway/manager.py:65-68 | No gateway carries less than the chosen one, and every earlier one carries more |
| GatewayManagers.ExecuteKeeps | examples/multi_policy/framework/multi_agent_gateway_manager.py:98-251 | Each synchronous region keeps the two tables' keys equal and every counter equal to its number of groups |
| GatewayManagers.ExecuteAll | examples/multi_policy/framework/multi_agent_gateway_manager.py:98-251 | So does any interleaving of creates, finalizes, aborts, repeated aborts, re-creates and shutdowns |
| GatewayManagers.BurstStaysEven | uni_agent/gateway/manager.py:84-91 | From even counters, a burst of creates keeps the greatest and the least load within one |
| GatewayManagers.RouteKeepsBalance | uni_agent/gateway/manager.py:80-97 | The single-session manager's counters stay right exactly when the new id was not routed yet |
| GatewayManagers.ReleaseKeepsBalance | uni_agent/gateway/manager.py:99-112 | They stay right exactly when the session is still routed to the gateway read before the await; overlapping aborts break them |
| GatewayManagers.CountersRightExactly | uni_agent/gateway/manager.py:80-112 | Over whole runs of creates and releases the counters are right throughout exactly when every create is of an id that is not routed and every release of one that is, at its gateway |
| GatewayManagers.DuplicateCreateCountsTwice | uni_agent/gateway/manager.py:80-97 | A second create of a routed id leaves one session and a counter of two |
| GatewayManagers.OverlappingAbortsCountBelowZero | uni_agent/gateway/manager.py:99-112 | Two overlapping aborts of one session leave a counter of minus one |
| SessionGroups.StepKeeps | examples/multi_policy/framework/multi_agent_gateway_manager.py:117-251 | Every step of a rollout task, of the manager and of an actor keeps the relation between tasks, mailboxes and actor sessions |
| SessionGroups.RunKeeps | uni_agent/framework/framework.py:840-919 | So does every run of any number of groups, and the manager's tables and counters stay consistent with it |
| SessionGroups.EndKeepsOwner | uni_agent/gateway/gateway.py:420-435 | The end of an actor's finalize or abort, in any order, keeps the relation for its group |
| SessionGroups.FinishedGroupLeavesNoSession | examples/multi_policy/framework/multi_agent_gateway_manager.py:141-146 | When a group's task is over, no role session of it is left on any actor unless its own abort call failed or its unshielded abort was cancelled as well; a group that returned leaves nothing |
| GroupResults.FinalizeReturnsAllRoles | examples/multi_policy/framework/multi_agent_gateway_manager.py:153-182 | In a run whose group returned, the finalize of each role's session ended successfully exactly once, the role's part is what the session held at that moment, and the output is these parts in role order, each trajectory once, tagged with role, policy and group |
| GroupResults.StepKeepsResults | examples/multi_policy/framework/multi_agent_gateway_manager.py:164-182 | Every step keeps, for each role, the finalize calls on their way and what they have returned in agreement with the parts collected so far |
| GroupResults.CollectedAt | examples/multi_policy/framework/multi_agent_gateway_manager.py:169-181 | Where each trajectory of each role stands in the returned list, with its tags |
| GroupOutcomes.ReturnedExactly | examples/multi_policy/framework/multi_agent_gateway_manager.py:117-190 | In every run: a group's task that is over has returned its trajectories exactly if it was not cancelled before it was over, its agent run did not fail, no actor refused one of its creates and none of its finalizes failed |
| GroupOutcomes.StepOutcome | examples/multi_policy/framework/multi_agent_gateway_manager.py:117-190 | A step dooms a group's task exactly if it is one of these faults; nothing else can go wrong, since every created session is live until its own finalize ends |
| GroupOutcomes.ReturningRun | examples/multi_policy/framework/multi_agent_gateway_manager.py:141-190 | For any valid roles and any contents of their sessions there is a run from the start that returns exactly these contents, tagged and in role order |
| GroupProgress.EveryTaskCanEnd | examples/multi_policy/framework/multi_agent_gateway_manager.py:117-251 | From every reachable state there is a continuation in which a group's task comes to its end, since the call it waits for is always on its way |
| GroupProgress.AdvanceAdvances | examples/multi_policy/framework/multi_agent_gateway_manager.py:117-251 | The next step of the task or of its actor brings the task nearer to its end |
| SessionGroups.FinishedGroupsHoldNoSlot | examples/multi_policy/framework/multi_agent_gateway_manager.py:246-251 | When all tasks are over, no group is reserved and every counter is zero |
| SessionGroups.SlotIsHeld | examples/multi_policy/framework/multi_agent_gateway_manager.py:117-190 | In every run a group keeps its slot on its gateway until its task is over; only the abort of a failed create can give it back before |
| LostSessions.InterruptedAbortLosesSession | examples/multi_policy/framework/multi_agent_gateway_manager.py:184-188 | After a cancellation during the unshielded abort of a failed finalize, a session that is still live stays on its actor through every continuation exactly when no call for it was waiting or suspended there |
| LostSessions.InterruptedAbortHappens | examples/multi_policy/framework/multi_agent_gateway_manager.py:141-190 | A run from the start, with any two roles on one gateway, that reaches such a cancellation and loses the second role's session |
| Checkpoints.BuildManifest | examples/multi_policy/trainer/multi_policy_checkpoint_manager.py:305-327 | The loop builds the manifest with one entry per policy |
| Checkpoints.ValidateManifest | examples/multi_policy/trainer/multi_policy_checkpoint_manager.py:383-482 | Validation succeeds exactly on the checkpoints that `Accepts` describes; another schema, an incomplete status, another step and another mode are refused in this order with their own errors, and what passes has the same policies and shows every part on disk, written in full or not |
| Checkpoints.Resume | examples/multi_policy/trainer/multi_policy_checkpoint_manager.py:84-178 | Automatic resume continues from the tracker's step exactly when its directory exists, validates and shows every actor and critic directory; otherwise it is an error, and only without a tracker training starts from scratch |
| Checkpoints.CompleteSaveAccepted | examples/multi_policy/trainer/multi_policy_checkpoint_manager.py:305-482 | A complete checkpoint under the configuration that wrote it is accepted |
| Checkpoints.OnlyBuiltIsAccepted | examples/multi_policy/trainer/multi_policy_checkpoint_manager.py:383-482 | A manifest is accepted exactly if it is the one that a save of this step under this configuration writes, but for the queue, every part is there, and the queue's state is there where the manifest names it or it could be restored |
| Checkpoints.AcceptedExactly | examples/multi_policy/trainer/multi_policy_checkpoint_manager.py:305-482 | A saved checkpoint is accepted for a step under a configuration exactly if step and mode are those of the save, the trainers are the same by name and critic, and a queue that has to be restored was saved |
| Checkpoints.RetentionIsLeastLimit | examples/multi_policy/trainer/multi_policy_checkpoint_manager.py:199-216 | The retention is the least positive limit that applies, the critic's only when some trainer has a critic, and none exactly when no limit applies |
| Checkpoints.CheckpointRoot.ScanCommitted | examples/multi_policy/trainer/multi_policy_checkpoint_manager.py:359-375 | Whatever the scan order, the list holds in ascending order exactly the steps whose directory has a complete manifest of that very step |
| Checkpoints.CheckpointRoot.Prune | examples/multi_policy/trainer/multi_policy_checkpoint_manager.py:354-380 | Prune deletes exactly the committed steps that have at least `keep` committed ones above them, as a legal run of the crash protocol, and leaves every directory as it is that has no manifest, an incomplete one or that of another step |
| Checkpoints.PruneKeepsHighest | examples/multi_policy/trainer/multi_policy_checkpoint_manager.py:376-380 | What prune keeps are the highest `keep` committed checkpoints, or all if there are fewer |
| Checkpoints.UnpublishedIsInvisible | examples/multi_policy/trainer/multi_policy_checkpoint_manager.py:359-375 | A directory without a manifest, with an incomplete one or with that of another step makes no difference to which steps are pruned |
| Checkpoints.CrashedSaveIsLeftAlone | examples/multi_policy/trainer/multi_policy_checkpoint_manager.py:183-254 | A save of a new step that crashes before it has published its manifest leaves a directory that no later save of other steps deletes or changes, crashes or not; and every such run is possible exactly if it is without the crashed save, and ends in the same state but for that directory |
| Checkpoints.CheckpointRoot.Save | examples/multi_policy/trainer/multi_policy_checkpoint_manager.py:183-254 | An uninterrupted save leaves exactly the written, published and pruned disk, through legal steps of the crash protocol |
| Checkpoints.StepKeepsInv | examples/multi_policy/trainer/multi_policy_checkpoint_manager.py:191-254 | Every disk operation of a safe save, and a crash, keeps the tracker's checkpoint complete |
| Checkpoints.TrackerAlwaysResumable | examples/multi_policy/trainer/multi_policy_checkpoint_manager.py:191-254 | Wherever a run of safe saves is cut off, also in the middle of a part or of a tree deletion, the checkpoint the tracker names is present, has every part written in full and is accepted |
| Checkpoints.HigherStepIsSafe | examples/multi_policy/trainer/multi_policy_checkpoint_manager.py:234-254 | Saving a step at or above every committed one, other than the tracker's, is safe |
| Checkpoints.SavesAheadAreSafe | examples/multi_policy/trainer/multi_policy_checkpoint_manager.py:191-254 | So over whole runs, with crashes, training that always saves such steps never loses the tracker's checkpoint |
| Checkpoints.UnsafeSaveLosesTracker | examples/multi_policy/trainer/multi_policy_checkpoint_manager.py:191-254 | Conversely a save that is not safe has a run, with the parts in the code's order, after which the tracker names a deleted directory, or one that validation accepts although its data loader state is torn |
| Checkpoints.SavedCheckpointSurvives | examples/multi_policy/trainer/multi_policy_checkpoint_manager.py:249-254 | An uninterrupted save leaves its own checkpoint complete exactly when fewer than `keep` committed steps lie above it |
| LogDispatch.QueueOnlyDelays | uni_agent/logging/handlers.py:176-239 | The queue and the writer refine an immediate log: taking an operation changes nothing about where files settle, and a put counts at once, or not at all when the queue is full |
| LogDispatch.StepKeepsInv | uni_agent/logging/handlers.py:106-239 | Every step keeps each file a subsequence of the lines sent under its id |
| LogDispatch.FilesAreLogs | uni_agent/logging/handlers.py:106-239 | In every interleaving with any refusals and I/O failures each file holds, in order, some lines sent under its own id and no others, and the drop counter is exactly the refused operations |
| LogDispatch.RecordsWrittenOnce | uni_agent/logging/handlers.py:157-174 | A record handed in by several loggers is on disk at most once, over all files |
| LogDispatch.OrderlyIdsLoseNothing | uni_agent/logging/handlers.py:106-239 | When an id's calls do not straddle its register or unregister and none of its operations is refused or fails, its file settles to exactly the lines sent |
| LogDispatch.StraddlingEmitLosesItsLine | uni_agent/logging/handlers.py:157-183 | An emit overtaken by an unregister loses its line without being counted as dropped |
| LogDispatch.LineLandsExactly | uni_agent/logging/handlers.py:176-239 | A put of a line reaches a file exactly when the queue has room, the write succeeds and the id's file is open when the writer gets there; it is lost without being counted exactly when there was room and one of the others fails |
| LogDispatch.OpenExactly | uni_agent/logging/handlers.py:204-239 | Which file an id has open, where things settle, is decided by its own puts of opens and closes alone: an open that succeeds replaces it, one that fails leaves or closes it depending on when it fails, a close closes it |
| LogDispatch.FileHoldsWhatLanded | uni_agent/logging/handlers.py:106-239 | Over any run in which the path is its id's only one, the file holds exactly the lines whose puts met that guard, lines sent are lines in the file plus lines lost, and the file is everything sent if and only if every put of the id met the guard |
| LogDispatch.LogFileDispatch.Register | uni_agent/logging/handlers.py:106-111 | Registering is the locked step followed by the put of the open |
| LogDispatch.LogFileDispatch.Unregister | uni_agent/logging/handlers.py:113-119 | Unregistering is the locked step followed by the put of the close |
| LogDispatch.LogFileDispatch.Emit | uni_agent/logging/handlers.py:157-174 | Emitting enqueues the line exactly when the record is new, its id is registered and it can be formatted |
| LogDispatch.LogFileDispatch.Submit | uni_agent/logging/handlers.py:176-183 | A put is queued or counted as dropped, never both |
| LogDispatch.LogFileDispatch.ApplyOne | uni_agent/logging/handlers.py:204-239 | One queued operation changes the open files and the disk as the log model says, including both ways an open can fail |
| LogDispatch.LogFileDispatch.Drain | uni_agent/logging/handlers.py:258-265 | Draining applies the whole queue in order |
| RootLogger.RootIsLentAndReturned | uni_agent/logging/handlers.py:106-148 | For any overlap of paired runs: while one is registered root is at least as open as the runs ask for and as it was, and no more open than the one or the other, with the dispatch attached; afterwards level and handlers are as before |
| RootLogger.HostLevelIsKept | uni_agent/logging/handlers.py:138-148 | A level the host sets after the last register is kept unless it equals the applied one |
| RootLogger.NextRegisterForgetsHostLevel | uni_agent/logging/handlers.py:121-148 | A level the host sets before a further register is lost when the borrowing ends |
| RootLogger.RepeatedExitReturnsRootEarly | uni_agent/logging/handlers.py:113-119 | A second cleanup of one run gives root back while another run is active |
| RootLogger.RunAgrees | uni_agent/logging/handlers.py:121-148 | Under any host activity, level and handlers are what the host's own changes plus the borrowing make them |
| RootLogger.PairedKeepsCount | uni_agent/logging/handlers.py:106-119 | From a right window counter, a call keeps it right exactly when it registers an id that is not registered, or unregisters one that is or finds the counter at zero |
| RootLogger.WindowsCountRuns | uni_agent/logging/handlers.py:106-119 | The window counter is the number of registered ids throughout a run exactly when every call is paired |
| RootLogger.ReturnedEarlyExactly | uni_agent/logging/handlers.py:113-148 | From a right counter, root is given back while a run is registered exactly at the exit of an id that is not registered, when one run is |
| RootLogger.RootLender.BorrowRoot | uni_agent/logging/handlers.py:121-136 | Borrowing attaches the dispatch once, saves the level once and never tightens: root ends at the level asked for, or at its own where that is lower |
| RootLogger.RootLender.ReleaseRoot | uni_agent/logging/handlers.py:138-148 | Releasing detaches the dispatch and undoes the level only if root still carries it |
| JsonSchemas.NormalizeJsonSchema | uni_agent/tools/base.py:78-118 | The loops compute the normaliser, including its failure |
| JsonSchemas.ResultIsNormal | uni_agent/tools/base.py:78-118 | The result is in normal form at every depth: no title, no null default, no anyOf that collapses, keys in the preferred order |
| JsonSchemas.NormalIsFixed | uni_agent/tools/base.py:78-118 | What is in normal form is left as it is, including key order |
| JsonSchemas.NormalizeIsIdempotent | uni_agent/tools/base.py:78-118 | Normalising twice is normalising once |
| JsonSchemas.ObjectLookup | uni_agent/tools/base.py:90-111 | What each key of a normalised object holds: its own normalised value, or the single variant's where the anyOf collapsed |
| JsonSchemas.OptionalCollapses | uni_agent/tools/base.py:99-110 | An anyOf list of which, normalised, all but one object are the null schema is gone, and the object's entries stand where there is none of the same key; any other anyOf list is kept with its variants normalised |
| JsonSchemas.CollapseNormal | uni_agent/tools/base.py:99-110 | After collapsing an anyOf nothing is left to collapse |
| JsonSchemas.OrderedAlready | uni_agent/tools/base.py:112-118 | Fields that are in the preferred order already are not moved |
| JsonSchemas.OrderKeys | uni_agent/tools/base.py:112-118 | The popping loop yields the preferred keys in order and then the rest in their old order |
| JsonSchemas.FailsExactlyOnScalarAnyOf | uni_agent/tools/base.py:99-104 | It fails exactly when, outside a title, some anyOf is a null, a boolean or a number |
| JsonSchemas.ScalarAnyOfFails | uni_agent/tools/base.py:99-104 | A schema that is only a null anyOf fails |
| JsonSchemas.TitlePropertyIsDropped | uni_agent/tools/base.py:90-98 | A schema whose only property is named title loses it |
| EditFile.UndoRestores | uni_agent/tools/edit_file.py:224-320 | After any edits of a path, the j-th undo writes exactly what the j-th edit from the end had read, whatever happens to other files in between |
| EditFile.EditsPush | uni_agent/tools/edit_file.py:224-311 | Successful edits push what they read, in order, and nothing else changes the path's history |
| EditFile.EditWrites | uni_agent/tools/edit_file.py:224-311 | What a successful edit leaves on disk and in the history, and that it changes nothing else: a create the given text; a replacement the new text in the place of the only countable occurrence; an insert the new lines behind the given one; the last two in the file with one kind of line end and without tabs |
| EditFile.EditThenUndo | uni_agent/tools/edit_file.py:121-127 | Edit and undo restore a file exactly when it had neither tabs nor carriage returns |
| EditFile.TabIsNotRestored | uni_agent/tools/edit_file.py:272-320 | A file that is one tab comes back as eight blanks |
| EditFile.UndoneCreateLeavesEmptyFile | uni_agent/tools/edit_file.py:224-232 | Undoing a create leaves an empty file, so the same create is then refused |
| EditFile.InsertSplices | uni_agent/tools/edit_file.py:282-300 | The written file's lines are the old lines with the new ones spliced in |
| EditFile.InsertShowsFile | uni_agent/tools/edit_file.py:291-310 | The snippet of an insert is a window of the new file under its own line numbers |
| EditFile.InsertShowsNeighbours | uni_agent/tools/edit_file.py:293-307 | An insert shows the new lines with up to four lines on either side |
| EditFile.ReplaceShowsFile | uni_agent/tools/edit_file.py:258-267 | The snippet of a replacement is a window of the new file under its own line numbers |
| EditFile.ReplaceShowsNeighbours | uni_agent/tools/edit_file.py:259-265 | A replacement shows the lines from five above the one that changed, or from the first, to three below the last new one, or to the last |
| EditFile.NumberedLinesAreReal | uni_agent/tools/edit_file.py:85-96 | Each numbered line of a tab-free window that truncation leaves whole is that very line of the file |
| EditFile.EditWritesNoTabs | uni_agent/tools/edit_file.py:234-300 | What a replacement or an insert writes has no tab, whatever the file and the arguments hold |
| EditFile.EditShowsItsFile | uni_agent/tools/edit_file.py:234-312 | So every whole line that a successful edit shows is the line of the file it wrote that has this number |
| EditFile.EditFileTool.Apply | uni_agent/tools/edit_file.py:134-182 | A tool call changes sandbox and history as specified, edits exactly when the edit's conditions hold, undoes exactly when there is history, and answers an edit with lines of the file as it is now, under their own numbers |
| EditFile.EditFileTool.CreateFile | uni_agent/tools/edit_file.py:224-232 | A create writes the text and pushes an empty one, or changes nothing |
| EditFile.EditFileTool.ReplaceString | uni_agent/tools/edit_file.py:234-270 | A replacement happens exactly for one occurrence and a different text, and shows the right window |
| EditFile.EditFileTool.InsertLines | uni_agent/tools/edit_file.py:272-312 | An insert happens exactly for a line number in range, and shows the right window |
| EditFile.EditFileTool.Undo | uni_agent/tools/edit_file.py:314-320 | An undo writes and shows the last remembered text and pops it |
| TextLines.ReplaceOnly | uni_agent/tools/edit_file.py:242-255 | With a count of one the leftmost occurrence is replaced and all else kept; any other occurrence overlaps it |
| TextLines.OverlapInAaa | uni_agent/tools/edit_file.py:242-255 | In aaa the text aa is counted once and occurs twice |
| TextLines.CountTellsUniqueWithoutBorder | uni_agent/tools/edit_file.py:242-255 | A count of one means a single occurrence in every file exactly when the searched text has no border, that is no shorter text that it both starts and ends with |
| TextLines.BorderIsCountedOnce | uni_agent/tools/edit_file.py:242-255 | For every text with a border, two overlapping copies are counted once |
| TextLines.CountZero | uni_agent/tools/edit_file.py:242-244 | The count is zero exactly when the text occurs nowhere |
| TextLines.SplitJoin | uni_agent/tools/edit_file.py:284-298 | Splitting a joined list of lines gives the list back |
| TextLines.JoinSplit | uni_agent/tools/edit_file.py:284-298 | Joining the split lines gives the text back |
| TextLines.NothingToExpand | uni_agent/tools/edit_file.py:240-242 | Expanding tabs changes a text exactly when it has a tab |
| TextLines.ExpandKeepsLines | uni_agent/tools/edit_file.py:282-284 | Expanding tabs neither adds nor removes a line, so line numbers refer to the file as read |
| TextLines.TabReachesStop | uni_agent/tools/edit_file.py:240-242 | A tab becomes one to eight blanks up to the next multiple of eight |
| TextLines.ExpandLineByLine | uni_agent/tools/edit_file.py:239-241 | Every line is expanded by itself: a line end starts again at column 0 |
| TextLines.NothingToNormalize | uni_agent/tools/edit_file.py:127-127 | Newline normalisation changes a text exactly when it has a carriage return |
| TextLines.NormalInOnePass | uni_agent/tools/edit_file.py:121-127 | The two replacements do what one pass over the text does: every CR LF and every other CR becomes one LF |
| TextLines.LineCountExact | uni_agent/tools/edit_file.py:261-264 | Where newlines are the only line ends, `splitlines` finds one line for each, and one more for a last line that does not end |
| TrajectoryStore.KeysAreInjective | uni_agent/framework/framework.py:1194-1206 | Different uid, session or index give different keys, for arbitrary uids |
| TrajectoryStore.KeySplits | examples/inference/parallel_infer_verl.py:249-258 | Splitting a written key at its last two underscores gives back uid, session and index |
| TrajectoryStore.SignedParses | examples/inference/parallel_infer_verl.py:258-262 | An index is a number exactly if it is digits with at most one sign before them |
| TrajectoryStore.TextLessAtFirstDifference | examples/inference/parallel_infer_verl.py:268 | Sessions are sorted by the first character that differs, a proper prefix first |
| TrajectoryStore.ScoreIsTotal | uni_agent/framework/framework.py:1272-1275 | One score per response token, only the last can differ from zero, and their sum is the reward, or zero for an empty response or no reward |
| TrajectoryStore.WriteSession | uni_agent/framework/framework.py:1194-1214 | A session's trajectories are stored under their own keys as one batch |
| TrajectoryStore.RecordIsStored | uni_agent/framework/framework.py:1194-1214 | Whatever else is written, each trajectory of a session is found under its key |
| TrajectoryStore.OnlyRecordsSucceed | examples/inference/parallel_infer_verl.py:249-260 | Nothing but a written trajectory is stored with status success |
| TrajectoryStore.PlainUidIsNoKey | examples/inference/parallel_infer_verl.py:251-254 | A uid without underscores is never the key of a record |
| TrajectoryStore.ScanListing | examples/inference/parallel_infer_verl.py:248-266 | The scan finds, per session, the accepted key with the highest number, and the status of the asked uids that are no record keys |
| TrajectoryStore.ReadRmScores | examples/inference/parallel_infer_verl.py:237-288 | The sessions come sorted, each once, with the score of its highest-numbered record |
| TrajectoryStore.EverySessionIsScored | examples/inference/parallel_infer_verl.py:237-278 | Each non-empty session written under an asked uid gets exactly one score, that of its last trajectory |
| TrajectoryStore.OnlySessionsAreScored | examples/inference/parallel_infer_verl.py:237-278 | Nothing else gets a score |
| TrajectoryStore.ListingOrderIsIrrelevant | examples/inference/parallel_infer_verl.py:248-270 | Two listings of one store in different order give the same sessions, scores and statuses |
| AssistantSpans.FindSpans | examples/claude_code_kernel_task/trajectory_processor.py:63-77 | The loop returns the spans, or refuses misaligned arrays |
| AssistantSpans.SpansAreMaximalRuns | examples/claude_code_kernel_task/trajectory_processor.py:63-77 | The spans are maximal runs of model tokens, ordered and separated, and cover every model token |
| AssistantSpans.EveryMaximalRunIsFound | examples/claude_code_kernel_task/trajectory_processor.py:63-77 | Every maximal run is among them |
| AssistantSpans.CropKeepsFirstSpans | examples/claude_code_kernel_task/trajectory_processor.py:80-115 | Cropping at the k-th boundary leaves exactly the first spans, their tokens, the turn count for them and the reward |
| AssistantSpans.CropRecords | examples/claude_code_kernel_task/trajectory_processor.py:91-115 | A crop records its reason, the original length and the number of runs kept, cuts the log probabilities with the tokens, and drops the stale entries exactly if the response gets shorter |
| AssistantSpans.FinalCropKeepsTrainable | examples/claude_code_kernel_task/trajectory_processor.py:52-60 | Cropping at the last boundary drops no model token |
| AssistantSpans.FinalCropIsIdempotent | examples/claude_code_kernel_task/trajectory_processor.py:52-60 | Cropping there again changes no token, route or turn count |
| AssistantSpans.CropThenAlign | examples/claude_code_kernel_task/trajectory_processor.py:118-128 | Aligning cropped routes gives the prefix of aligning the whole |
| AssistantSpans.CropToAssistantPrefix | examples/claude_code_kernel_task/trajectory_processor.py:80-115 | A crop is refused exactly at an end that is no boundary or for misaligned arrays |
| AssistantSpans.ProcessTrajectories | examples/claude_code_kernel_task/trajectory_processor.py:23-60 | The selection loop returns the chosen crops, or refuses any misaligned input |
| AssistantSpans.SelectionTakes | examples/claude_code_kernel_task/trajectory_processor.py:23-60 | `final` gives the last trajectory up to its last model token, if it has one; `best` with a usable hint the only trajectory up to the end of the hinted run; all else every trajectory with a model token, in order, up to its last one |
| AssistantSpans.ProcessedAreCrops | examples/claude_code_kernel_task/trajectory_processor.py:23-60 | Each selected trajectory is a prefix of an input that ends with a model token and keeps prompt and reward |
| ImageMaps.CaptureIsExact | uni_agent/sandbox/base.py:56-63 | A capture is m exactly when the value is left + m + right with m not empty, or equals a pattern without globs, even where the sides could overlap |
| ImageMaps.GlobIsFirst | uni_agent/sandbox/base.py:56-63 | A pattern is split at its first `**`: the two sides and it make up the pattern, and there is none before it |
| ImageMaps.TryMapExactly | uni_agent/sandbox/base.py:81-96 | A rule maps exactly the references whose name fits the pattern's and whose tags agree, to the target's name, with the captured text filled in if it has a `**`, under the target's tag or else the reference's own |
| ImageMaps.TagIsPlain | uni_agent/sandbox/base.py:51-53 | A parsed tag holds no colon and no slash, and name and tag make up the reference |
| ImageMaps.JoinedNameTag | uni_agent/sandbox/base.py:51-53 | Joining a name and a plain tag is parsed back into them |
| ImageMaps.SwappedRuleUndoesTagged | uni_agent/sandbox/base.py:81-96 | On a tagged reference a rule and its swapped rule undo each other and keep the tag |
| ImageMaps.SwappedRuleUndoesUntagged | uni_agent/sandbox/base.py:81-96 | On an untagged reference they do so exactly when a slash follows the glob in the target or the captured text does not itself read as having a tag |
| ImageMaps.RenamedTag | uni_agent/sandbox/base.py:51-53 | When the renamed reference is read as having a tag, in terms of the target and the captured text |
| ImageMaps.PortReadAsTag | uni_agent/sandbox/base.py:81-96 | A family that is not undone: with the target `**`, the port of a host becomes a tag |
| ImageMaps.PortOfHostA | uni_agent/sandbox/base.py:81-96 | One of them: a:1/x |
| ImageMaps.TagAgrees | uni_agent/sandbox/base.py:81-87 | A pattern's tag must be the reference's; a reference without a tag is taken exactly where the same name tagged latest is |
| ImageMaps.TargetTagWins | uni_agent/sandbox/base.py:89-96 | A tag of the target replaces the reference's tag |
| TaskConfig.PathLaw | uni_agent/tasks/config.py:13-26 | What a merge holds at every path, at every depth |
| TaskConfig.OverrideLeafWins | uni_agent/tasks/config.py:13-26 | An override that is no mapping wins at its path |
| TaskConfig.MergeIsIdempotent | uni_agent/tasks/config.py:13-26 | Merging the same overrides twice is merging them once |
| TaskConfig.ScalarCutsOff | uni_agent/tasks/config.py:13-26 | Merging is not associative: a scalar in between cuts off the first mapping |
| TaskConfig.AssociativeExactly | uni_agent/tasks/config.py:13-26 | Merging three values is associative exactly where nothing is cut off: the outer two mappings with something else in between, at the same keys, and a last one that the first would add to or change |
| TaskConfig.DeepMergeDicts | uni_agent/tasks/config.py:18-26 | The loop over the overrides computes the merge |
| TaskConfig.Resolve | uni_agent/tasks/config.py:113-137 | Resolving refuses a missing name and an unknown task and otherwise composes defaults, sample and runtime model |
| TaskConfig.ComposedLaw | uni_agent/tasks/config.py:113-137 | What file, sample and runtime make together at every path |
| TaskConfig.RuntimeLeafWins | uni_agent/tasks/config.py:134-136 | Every value of the runtime's model that is not null reaches the result, and whatever is no mapping in it wins at its path |
| TaskConfig.RuntimeNullIsIgnored | uni_agent/tasks/config.py:134-137 | A null of the runtime's model changes nothing below its key |
| TaskConfig.SampleRanksAboveFile | uni_agent/tasks/config.py:130-133 | Where the runtime binds nothing, the sample ranks above the file default at every path but a file's prompt template |
| TaskConfig.FileTemplateWins | uni_agent/tasks/config.py:131-132 | A file's prompt template is taken as it is |
| GatewayInjection.ReadAfterWrite | examples/multi_policy/external_mas/external_mas_runner.py:53-66 | For a path without empty components a lookup after the write returns the written value |
| GatewayInjection.SetKeepsOthers | examples/multi_policy/external_mas/external_mas_runner.py:53-66 | No path outside the written one changes |
| GatewayInjection.SetFailsOnScalars | examples/multi_policy/external_mas/external_mas_runner.py:53-66 | Writing fails exactly for an empty path or when something on the way is neither null nor a mapping |
| GatewayInjection.ReadsAfterWritesExactly | examples/multi_policy/external_mas/external_mas_runner.py:53-66 | A read after the write returns the written value, for every configuration and value, exactly for the paths without empty components, and vacuously for those that cannot be written at all |
| GatewayInjection.KeysAreComponents | examples/multi_policy/external_mas/external_mas_runner.py:202-209 | Writing and reading take a dotted path apart in the same way exactly when it has no empty component |
| GatewayInjection.KeysAtDot | examples/multi_policy/external_mas/external_mas_runner.py:53-56 | The keys of a dotted path are its parts between the dots, in order, without the empty ones |
| GatewayInjection.WellFormedPathsAreSound | examples/multi_policy/external_mas/external_mas_runner.py:88-103 | Paths that do not prefix each other, and an agents path without empty components, are enough for the results below |
| InjectionHeap.InjectGatewayConfig | examples/multi_policy/external_mas/external_mas_runner.py:69-124 | On dictionaries in the heap: the template holds the same values afterwards; the injection fails exactly when the specification `Injected` does, and otherwise returns a tree of new dictionaries only that holds what the specification says |
| InjectionHeap.DeepCopy | examples/multi_policy/external_mas/external_mas_runner.py:83-102 | The copy holds the same values, in new dictionaries, and nothing that existed before is written |
| InjectionHeap.WritePath | examples/multi_policy/external_mas/external_mas_runner.py:53-66 | Writing in place fails exactly when the specification does, and otherwise makes the dictionary hold what the specification says, with the written object itself at the path |
| InjectionHeap.ReplaceKeepsTree | examples/multi_policy/external_mas/external_mas_runner.py:93-102 | Whoever refers to a dictionary inside a tree sees what is written through another reference to it, and the rest of the tree stays as it is |
| InjectionHeap.ConfigureRole | examples/multi_policy/external_mas/external_mas_runner.py:111-123 | One round of the loop configures one role through the alias of the agents dictionary and nothing else, or fails with the role's error |
| InjectionHeap.FindOriginalAgents | examples/multi_policy/external_mas/external_mas_runner.py:95-101 | The walk ends at the very dictionary that hangs at the agents path of the template, or finds none |
| GatewayInjection.EachRoleGetsItsOwn | examples/multi_policy/external_mas/external_mas_runner.py:107-123 | Each role gets its own address and model name and keeps the rest of its configuration |
| GatewayInjection.InjectionSucceedsExactly | examples/multi_policy/external_mas/external_mas_runner.py:53-114 | An injection succeeds exactly if there is a role, nothing blocks the two root paths in the template, and every role's configuration, or an empty one, is a mapping in which nothing blocks the role's paths |
| GatewayInjection.OtherKeysStay | examples/multi_policy/external_mas/external_mas_runner.py:84-102 | Other agents and other keys stay as in the template, and the global path holds the first role's address |
| GatewayInjection.EmptyComponentLosesAgents | examples/multi_policy/external_mas/external_mas_runner.py:93-101 | With a dot at the end of the agents path, such as agents., the template's agents are not found |

## Left out

- Agent DX as one interleaved object: in `AgentDx` the lifecycle is a machine on values, because several tasks change the object between awaits; `AgentDxObject` has the fields and methods, run by one task against a changing server.
- The command, shell and file calls of the Agent DX sandbox appear only through the failures they record; connection settings, mounts and the SDK are not part of this model.
- The gateway actors in `SessionGroups` are values in the state of the machine, not objects; a live session is the list of trajectories that its finalize would return, which any step may change. HTTP handling, token buffers, metadata other than role, policy and group, and sampling parameters are not part of this model.
- Shutdown is in the interleavings of `GatewayManagers` but not among the steps of `SessionGroups`; it ends with every actor stopped.
- The retry loop and startup slot of the sandbox base class: they call start and stop, whose interleavings are covered.
- Policy names, roles and paths are texts; unusual Python values in their place are not part of this model.
- Checkpoints: resuming from an explicit path, deleting a local checkpoint after it was loaded, uploading to a remote directory, symbolic links, directories with leading zeros in the step, and durability below a process crash.
- Log files: how often the writer flushes, the message about dropped lines, forked processes, and how a line is formatted and redacted; the writer's disk counts a line as written when it is buffered.
- RootLogger: `mount` is the level after the fallback for a mount point without a level.
- JSON numbers are reals; a schema's dictionaries are lists of distinct keys.
- Editor: viewing files and directories, the wording of messages (a clipped response ends with a notice that is a parameter here), and the check whether the parent of a created path is what its name says, which the command carries as a parameter.
- TrajectoryStore.ParseInt: does not accept surrounding blanks or digits other than 0 to 9, because no key that is written has them.
- TrajectoryStore: scores are reals; tensors other than the scores, retries of a session under the same index, and the per-uid grouping of the report.
- AssistantSpans: how the best assistant index is read from the task information; it is a parameter. Routes are lists, and extra fields hold only flags, numbers and texts.
- ImageMaps: which rule of a list of rules applies first.
- TaskConfig: lists are atoms, the order of keys is not kept, and prompt rendering and file loading are not part of this model; a task name that is neither text nor absent is only told apart by its truth value.
- InjectionHeap.InjectGatewayConfig: does not cover a template in which one dictionary hangs in two places, as a YAML alias makes it, because a deep copy keeps such sharing and the copy is then no tree.
- Tensors, routing strategies, tracing, metrics, the command line and the training loop itself.
