# Verified model of the Milvus operator's protocols

The Milvus operator drives several small protocols through the Kubernetes API: rollouts over two
Deployments, version upgrades with metadata migration, the move from one Deployment to two, the
resize of the etcd volumes, and dependency-ordered image updates. Each of them is interrupted at
will by crashes, failed calls and requeues, and each rests on decision code full of branches and
arithmetic. This project models that code and proves what it promises over whole runs.

`dafny verify dfyconfig.toml` checks everything.

## How the model is built

The API server is a value: the objects of one component, or of one etcd release, plus the marks
the operator leaves on the Milvus object. What the operator does to it is written twice: as a
method in the source's own form (classes, loops, early returns) and as a function that specifies
it; the method is proved equal to the function, and the theorems are about the function.

A crash is modelled at every API write. In the rollout controller a reconcile is a list of writes
and a crash keeps a prefix of it; in the mode migration and the etcd resize every write of a run
lands or fails as an arbitrary `Lands` function says, which covers crashes and single failed
calls alike. Between reconciles the environment acts: pods come and go, terminating objects
disappear, task pods move through their phases, specs are edited.

| module | content |
|---|---|
| `Common`, `GoStrings` | options, and the string and number functions of Go that the operator relies on |
| `RollingPolicy` | rolling-update policies: merging, admission, and the steps derived from them |
| `Workloads`, `ScalePlanner` | pod filters, stability guards, limits comparison, the scale planners |
| `RolloutController` | the two-deployment controller, write by write |
| `RolloutDecisions` | when it clears the rolling label, what a stop does, who is scaled and by how much, in observations |
| `RolloutSafety`, `RolloutConvergence`, `RolloutCapacity`, `RolloutFloor`, `RolloutPods`, `RolloutRollback` | its invariant, its convergence, its floors and ceilings on replicas and on pods, and exactly when these hold |
| `UpgradeReplicas`, `UpgradeMachine` | replica snapshots, and the MilvusUpgrade state machine |
| `UpgradeSafety`, `UpgradeMetadata`, `UpgradeRestart`, `UpgradeFailures` | what holds of every upgrade run: order of tasks, metadata, restored replicas; and two runs that end badly |
| `UpgradeErrors` | failing calls of an upgrade, state by state, and what they leave behind |
| `UpgradeProgress` | what the upgrade waits for, its retries, and whole runs to a finished upgrade or rollback |
| `ModeMigration`, `ModeMigrationSafety` | the six-step move to two Deployments, crash safety and completion |
| `EtcdResize` | the save, delete and recreate procedure of the etcd StatefulSet |
| `StatusAggregation`, `DependencyGraph`, `ImageRollout` | group statuses, dependency graphs, ordered image rollout |
| `ValueMerge`, `EnvMerge`, `PvcNames` | deep merge of values, the container environment, claim names |

## What does not hold as one might expect

In each of these cases the code is modelled as it is; a lemma shows the failure and another one
says exactly when the property holds.

- Without surge, once the other deployment is empty only that one is waited for, and the refill of
  the current one comes out at expected plus the pods still leaving it (`RefillLoad`). So live plus
  terminating pods can exceed max(initial, expected) in two ways: the run starts on a current
  deployment that is owed pods while others still leave it, as after scaling down and up again or a
  stop and a restart (`ScaleUpBreaksCeiling`), or a rollback abandons an empty deployment for such a
  one (`RollbackBreaksCeiling`). There is no third: `CeilingIffStart` and `CeilingIffCleanRollback`
  say that both conditions are exact. Rollbacks from a deployment that still has replicas, and pods
  of the other deployment still terminating, do no harm.
- With changed limits the current deployment keeps max(expected, start) replicas until the old one
  is empty, and for good exactly if start is not above expected (`FloorHoldsForGoodIff`).
- Restarting on the target image restores replicas only for workloads that the source version ran
  (`ForwardReplicas`). A component that is new in the target version starts with zero replicas
  (`NewComponentStartsEmpty`), and a new deployment group makes the start fail (`ForwardStartsIff`).
- A rollback requested while a migration pod is at work can start the source version on migrated
  metadata (`RollbackDuringMigrationMeetsTarget`); `StartedOnOwnMetadata` holds if none is, and
  `OwnMetadataIffCareful` says that the condition is exact.
- A failed backup is tried again, but a migration whose pod could not be created is not: the upgrade
  marks the store as changed first and then waits for good for a pod that is not there, and rolling
  back failures does not apply (`UnstartedMigrationIsStuck`). This happens exactly if the call that
  creates the pod fails (`UnstartedIff`).
- A rollback requested before the source version was recorded starts Milvus with an empty image
  (`UnrecordedRollbackLosesImage`); after a recording it never does (`EveryStartRestoresReplicas`).
- The etcd StatefulSet and its saved copy can both be lost by a run that starts while the
  StatefulSet, of another size, is still on its way out (`LossIsReachable`), and only by such a run
  (`LossIffImpatient`, `NeverLost`).
- The mode migration never completes if an old ReplicaSet has no dash in its name
  (`CompletesIffNamesAreValid`).
- Adding a component to a dependency graph again leaves stale or repeated reversed edges
  (`AddingAgainBreaksConverse`), exactly if an earlier call gave it dependencies
  (`ConverseIffNotAddedAgain`).
- With two volume claim templates a deployment group's claim can read as the ungrouped
  StatefulSet's (`GroupClaimCanBeMistaken`); `GroupClaimMatchedIff` says for which names.
- A rolling upgrade is never stuck (`SomeGateIsOpen`) and can be completed (`CompletesIff`) unless, below 2.6, streaming is on while the
  coordinators run separately; then the streaming node waits for good on a MixCoord that does not
  run (`StreamingNodeWaitsForEver`), and everything behind it never begins (`NothingAfterMixCoord`). In that
  case, too, the separate coordinators are in no order (`WaitingWithStreaming`).
- A volume claim whose ordinal is 2^31 or more, below 2^32, reads as negative and is never cleaned up
  (`WrappedClaimIsKept`).

## Model

| member | source | states |
|---|---|---|
| `RollingPolicy.MergeRollingUpdate` | apis/milvus.io/v1beta1/rolling_update.go:7-25 | field by field: what the component sets is the component's, what it leaves out is the global policy's; the result is absent only if both are |
| `RollingPolicy.ValidateRollingUpdate` | apis/milvus.io/v1beta1/rolling_update_validation.go:35-72 | the error list of one policy: malformed amounts in field order, then the both-zero error judged at scale 100 |
| `RollingPolicy.ValidateRollingUpdates` | apis/milvus.io/v1beta1/rolling_update_validation.go:13-33 | the errors of the global policy followed by those of every configured component merged with it |
| `RollingPolicy.AmountAdmittedIff` | apis/milvus.io/v1beta1/rolling_update_validation.go:35-72 | which amounts are refused, character by character: a negative number, or a string that is not digits followed by a percent sign, or more than 100% unavailable |
| `RollingPolicy.NoProgressIff` | apis/milvus.io/v1beta1/rolling_update_validation.go:35-72 | the both-zero error exactly when the surge is set to 0 or 0% and the unavailable amount is absent, 0 or 0% |
| `RollingPolicy.AdmittedIff` | apis/milvus.io/v1beta1/rolling_update_validation.go:13-33 | the component part of that list is empty exactly when every configured component's merged policy is accepted |
| `RollingPolicy.StepsInRange` | pkg/controllers/deploy_ctrl_util.go:532-554 | for every strategy and every replica count the steps satisfy surge >= 0 and 0 <= unavailable <= replicas |
| `RollingPolicy.SurgeMeans` | pkg/controllers/deploy_ctrl_util.go:532-554 | a surge of p% of r replicas is the least s with p*r <= 100*s; a number stands as it is; an absent or malformed amount gives 1 |
| `RollingPolicy.UnavailableMeans` | pkg/controllers/deploy_ctrl_util.go:532-554 | q% unavailable is the largest u with 100*u <= q*r, at most r, raised to one exactly when it is zero without surge and q > 0; a number is capped at r; an absent or malformed amount gives 0 |
| `RollingPolicy.FixedSteps` | pkg/controllers/components.go:739-775 | recreate gives steps (1, 0) and force mode (r, r), whatever the policies |
| `RollingPolicy.EffectivePolicy` | pkg/controllers/components.go:739-775 | the policy in force, field by field: component, else global, else the default of 1 and 0 |
| `RollingPolicy.AdmittedIffProgress` | apis/milvus.io/v1beta1/rolling_update_validation.go:35-72 | among well-formed policies, admission at scale 100 rejects exactly those whose steps would be (0,0), at every replica count >= 1, in spite of the two roundings |
| `RollingPolicy.NoAdmittedPolicyStalls` | pkg/controllers/components.go:739-775 | no admitted policy, merged with the defaults, can stall a rollout in any update mode |
| `Workloads.ListDeployPods` | pkg/controllers/rollout_util.go:167-182 | evicted pods and only those are left out, in order |
| `Workloads.GetTerminatingPods` | pkg/controllers/rollout_util.go:237-245 | exactly the pods with a deletion mark, in order |
| `Workloads.GetNotReadyPods` | pkg/controllers/rollout_util.go:247-265 | the result is empty exactly when every pod runs and no readiness condition denies it |
| `Workloads.LogicAnd` | pkg/controllers/rollout_util.go:219-226 | the conjunction, and the index of the first false condition |
| `Workloads.DeploymentIsStable` | pkg/controllers/rollout_util.go:184-215 | stable exactly when no pod terminates, none is unready, the pods number the replicas and the status has caught up |
| `Workloads.SettledIff` | pkg/controllers/rollout_util.go:184-215 | the same in observations: pods that are not evicted number the replicas, all run, none terminates or denies readiness, and every status count has caught up |
| `Workloads.NotEvictedCounts` | pkg/controllers/rollout_util.go:167-182 | filtering keeps every other pod as often as it is there |
| `Workloads.TerminatingCounts` | pkg/controllers/rollout_util.go:237-245 | and so does the filter for deletion marks |
| `Workloads.CheckDeploymentsStable` | pkg/controllers/deploy_ctrl_util.go:672-710 | passes exactly when both deployments are stable, or when only the current one lacks availability and that is allowed |
| `Workloads.ServingCounts` | pkg/controllers/rollout_util.go:247-265 | what counts as a serving pod in the capacity results: alive, running, and no readiness condition that says otherwise |
| `Workloads.StrictReadinessServes` | pkg/controllers/deploy_ctrl_util.go:672-710 | the pods counted as strictly ready by the availability exception all serve |
| `Workloads.CompareDeployResourceLimitEqual` | pkg/controllers/deploy_ctrl_util.go:496-528 | true exactly when both pod templates have the same limits container by container, whatever the container order |
| `Workloads.SameLimitsIff` | pkg/controllers/deploy_ctrl_util.go:496-528 | that equality as a relation between the two lists of containers, by name and limits |
| `ScalePlanner.CheckCanScaleNow` | pkg/controllers/deploy_ctrl_util.go:308-327 | which guard applies to which scale kind: none under an autoscaler or force mode; outside a rollout only adding pods without surge waits, for the old deployment; in a rollout both deployments, with unavailability allowed only without surge |
| `ScalePlanner.OldDeploymentNeverRaised` | pkg/controllers/deploy_ctrl_util.go:329-640 | no planner of any kind ever raises the old deployment |
| `ScalePlanner.EmptyOldDeploymentLeftAlone` | pkg/controllers/deploy_ctrl_util.go:380-398 | an empty old deployment is never scaled again |
| `RolloutController.Controller.GetDeploys` | pkg/controllers/deploy_ctrl_util.go:116-162 | which deployment is current and which is last, or exactly which error the caller gets |
| `RolloutController.Controller.HandleCreate` | pkg/controllers/deploy_ctrl.go:217-238 | the writes of the create step, cut after any of them |
| `RolloutController.Controller.HandleStop` | pkg/controllers/deploy_ctrl.go:268-301 | both deployments go to zero, the current one first, then the rolling label is cleared, cut after any write |
| `RolloutController.Controller.StartRollout` | pkg/controllers/deploy_ctrl_util.go:712-738 | the two writes of a new rollout, in their order, cut between them |
| `RolloutController.Controller.LastRolloutFinished` | pkg/controllers/deploy_ctrl_util.go:229-276 | when a rollout counts as finished |
| `RolloutController.Controller.HandleRolling` | pkg/controllers/deploy_ctrl.go:311-344 | the choice between rollback, finishing, a new rollout on either deployment, and nothing |
| `RolloutController.Controller.HandleScaling` | pkg/controllers/deploy_ctrl.go:303-309 | at most one replica write, and only past the guard |
| `RolloutController.Controller.Reconcile` | pkg/controllers/deploy_ctrl.go:87-117 | a reconcile that is cut after any API write has performed exactly a prefix of the writes of the uncut one |
| `RolloutDecisions.LabelClearedIff` | pkg/controllers/deploy_ctrl_util.go:229-276 | outside a stop a reconcile clears the rolling label exactly when, not paused and with no rollback called for, the new deployment is observed with all replicas updated and available, at least as many as asked for, and the old one with none in spec, status and pods that are not evicted |
| `RolloutDecisions.StopTakesAllDown` | pkg/controllers/deploy_ctrl.go:268-301 | an uncut reconcile of a stopped component leaves both deployments at zero with their templates, and no rolling label |
| `RolloutDecisions.PausedOnlyCreates` | pkg/controllers/deploy_ctrl.go:87-117 | a paused component gets missing deployments created and nothing else |
| `RolloutDecisions.CreatedTemplates` | pkg/controllers/deploy_ctrl.go:217-238 | the first deployment gets the rendered template, the second a dummy, so that no rollback returns to it |
| `RolloutDecisions.LookupIff` | pkg/controllers/deploy_ctrl_util.go:116-162 | when the deployments are a current and a last one, one alone or none, by group label |
| `RolloutDecisions.UnexpectedLeftAlone` | pkg/controllers/deploy_ctrl_util.go:116-162 | any other constellation is an error, and a reconcile writes nothing |
| `RolloutDecisions.RolloutStarts` | pkg/controllers/deploy_ctrl.go:311-344 | a new rollout or a rollback is two writes, template then markers, on the old deployment if it has the rendered template or the current one has replicas, else on the current one |
| `RolloutDecisions.GuardIff` | pkg/controllers/deploy_ctrl_util.go:308-327 | what the guard asks for in observations, for every kind of spec, with and without old replicas |
| `RolloutDecisions.OwnAutoscalerScales` | pkg/controllers/deploy_ctrl_util.go:403-456 | under an own autoscaler the old deployment loses one replica exactly when the current one has and reports ready max(minReplicas, old) or more; the current one is raised exactly to that |
| `RolloutDecisions.ExternalAutoscalerScales` | pkg/controllers/deploy_ctrl_util.go:458-494 | under an external one the old deployment goes altogether exactly when, in a rollout, the current one has and reports ready as many; until then the current one is raised exactly to the old one's size |
| `RolloutDecisions.ForceScales` | pkg/controllers/deploy_ctrl_util.go:329-350 | in force mode the current deployment is set to the expected count, then the old one to zero, whatever is observed |
| `RolloutDecisions.NoSurgeMoves` | pkg/controllers/deploy_ctrl_util.go:557-624 | without surge all free slots are filled; with none free as many old replicas go as the budget leaves and not one more |
| `RolloutDecisions.SameLimitsMoves` | pkg/controllers/deploy_ctrl_util.go:557-624 | with equal limits and a surge: above the expected total the old deployment shrinks by the unavailable step or by one, else the current one grows by the most that step, target and total allow |
| `RolloutDecisions.ChangedLimitsMoves` | pkg/controllers/deploy_ctrl_util.go:597-624 | with changed limits the current deployment is first brought to max(old, expected) |
| `RolloutDecisions.PlainSpecPlans` | pkg/controllers/deploy_ctrl_util.go:352-398 | which of them applies to a spec without autoscaler or force, and what happens with no old replicas |
| `RolloutDecisions.ReplicaCeilingInPercent` | pkg/controllers/deploy_ctrl_util.go:532-640 | the ceiling over whole runs for a surge of p%: the total is the initial one at most, or less than p% above expected plus one |
| `RolloutDecisions.AvailabilityFloorInPercent` | pkg/controllers/deploy_ctrl_util.go:532-624 | the floor at every scale-down for q% unavailable: at most q% of expected are given up, or a single one |
| `RolloutSafety.ReconcileSafe` | pkg/controllers/deploy_ctrl.go:217-344 | every write of a reconcile is safe at the point where it is made |
| `RolloutSafety.SafeWriteKeepsInv` | pkg/controllers/deploy_ctrl_util.go:642-738 | a safe write keeps the invariant |
| `RolloutSafety.EveryRunIsSafe` | pkg/controllers/deploy_ctrl.go:268-344 | over all runs of spec edits, rollbacks, stops and crashes: with the rolling label clear the non-current deployment has no replicas, and the two deployments keep their own group ids |
| `RolloutSafety.NoLiveTemplateEverChanges` | pkg/controllers/deploy_ctrl_util.go:712-738 | between any two API writes of any run, a deployment whose pod template changes has no replicas, and every template carries its own group id |
| `RolloutSafety.StartingPoints` | pkg/controllers/deploy_ctrl.go:217-238 | the empty cluster and the cluster left by the mode migration satisfy the invariant |
| `RolloutConvergence.ReconcileProgress` | pkg/controllers/deploy_ctrl.go:87-117 | one reconcile on a settled cluster strictly lowers a lexicographic rank from every invariant state short of the goal |
| `RolloutConvergence.Converges` | pkg/controllers/deploy_ctrl.go:311-344 | finitely many reconciles on a settling cluster reach desired template, expected replicas, empty old deployment and clear label |
| `RolloutConvergence.ConvergesAfterAnyRun` | pkg/controllers/deploy_ctrl_util.go:712-727 | the same from whatever any run with any crashes has left behind |
| `RolloutConvergence.GoalIsQuiet` | pkg/controllers/deploy_ctrl.go:87-117 | at the goal a reconcile writes nothing |
| `RolloutConvergence.SettledExists` | pkg/controllers/rollout_util.go:184-215 | every state has a settled observation, so convergence is not vacuous |
| `RolloutCapacity.PlannedRemovalFits` | pkg/controllers/deploy_ctrl_util.go:557-624 | the planner's arithmetic: what it removes from the old deployment fits the unavailability budget, for all three branches |
| `RolloutCapacity.GuardBoundsServing` | pkg/controllers/deploy_ctrl_util.go:308-327 | what the guards guarantee about the pods that serve right now |
| `RolloutCapacity.AvailabilityFloor` | pkg/controllers/deploy_ctrl_util.go:557-624 | at every scale-down of the old deployment the serving pods, less every pod that may go, number at least expected - maxUnavailable |
| `RolloutCapacity.ReplicaCeiling` | pkg/controllers/deploy_ctrl_util.go:557-640 | over whole runs with equal limits the two deployments together never want more than max(initial, expected + surge) |
| `RolloutCapacity.HpaKeepsOldCapacity` | pkg/controllers/deploy_ctrl_util.go:403-494 | under an autoscaler, whenever the old deployment is below its starting size the current one has max(minReplicas, start) or more, or start or more if the autoscaler is external |
| `RolloutCapacity.ChangedLimitsKeepOldCapacity` | pkg/controllers/deploy_ctrl_util.go:597-624 | with changed limits and a surge the current one has max(expected, start) or more as long as the old one still has replicas, and expected or more after that |
| `RolloutCapacity.FloorHoldsForGood` | pkg/controllers/deploy_ctrl_util.go:597-624 | if the old deployment was no larger than expected, the floor max(expected, start) holds throughout the rollout |
| `RolloutCapacity.SurplusIsReleased` | pkg/controllers/deploy_ctrl_util.go:626-640 | if it was larger, then once it is empty there is a run within the same rollout that takes the current one down to expected, below that floor |
| `RolloutFloor.FloorHoldsForGoodIff` | pkg/controllers/deploy_ctrl_util.go:597-640 | the two together, from the start of the rollout: the floor holds throughout every run of it if and only if the old deployment did not start above expected |
| `RolloutPods.ReconcileKeepsBound` | pkg/controllers/deploy_ctrl_util.go:308-398 | a reconcile, cut anywhere, keeps a cluster bounded, unless it abandons an empty deployment for one that cannot be filled up beside the pods leaving it |
| `RolloutPods.PodCeiling` | pkg/controllers/deploy_ctrl_util.go:557-640 | without surge, from a bounded cluster, live plus terminating pods never exceed the bound over whole runs, the last refill, restarts and rollbacks in the middle of a rollout included, if no reconcile is of that kind; bounded means that the other deployment has replicas or the current one can be filled up beside the pods leaving it |
| `RolloutPods.PodCeilingFromStart` | pkg/controllers/deploy_ctrl_util.go:557-640 | the bound is max(initial load, expected) |
| `RolloutPods.RefillLoad` | pkg/controllers/deploy_ctrl_util.go:659-670 | after the scale kind has flipped, the refill stays within expected exactly when the current deployment has nothing terminating |
| `RolloutPods.RollbackBreaksCeiling` | pkg/controllers/deploy_ctrl_util.go:219-227 | a concrete rollback in the middle of a rollout ends with four pods where three were expected all along |
| `RolloutRollback.ScaleUpBreaksCeiling` | pkg/controllers/deploy_ctrl_util.go:316-322 | so does a concrete scale-down and back up without any rollout, while the third pod still terminates |
| `RolloutRollback.DirtyStart` | pkg/controllers/deploy_ctrl_util.go:316-322 | from every cluster that is not bounded, and not paused, some run exceeds the bound |
| `RolloutRollback.CeilingIffStart` | pkg/controllers/deploy_ctrl_util.go:308-327 | the exact condition on the start, for every bound that covers load and expected count: no run without such a rollback exceeds the bound if and only if the component is paused or the cluster bounded |
| `RolloutRollback.DirtyRollbackOverflows` | pkg/controllers/deploy_ctrl_util.go:219-227 | from every state, a rollback of that kind is followed by a run, in which no later reconcile is, with more live and terminating pods than the bound |
| `RolloutRollback.CeilingIffCleanRollback` | pkg/controllers/deploy_ctrl_util.go:308-327 | the exact condition on a reconcile of a bounded cluster: no continuation exceeds the bound if and only if it is not such a rollback |
| `UpgradeReplicas.GetComponentWorkloadsBySpec` | pkg/controllers/components.go:208-226 | one workload per component, or one per deployment group of it |
| `UpgradeReplicas.RunsIff` | pkg/controllers/components.go:138-163 | which components run, in the fields of the spec |
| `UpgradeReplicas.WorkloadListedIff` | pkg/controllers/components.go:208-226 | which workloads there are: one per group for the four components that can have groups, and one for every other that runs |
| `UpgradeReplicas.SetThenRead` | pkg/controllers/components.go:369-396 | a replica write is seen at its own workload and nowhere else |
| `UpgradeReplicas.RecordOldInfo` | pkg/controllers/milvusupgrade_fsm.go:434-472 | the recorded maps, leaving what was recorded before as it is |
| `UpgradeReplicas.EachMapIsRecordedOnce` | pkg/controllers/milvusupgrade_fsm.go:434-466 | each of the two replica maps is recorded once, on its own, and kept after that |
| `UpgradeReplicas.RecordRemembers` | pkg/controllers/milvusupgrade_fsm.go:434-472 | a recording remembers every listed workload, nil replicas as one, and nothing else |
| `UpgradeReplicas.StopWorkloads` | pkg/controllers/milvusupgrade_fsm.go:496-517 | every workload goes to zero, or nothing changes if an external autoscaler owns one |
| `UpgradeReplicas.StartWorkloads` | pkg/controllers/milvusupgrade_fsm.go:329-359 | the recorded counts are written back, or an error if a group was not recorded |
| `UpgradeReplicas.RestoreReads` | pkg/controllers/milvusupgrade_fsm.go:329-359 | starting writes the remembered count at every listed workload and leaves the rest alone |
| `UpgradeReplicas.RestoreSucceedsIff` | pkg/controllers/milvusupgrade_fsm.go:338-346 | starting fails exactly when a listed group has no recorded count |
| `UpgradeReplicas.RollbackRestoresReplicas` | pkg/controllers/milvusupgrade_fsm.go:163-171 | record, then any stops under any component sets, then start on the source image restores every workload |
| `UpgradeReplicas.ForwardReplicas` | pkg/controllers/milvusupgrade_fsm.go:320-359 | on the target image a workload the source version ran gets its count back and a new component gets zero |
| `UpgradeReplicas.ForwardStartsIff` | pkg/controllers/milvusupgrade_fsm.go:338-346 | the start on the target image fails exactly when it runs a deployment group the source version did not |
| `UpgradeReplicas.ForwardRoundTrip` | pkg/controllers/milvusupgrade_fsm.go:320-359 | with the same component set on both images the forward path restores every workload |
| `UpgradeReplicas.NewComponentStartsEmpty` | pkg/controllers/components.go:138-163 | a 2.5 cluster moved to 2.6 whose streaming node comes up with no replicas |
| `UpgradeMachine.IsMilvusStopping` | pkg/controllers/milvusupgrade_fsm.go:519-533 | true exactly when every workload has zero replicas and every autoscaled one is under the stop marker |
| `UpgradeMachine.Handle` | pkg/controllers/milvusupgrade_controller.go:46-64 | every transition a state function takes goes to a state of the table with a strictly lower rank, which is why the loop ends |
| `UpgradeMachine.Reconciler.IsMilvusStopped` | pkg/controllers/milvusupgrade_fsm.go:535-559 | the stopped mark is set only when every deployment is observed at zero, and is waited out after that |
| `UpgradeMachine.Reconciler.Stop` | pkg/controllers/milvusupgrade_fsm.go:496-517 | the new Milvus object, or an error and no change |
| `UpgradeMachine.Reconciler.Start` | pkg/controllers/milvusupgrade_fsm.go:329-359 | the new Milvus object with its marks removed, or an error |
| `UpgradeMachine.Reconciler.OldVersionStoppingState` | pkg/controllers/milvusupgrade_fsm.go:190-206 | record and stop, or wait, or go on to the backup |
| `UpgradeMachine.Reconciler.BackupMetaState` | pkg/controllers/milvusupgrade_fsm.go:208-225 | start, wait, succeed or fail by the phase of the backup pod |
| `UpgradeMachine.Reconciler.UpdatingMetaState` | pkg/controllers/milvusupgrade_fsm.go:227-249 | the change flag is set before the pod starts, and a missing pod is an error without a transition |
| `UpgradeMachine.Reconciler.HandleBackupMetaFailed` | pkg/controllers/milvusupgrade_fsm.go:288-304 | retry within the limit, else fail |
| `UpgradeMachine.Reconciler.HandleUpgradeFailed` | pkg/controllers/milvusupgrade_fsm.go:154-161 | roll back only if the spec asks for it |
| `UpgradeMachine.Reconciler.RollbackStoppingState` | pkg/controllers/milvusupgrade_fsm.go:173-188 | stop, wait or go on to the restore |
| `UpgradeMachine.Reconciler.RestoringOldMetaState` | pkg/controllers/milvusupgrade_fsm.go:251-270 | no restore without a taken backup, else by the phase of the restore pod |
| `UpgradeMachine.Reconciler.Reconcile` | pkg/controllers/milvusupgrade_fsm.go:59-100 | the loop computes the recursive specification, and ends because the rank falls |
| `UpgradeSafety.DeterminedKeeps` | pkg/controllers/milvusupgrade_fsm.go:138-152 | every reconcile starts in a state of the table and keeps the invariant |
| `UpgradeSafety.EveryRunKeeps` | pkg/controllers/milvusupgrade_fsm.go:138-286 | the control invariant holds in every state of every run |
| `UpgradeSafety.EveryUpgradeIsSafe` | pkg/controllers/milvusupgrade_fsm.go:138-286 | in every run: task pods start only while Milvus is marked stopped with all workloads at zero and drained, every deployment seen at zero, since the last start; migration and restore only after a backup succeeded; the target version only after a migration succeeded; the source version again, once a backup was taken, only after a restore succeeded; a changed store is a backed-up store; rollback states and the rollback flag go together |
| `UpgradeSafety.EveryRunMovesOnward` | pkg/controllers/milvusupgrade_fsm.go:288-304 | rollback is never left, a taken backup never forgotten, and retries never exceed a constant limit, over any number of reconciles |
| `UpgradeProgress.StoppingWaits` | pkg/controllers/milvusupgrade_fsm.go:535-559 | with all workloads at zero: nothing happens until every deployment is seen at zero, then the stopped mark is set, and nothing happens until the wait is over |
| `UpgradeProgress.TasksAreWaitedFor` | pkg/controllers/milvusupgrade_fsm.go:306-318 | a pending or running task is left alone, and so is a migration without a pod |
| `UpgradeProgress.TasksAreStarted` | pkg/controllers/milvusupgrade_fsm.go:208-270 | a backup or restore without a pod is started |
| `UpgradeProgress.ResultsStay` | pkg/controllers/milvusupgrade_fsm.go:59-100 | a finished upgrade or rollback stays as it is |
| `UpgradeProgress.FailedBackupIsRetried` | pkg/controllers/milvusupgrade_fsm.go:288-304 | with retries left a failed backup is counted, its pod deleted, and the state is the backup again |
| `UpgradeProgress.FailedBackupGivesUp` | pkg/controllers/milvusupgrade_fsm.go:288-304 | with none left it is rolled back exactly if the spec asks for that, and rests otherwise, uncounted |
| `UpgradeProgress.BackupIsTriedAgainExactly` | pkg/controllers/milvusupgrade_fsm.go:288-304 | over whole runs: after any number of failed tries up to maxRetry a good one leads to the migration; after maxRetry retries one more failure gives up |
| `UpgradeProgress.BackupLeadsToMigration` | pkg/controllers/milvusupgrade_fsm.go:208-249 | a backup that succeeded is recorded and the migration started in one reconcile |
| `UpgradeProgress.MigrationSucceeds` | pkg/controllers/milvusupgrade_fsm.go:227-249 | a migration that succeeded ends in the target version running without stop marks, or waits if it cannot be started |
| `UpgradeProgress.MigrationFails` | pkg/controllers/milvusupgrade_fsm.go:154-161 | a failed migration is rolled back exactly if the spec asks for that |
| `UpgradeProgress.RestoreSucceeds` | pkg/controllers/milvusupgrade_fsm.go:251-286 | a restore that succeeded, or was not needed, ends in the source version running without stop marks |
| `UpgradeProgress.RestoreFails` | pkg/controllers/milvusupgrade_fsm.go:251-286 | a failed restore ends the rollback and changes nothing else |
| `UpgradeProgress.TargetStartsIff` | pkg/controllers/milvusupgrade_fsm.go:329-359 | the target version can be started exactly if every deployment group it runs was run by the source version |
| `UpgradeProgress.UpgradeSucceeds` | pkg/controllers/milvusupgrade_fsm.go:59-100 | end to end from every running Milvus: with nothing failing the upgrade ends in the target version on migrated metadata, exactly if the groups carry over |
| `UpgradeProgress.FailedMigrationRollsBack` | pkg/controllers/milvusupgrade_fsm.go:59-100 | end to end: a failed migration with rollback asked for ends in the source version on its own metadata |
| `UpgradeErrors.ErrorIff` | pkg/controllers/milvusupgrade_fsm.go:154-328 | which failing calls are errors of which state, exactly |
| `UpgradeErrors.FailedStepStays` | pkg/controllers/milvusupgrade_fsm.go:59-100 | a failed step changes no task, counter or direction, stays in its state and leaves Milvus alone, unless only the last call of a start failed |
| `UpgradeErrors.UnreadMilvusLeftAlone` | pkg/controllers/milvusupgrade_fsm.go:59-76 | a reconcile that cannot read Milvus changes nothing |
| `UpgradeErrors.RecordedBeforeStop` | pkg/controllers/milvusupgrade_fsm.go:190-206 | Milvus is recorded in the first step that finds it running, even if the stop then fails, and a recording is kept |
| `UpgradeErrors.FirstStopRecords` | pkg/controllers/milvusupgrade_fsm.go:434-472 | what is recorded: the count of every workload that runs, nil as one, and nothing else |
| `UpgradeErrors.UnstartedIff` | pkg/controllers/milvusupgrade_fsm.go:227-232 | the migration is left without a pod exactly if the call that starts it fails |
| `UpgradeErrors.ExistingPodIsKept` | pkg/controllers/milvusupgrade_fsm.go:369-376 | a migration pod that is there already is not replaced |
| `UpgradeErrors.UnstartedMigrationIsStuck` | pkg/controllers/milvusupgrade_fsm.go:227-249 | and it is never started again: until a rollback is asked for every run stays in that state, whatever the spec says about failures |
| `UpgradeMetadata.StartedOnOwnMetadata` | pkg/controllers/milvusupgrade_fsm.go:251-270 | if rollbacks are not requested while a migration pod is at work, every started Milvus meets metadata of its own version, and metadata is only changed while Milvus is stopped and drained |
| `UpgradeMetadata.CarelessRollbackMeetsTarget` | pkg/controllers/milvusupgrade_fsm.go:138-152 | without that care the guarantee fails from every state with a migration at work, whichever calls of the reconcile fail: the source version can be started on migrated metadata |
| `UpgradeMetadata.OwnMetadataIffCareful` | pkg/controllers/milvusupgrade_fsm.go:138-152 | the exact condition in every state with recorded replicas and for every environment, failing calls included: no careful continuation of a reconcile starts a version on the other's metadata if and only if the reconcile does not request a rollback beside a migration at work |
| `UpgradeFailures.MigrationIsReached` | pkg/controllers/milvusupgrade_fsm.go:190-249 | smooth reconciles bring every running Milvus, recorded, stopped, drained and backed up, to a migration at work |
| `UpgradeFailures.SmallIsRunning` | pkg/controllers/components.go:138-163 | a standalone Milvus with one replica is a running Milvus that can be stopped, so these results are not vacuous |
| `UpgradeFailures.RecordedCanRestart` | pkg/controllers/milvusupgrade_fsm.go:329-359 | in every run, what was recorded can be restarted on the source image |
| `UpgradeFailures.RollbackDuringMigrationMeetsTarget` | pkg/controllers/milvusupgrade_fsm.go:138-152 | end to end from a running Milvus: a rollback requested in the middle of the migration can end with the source version started on migrated metadata |
| `UpgradeRestart.EveryStartRestoresReplicas` | pkg/controllers/milvusupgrade_fsm.go:329-359 | in every run every start brings back the recorded replicas of the workloads both versions run, and every rollback the recorded image and every recorded workload with its count; with nothing recorded, an empty image and no replicas |
| `UpgradeFailures.StopStops` | pkg/controllers/milvusupgrade_fsm.go:496-533 | stopping a Milvus whose workloads are all configured and none scaled from outside leaves every workload at zero |
| `UpgradeFailures.UnrecordedRollbackLosesImage` | pkg/controllers/milvusupgrade_fsm.go:163-171 | a rollback requested before anything was recorded starts Milvus with an empty image, whether it was running or already at zero |
| `ModeMigration.NewSetNameInjective` | pkg/controllers/deploy_mode_changer.go:154-161 | the new name exists exactly when the old one has a dash, and no two old names share it |
| `ModeMigration.NewSetNameFollowsDeploy` | pkg/controllers/deploy_mode_changer.go:154-161 | the renamed set has the name the recreated Deployment gives its sets |
| `ModeMigration.ModeChanger.SaveDeleteOldDeploy` | pkg/controllers/deploy_mode_changer.go:82-98 | save before delete, then ask to run again |
| `ModeMigration.ModeChanger.SaveDeleteOldReplicaSet` | pkg/controllers/deploy_mode_changer.go:100-117 | the first list is the one saved, and every old set is deleted even if deleting one fails |
| `ModeMigration.ModeChanger.UpdateOldPodLabels` | pkg/controllers/deploy_mode_changer.go:119-132 | pods are relabelled one by one up to the first failure |
| `ModeMigration.ModeChanger.RecoverReplicaSets` | pkg/controllers/deploy_mode_changer.go:134-168 | the saved sets are created under their new names, skipping those that exist |
| `ModeMigration.ModeChanger.RecoverDeploy` | pkg/controllers/deploy_mode_changer.go:170-192 | the saved Deployment is created under its new name unless it exists |
| `ModeMigration.ModeChanger.MarkCurrentDeploy` | pkg/controllers/deploy_mode_changer.go:194-201 | group 0 becomes current |
| `ModeMigration.ModeChanger.ChangeToTwoDeployMode` | pkg/controllers/deploy_mode_changer.go:59-69 | the six steps in order, up to the first that does not go on |
| `ModeMigration.ModeChanger.ReconcileMode` | pkg/controllers/deploy_ctrl.go:54-85 | the migration is entered by the mark or by an old Deployment, and left through clearing the mark |
| `ModeMigrationSafety.ReconcileKeeps` | pkg/controllers/deploy_mode_changer.go:82-201 | a reconcile cut anywhere keeps the invariant, and goes on as a two-deployment component only when the migration is complete |
| `ModeMigrationSafety.NothingIsLost` | pkg/controllers/deploy_mode_changer.go:32-69 | in every run, cut anywhere and started over, the old Deployment and every old set exist or are saved, every pod is there, and a half-done migration carries the mark that resumes it |
| `ModeMigrationSafety.RoundProgress` | pkg/controllers/deploy_mode_changer.go:59-69 | every undisturbed round brings the migration to a later stage |
| `ModeMigrationSafety.CompletesIffNamesAreValid` | pkg/controllers/deploy_mode_changer.go:134-168 | from every state a run leaves behind, five undisturbed rounds end with one group-0 Deployment, one group-0 set per old one and all pods relabelled, if every set name has a dash; otherwise no run ever completes |
| `ModeMigrationSafety.MigratedObjects` | pkg/controllers/deploy_mode_changer.go:119-201 | what has become of every object: Deployment named with -0, sets with -0 before the last dash, all three labels 0, the same bodies, pods relabelled and otherwise as they were, the mark cleared |
| `ModeMigrationSafety.BeginsIff` | pkg/controllers/deploy_ctrl.go:54-85 | an unmarked component begins exactly with one old Deployment and no rolling update; with several it is an error, with none it is in the new mode, and nothing is written |
| `ModeMigrationSafety.SeveralOldAreAnError` | pkg/controllers/deploy_mode_changer.go:82-98 | several old Deployments are an error at any time, and nothing is written |
| `ModeMigrationSafety.EachSetIsDeleted` | pkg/controllers/deploy_mode_changer.go:100-117 | whichever deletions fail, each old set whose own deletion went through is terminating and no other is touched |
| `ModeMigrationSafety.CompleteIsQuiet` | pkg/controllers/deploy_mode_changer.go:59-69 | a further run of the six steps writes nothing |
| `ModeMigrationSafety.DoneStays` | pkg/controllers/deploy_ctrl.go:54-85 | once complete and unmarked nothing changes any more |
| `EtcdResize.Resizer.CreateNewStatefulSet` | pkg/controllers/dependencies.go:372-388 | every volume claim template gets the size |
| `EtcdResize.Resizer.UpdateAllClaims` | pkg/controllers/dependencies.go:315-328 | claims are updated in order up to the first that is missing or fails |
| `EtcdResize.Resizer.ReconcilePvcs` | pkg/controllers/dependencies.go:259-370 | a run restores a missing StatefulSet first and deletes one only after its claims are updated and a copy is saved, whichever writes fail |
| `EtcdResize.RunKeeps` | pkg/controllers/dependencies.go:259-370 | a run keeps the invariant wherever it is cut, unless it starts on a terminating StatefulSet of another size with all claims there |
| `EtcdResize.NeverLost` | pkg/controllers/dependencies.go:335-358 | for any sizes and cuts without such a run the StatefulSet stands or a copy is saved, and a copy that may be needed has the size of its claims |
| `EtcdResize.ImpatientRunLosesBoth` | pkg/controllers/dependencies.go:335-341 | every such run that dies after dropping the copy loses both |
| `EtcdResize.LossIffImpatient` | pkg/controllers/dependencies.go:335-341 | the exact condition: some cut of a run, followed by the end of the deletion, loses both if and only if the run is of that kind |
| `EtcdResize.LossIsReachable` | pkg/controllers/dependencies.go:362-366 | a run cut while it waits for the deletion leads there |
| `EtcdResize.UncutRunEndsAtSizeIff` | pkg/controllers/dependencies.go:330-332 | an uncut run ends at the size exactly when it was there already or there is a template and no claim is missing; a missing claim stops it before anything is destroyed |
| `EtcdResize.UncutRunOutcome` | pkg/controllers/dependencies.go:259-388 | everything an uncut run for another size leaves: all templates at the size, the same replicas and body, the saved copy with its first template changed, the claims of the replicas at the size and no others |
| `EtcdResize.RightSizeIsQuiet` | pkg/controllers/dependencies.go:390-398 | nothing is written if the first template has the size, and no request counts as zero |
| `EtcdResize.CopyComesBack` | pkg/controllers/dependencies.go:270-312 | a missing StatefulSet comes back from its copy, with the size of the first template in all of them |
| `EtcdResize.RunStopsAtFailure` | pkg/controllers/dependencies.go:259-370 | no run makes a write after one that failed |
| `EtcdResize.NewSizeMeansClaims` | pkg/controllers/dependencies.go:315-328 | in all runs for one size, cut anywhere and started at any time, a StatefulSet of that size implies that every replica's claim requests it |
| `EtcdResize.CutRunsStillArrive` | pkg/controllers/dependencies.go:259-370 | after any such runs one uncut run ends with StatefulSet and claims at the size exactly when the StatefulSet or a copy is still there |
| `DependencyGraph.Graph.AddDependency` | pkg/controllers/dependency_graph.go:23-31 | both maps after the call |
| `DependencyGraph.Graph.GetDependencies` | pkg/controllers/dependency_graph.go:33-36 | the deployment group does not matter |
| `DependencyGraph.Graph.GetReversedDependencies` | pkg/controllers/dependency_graph.go:38-41 | the deployment group does not matter |
| `DependencyGraph.ReversedIsConverse` | pkg/controllers/dependency_graph.go:23-31 | for any calls on distinct components the reversed map is exactly the converse relation, multiplicities included |
| `DependencyGraph.ReversedRemembersEveryCall` | pkg/controllers/dependency_graph.go:23-31 | for any calls at all the reversed map holds the edges of every call, also of replaced ones |
| `DependencyGraph.ConverseIffNotAddedAgain` | pkg/controllers/dependency_graph.go:23-31 | for any calls the reversed map is the converse, multiplicities included, exactly when no component is added again after a call with dependencies |
| `DependencyGraph.AddingAgainBreaksConverse` | pkg/controllers/dependency_graph.go:23-31 | two calls for one component that drop an edge, and two that repeat it, both break it |
| `DependencyGraph.ChainEdges` | pkg/controllers/dependency_graph.go:43-70 | the four graphs are chains: forwards and backwards a component is linked to its neighbour and nothing else |
| `DependencyGraph.StandaloneWaitsForNobody` | pkg/controllers/components.go:595-606 | outside a cluster no component waits |
| `DependencyGraph.WaitingFor26` | pkg/controllers/dependency_graph.go:65-69 | the upgrade to 2.6: the list every component waits for, MixCoord for StreamingNode first of all, in both directions |
| `DependencyGraph.WaitingWithStreaming` | pkg/controllers/dependency_graph.go:59-63 | with streaming nodes: the list every component waits for, forwards and backwards, StreamingNode for MixCoord first of all |
| `DependencyGraph.WaitingWithMixCoord` | pkg/controllers/dependency_graph.go:53-57 | with one coordinator: the list every component waits for, forwards and backwards |
| `DependencyGraph.WaitingWithCoordinators` | pkg/controllers/dependency_graph.go:44-51 | with separate coordinators: the list every component waits for, forwards and backwards |
| `ImageRollout.RollingUpdateImageDependencyReady` | pkg/controllers/deployment_updater.go:796-824 | the gate: status observed, CDC first, then everything the component waits for |
| `ImageRollout.EveryStateIsClosed` | pkg/controllers/deployment_updater.go:473-480 | every reachable state of a rolling update is closed under what components wait for, with stale statuses and grouped components |
| `ImageRollout.ClosedUnderPaths` | pkg/controllers/components.go:602-620 | closure reaches through transitive dependencies |
| `ImageRollout.RolloutFollowsTheOrder` | pkg/controllers/components.go:595-620 | for the components a spec runs, in every closed state: the ones with the image are the ones before some point of the order, or behind it when downgrading |
| `ImageRollout.Upgrade26InTurn` | pkg/controllers/components.go:595-600 | in every state of every upgrade to 2.6: StreamingNode, MixCoord, QueryNode, DataNode, Proxy, each only after all workloads of those before it |
| `ImageRollout.StreamingInTurn` | pkg/controllers/components.go:602-620 | with streaming nodes: MixCoord, StreamingNode, QueryNode, DataNode, Proxy, and a downgrade from Proxy to MixCoord |
| `ImageRollout.MixCoordInTurn` | pkg/controllers/components.go:602-620 | with one coordinator: IndexNode, MixCoord, QueryNode, DataNode, Proxy, and a downgrade the other way |
| `ImageRollout.CoordinatorsInTurn` | pkg/controllers/components.go:602-620 | with separate ones: IndexNode, RootCoord, DataCoord, IndexCoord, QueryCoord, QueryNode, DataNode, Proxy, and a downgrade the other way |
| `ImageRollout.ProxyComesLast` | pkg/controllers/components.go:602-620 | in every state of every upgrade of any cluster the query nodes come after all coordinators that run, data nodes after those and proxies last |
| `ImageRollout.ProxyComesFirst` | pkg/controllers/components.go:602-620 | in every state of every downgrade the proxies come first, then data nodes, query nodes and all coordinators that run |
| `ImageRollout.WorkloadExistsIff` | pkg/controllers/components.go:208-226 | the workloads the order is about: one per deployment group, or one without a group |
| `ImageRollout.TakesImageIff` | pkg/controllers/deployment_updater.go:796-824 | a rendered workload takes the image exactly when the status is observed and, unless it is CDC, CDC and everything it waits for are recorded complete with the image; no other workload changes |
| `ImageRollout.OrderRuns` | pkg/controllers/components.go:602-620 | every component of the order that applies to a spec runs, except for the MixCoord of a streaming order below 2.6 with separate coordinators |
| `ImageRollout.SomeGateIsOpen` | pkg/controllers/deployment_updater.go:796-824 | but for an upgrade in that exception the rollout is never stuck: when everything with the image is recorded complete, another component may take it |
| `ImageRollout.StreamingNodeWaitsForEver` | pkg/controllers/deployment_updater.go:796-824 | in that exception an upgrade never lets the streaming node take the image, over all runs |
| `ImageRollout.CdcComesFirst` | pkg/controllers/deployment_updater.go:796-824 | in every state of every run no other component has the image before every CDC workload has |
| `ImageRollout.RollThrough` | pkg/controllers/deployment_updater.go:796-824 | any components listed in an order in which each finds CDC and what it waits for before it can be brought to the image one after the other, from any state |
| `ImageRollout.CompletesIff` | pkg/controllers/components.go:595-620 | a rollout that has not reached the streaming nodes has a run that completes it on every component, exactly if it is not an upgrade in that exception |
| `ImageRollout.NothingAfterMixCoord` | pkg/controllers/deployment_updater.go:796-824 | nor do the query nodes, data nodes and proxies behind it ever begin |
| `StatusAggregation.Aggregate` | pkg/controllers/status_cluster.go:558-625 | the aggregate's state is the worst group state (complete, paused, progressing, failed), counts add up, readiness is the conjunction, and it has a nonempty image exactly if all groups share it |
| `StatusAggregation.StateIff` | apis/milvus.io/v1beta1/milvus_types.go:324-356 | the state of one status by its first progressing condition and its generation, reason by reason |
| `StatusAggregation.ReadyIff` | pkg/controllers/utils.go:257-264 | readiness by the first availability condition |
| `StatusAggregation.WorstMeans` | pkg/controllers/status_cluster.go:558-625 | which state speaks for the component: failed if any group has failed, else progressing if any is, else paused if any is, else complete |
| `StatusAggregation.TotalAdds` | pkg/controllers/status_cluster.go:558-625 | each group adds each of its counts to the count of the same kind |
| `StatusAggregation.UpdatedIffEveryGroupIs` | pkg/controllers/components.go:623-637 | the image gate holds of the aggregate exactly when it holds of every group |
| `StatusAggregation.WorstOfParts` | apis/milvus.io/v1beta1/milvus_types.go:324-343 | the worst state of two lists together is the worse of the two |
| `ValueMerge.MergeValues` | pkg/util/util.go:71-95 | the merge computed in any order of the patch's keys |
| `ValueMerge.LeavesOfMerge` | pkg/util/util.go:71-95 | the leaves of a merge are exactly the patch's leaves and those origin leaves the patch says nothing about, at every path |
| `ValueMerge.LeavesDetermine` | pkg/util/util.go:71-95 | values without empty maps that have the same leaves are the same, so the leaves say all about a merge of such values |
| `ValueMerge.MergeHasNoEmptyMap` | pkg/util/util.go:71-95 | a merge of values without empty maps has none |
| `ValueMerge.MergeTwice` | pkg/util/util.go:71-95 | a patch applied twice is a patch applied once |
| `ValueMerge.DefaultsAreStable` | apis/milvus.io/v1beta1/milvus_webhook.go:633-651 | layering defaults under values that already have them changes nothing |
| `ValueMerge.DefaultingIsIdempotent` | apis/milvus.io/v1beta1/milvus_webhook.go:633-651 | defaulting any number of times gives what defaulting once gives |
| `EnvMerge.MergeEnvVar` | pkg/controllers/utils.go:155-179 | the merged list: last occurrences overwritten in place by the last desired value, new names appended with their repetitions |
| `EnvMerge.MergeEffective` | pkg/controllers/utils.go:155-179 | what counts for a name is the desired value if there is one |
| `EnvMerge.MergeOneMore` | pkg/controllers/utils.go:155-179 | one desired variable more takes the place of the last existing one of its name, or comes at the end; nothing else moves |
| `EnvMerge.PruneStorageCredentialEnv` | pkg/controllers/deployment_updater.go:379-395 | managed names that are not desired are dropped, everything else keeps its place |
| `EnvMerge.UpdateEnv` | pkg/controllers/deployment_updater.go:416-488 | the new environment: stale credentials go before the desired variables are merged, and the layered-config flag wins over both |
| `EnvMerge.NoUndesiredCredential` | pkg/controllers/deployment_updater.go:379-395 | no managed credential is left that the spec does not ask for |
| `EnvMerge.EffectiveEnv` | pkg/controllers/deployment_updater.go:416-488 | for every name, what the container sees after the update |
| `EnvMerge.StaleCredentialsGo` | pkg/controllers/deployment_updater.go:379-395 | for a name that is not desired: the seven credentials are gone, the layered-config flag is true or false as asked, everything else is as it was |
| `EnvMerge.PruneParts` | pkg/controllers/deployment_updater.go:379-395 | pruning works variable by variable and keeps the order |
| `EnvMerge.UpdateIsIdempotent` | pkg/controllers/deployment_updater.go:416-488 | the pipeline applied twice is the pipeline applied once, for all lists, repeated names and a desired flag included |
| `PvcNames.MatchStatefulSetPvcOrdinal` | pkg/controllers/statefulset.go:266-279 | the ordinal of the first prefix that fits, with 32-bit truncation |
| `PvcNames.NoOtherReading` | pkg/controllers/statefulset.go:266-279 | no prefix reads another ordinal out of a claim's name |
| `PvcNames.ClaimParsesBack` | pkg/controllers/statefulset.go:266-279 | the name of a claim yields its ordinal below 2^31 whichever templates are listed and tried first |
| `PvcNames.GroupClaimIsNotMatched` | pkg/controllers/statefulset.go:715-744 | for one template name a group's claim is never taken for one of the ungrouped StatefulSet |
| `PvcNames.GroupClaimMatchedIff` | pkg/controllers/statefulset.go:715-744 | for any templates it is taken for one exactly when some template, with the StatefulSet's name, spells out the group claim's template, name and group |
| `PvcNames.GroupClaimCanBeMistaken` | pkg/controllers/statefulset.go:715-744 | two templates with which that happens |
| `PvcNames.CleanupScaledDown` | pkg/controllers/statefulset.go:228-262 | which of the listed claims are left |
| `PvcNames.ScaleDownDeletesExactly` | pkg/controllers/statefulset.go:228-262 | a scale-down removes a replica's claim exactly when the replica is no longer wanted and the claim is not already going |
| `PvcNames.OrdinalWraps` | pkg/controllers/statefulset.go:266-279 | a larger ordinal is read modulo 2^32 into the signed range |
| `PvcNames.WrappedClaimIsKept` | pkg/controllers/statefulset.go:228-279 | so a claim whose ordinal wraps to a negative one outlives every scale-down |

## Left out

Assumptions of the theorems, and parts of the operator that are not modelled.

- Kubernetes, Helm and cloud clients, the HPA object, template rendering, services, config maps, conditions, events, logging and the command line: a rendered pod template is an opaque value with its containers' limits, and client calls are steps on the modelled store.
- Stale reads: informer caches and conflicts on resource versions are not modelled; a reconcile sees the store as it is. A failed read ends a run like a failed write.
- Manual mode and user edits of replicas, which break the replica invariants on purpose.
- Writes that change neither replicas nor templates nor marks: strategies, annotations, deployment-group metadata and the no-op that marks a deployment as current.
- Nil replicas of a Deployment: the API server defaults them, so a stored Deployment has a number.
- 32-bit overflow of replica sums, and floating-point rounding in percentages, which are computed exactly.
- Force mode with externally managed replicas: the force planner does not treat the value -1 specially, so the theorems that exclude force mode do not cover it.
- Wall-clock waits: the minute after a stop and requeue intervals are a nondeterministic flag.
- ReplicaCeiling: assumes that all templates of the run have equal resource limits, since with changed limits the planner raises the current deployment to the old size first.
- AvailabilityFloor: assumes that a pod has at most one readiness condition, as Kubernetes guarantees.
- HpaKeepsOldCapacity: is about one rollout, from its start to the next switch of the current group, and takes replicas to be changed by the operator only; an autoscaler that resizes a deployment in between is not modelled.
- ChangedLimitsKeepOldCapacity: is about one rollout with a surge; without one the planner trades pod for pod.
- The MilvusUpgrade theorems take one reconcile as atomic: the Milvus write and the status write both land. A lost status write after stopping would lose the snapshot.
- The upgrade is the only one to edit the Milvus object while it runs, a pod whose phase is succeeded, failed or unknown does no more work, and a new upgrade finds no stopped-at mark.
- StatefulSet-backed components inside the upgrade, which the drained check does not look at; the alpha resource is modelled only as a call that may fail; versions are an abstract predicate on version string and image.
- Sorting of deployment groups by name: the order of workloads does not matter to any theorem.
- The mode migration starts from one old Deployment without saved revisions or foreign objects under the new names, sees terminating objects disappear only between reconciles, and pods are neither created nor lost by others meanwhile. Server-assigned identities are not modelled.
- The etcd resize starts without a saved revision; deleting a saved revision is immediate; the StatefulSet is created with every template at the size while the saved copy changes only the first one, as in the source.
- Image rollout: all workloads exist, no component overrides the image, the target image is nonempty and stays fixed, and the order that applies does not change during the rollout. Forced and all-at-once update modes bypass the gate.
- StatusAggregation: timestamps of conditions.
- MergeValues: works on values; that the Go code shares nested maps between patch and result is not captured, nor are typed nil maps inside a tree.
- PvcNames: listing by labels and the delete calls' failures.
- Endpoint probe cache, checksums and state keys: distinct groups are taken to have distinct keys.
