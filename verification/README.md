# kube-hardware-autoscaler: model and proofs

The operator powers physical machines on and off for a Kubernetes cluster. A *pool* evaluates its
machines and the cluster's pending pods every few seconds and stores On and Off decisions on the
machines. Each *machine* has its own reconcile loop that carries the decision out: it reads the power
state, tracks boots and manual power changes, drains, asks for a shutdown, and as a last resort cuts
the power. Pools may overlap, so one machine can be a member of several.

The project models these parts and proves what they promise.

| files | what they hold |
|---|---|
| `MachineStatus`, `MachineStep`, `StepTable`, `Reconciler`, `MachineRuns` | one machine: its status, one reconcile as a function from status and readings to status and effects, that function as a decision table over the stored fields and the readings, the reconciler object whose methods update its status in place and are proved equal to that function, and runs of reconciles, pool decisions and operator edits |
| `BootSafety`, `LeaveOnSafety`, `DrainSafety`, `StandbySafety`, `OverrideSafety`, `GateSafety` | what holds over all runs of one machine |
| `ManualChanges` | when a power change of ours is taken for one made by hand |
| `FailureRuns` | concrete runs in which a failure or a standby cuts the power against the documentation |
| `Resources`, `Scheduling`, `SchedulingSafety`, `Ordering`, `PoolModel` | pods, nodes, placement, membership, drain classes, the ranking of machines |
| `ScaleUp`, `ScaleUpSafety` | the first-fit-decreasing packing and the `minOnline` top-up |
| `ScaleDown`, `ScaleDownSafety`, `ScaleDownGate` | when a machine is unneeded, the removal loop with its simulated moves, and exactly when something goes |
| `Planner`, `PlannerRuns`, `PlannerLimits` | the plan of one pool, cycles of one pool, and families of snapshots on which a promise ends |
| `ForgottenPowerOn` | when the hold after a power-on is kept, and a power-on that the pool could not store |
| `PoolMembers`, `MemberSafety`, `PoolProtocol`, `PoolSafety`, `PoolCycles`, `MinOnlineAgreement`, `DecisionLog` | how a pool sees machines, several pools writing to shared machines, what every interleaving keeps, and the decision log |
| `MergePatch`, `StatusPatch`, `Identity`, `Checksum` | status patches against JSON Merge Patch, the UUID check, the ICMP checksum |
| `Prelude`, `Clock` | shared vocabulary |

Loops and in-place updates of the original are methods with loops or methods of a class. Each is
proved to compute a specification function, and the results below are proved about those functions
for all inputs and all runs. Time is an integer number of ticks; every comparison in whole seconds
truncates as the original does. Quantities are exact integers, and utilization is an exact ratio.

## What the code does not keep

Some promises of the documentation are false of the code. For each there is a lemma with the failing
situation and, next to it, the condition under which the promise does hold.

- *Continuously unneeded.* `unneededSince` is a nested object, and the status patch never deletes
  nested keys. A machine that was busy in between keeps its old time whenever another machine of the
  pool was unneeded meanwhile, and can be powered off the moment it is idle again
  (`PlannerRuns.InterruptedMachineExpires`). The stored times tell the truth if and only if no patch
  had a name to drop (`PlannerRuns.TruthfulExact`); what they mean otherwise is
  `PlannerRuns.StoredTimeIsFirstNoted`.
- *`LeaveOn`.* A machine powered on by hand can be powered off when the boot that its status times, or,
  with the Node Ready, the first boot timed from the next instant on, began at most 120 seconds after a
  PowerOn of ours. For every boot timeout and any course of an increasing clock that is exactly the
  condition (`LeaveOnSafety.LeaveOnExactInRuns`), counted from the reconcile that finds the machine and
  records it. It arises in a run: a power-on released on an Unknown reading
  (`LeaveOnSafety.LeaveOnCanFail`).
- *Our own power changes are never taken for manual ones.* After every run, a change of ours is taken for
  a manual one if and only if the machine comes on from stored Off (or a standby of more than 300
  seconds) or goes off from stored on, and no action whose status was stored explains it: ours was lost,
  or is older than the boot timeout, for a power-off the shutdown timeout and 300 seconds
  (`ManualChanges.OursTakenForManualExact`). A stored PowerOn is only taken so when the machine was read
  as not on in between (`ManualChanges.StoredPowerOnTaken`). It happens with nothing failing
  (`ManualChanges.ReleasedPowerOnLooksManual`, `ManualChanges.SlowPowerOffLooksManual`) and after a lost
  status (`ManualChanges.LostForceOffLooksManual`, `BootSafety.ForgottenPowerOnLooksManual`).
- *Phase Off stops the boot clock*, except after that same release
  (`StandbySafety.OffStopsTheBootClock`).
- *An old boot failure never acts on a later boot*: true of completed, stored reconciles with a power
  reading. A Node seen Ready while no interface can be read, or by a reconcile whose status is lost, is
  not noticed, and the old failure is acted on (`FailureRuns.ReadyButUnread`,
  `FailureRuns.ReadyButUnstored`). The promise holds of a run if and only if no such reconcile saw the
  boot over (`BootSafety.OldFailureExact`).
- *Power-off happens under a cordon*: a drain powers off under the operator's cordon if and only if no
  reconcile of the present stay in Draining has lifted it (`DrainSafety.CordonExact`). One can, and then
  lose its status: when removing the powered-off marker fails on the way back to On
  (`DrainSafety.MarkerCanFail`), or when storing the status fails after any uncordon, as in an aborted
  drain (`DrainSafety.AbortCanBeLost`). The drain then goes on and powers off
  (`DrainSafety.UntidyPowersOffUncordoned`). The power-off after a failed boot has no cordon at all
  (`FailureRuns.FailedBootHasNoCordon`).
- *`AlwaysOn` keeps the machine powered on, and is never powered off for a boot failure.* Whatever is
  read once `AlwaysOn` is set, the power is never cut if and only if the status it begins with holds no
  failure that would act, no On decision that can expire, and no standby to wake from; under the failure
  policy `Retry` no decision expires (`OverrideSafety.AlwaysOnExact`, for either policy or a mix;
  pools store no decision on such a machine, `PoolSafety.EvaluationRespectsMachines`).
  A boot that failed under `Auto` before the override was set is acted on
  (`FailureRuns.OverrideComesTooLate`); a machine suspended under `AlwaysOff` that does not wake is cut
  off (`FailureRuns.AlwaysOnCutsAMachineThatDoesNotWake`).
- *The choice never depends on the order members are listed in*: true of Auto machines that are off,
  but booting machines are tried as listed (`PlannerLimits.BootingOrderCanMatter`); what is powered on
  depends on nothing but their order (`ScaleUpSafety.PowerOnIgnoresOrder`).
- *Evicted pods fit elsewhere*: true of a plan that removes one machine. With several, a pod can be
  moved onto a machine that is removed later in the same plan, and only later
  (`PlannerLimits.SecondRemovalCanStrand`, `ScaleDownSafety.PlaceIsLostOnlyLater`).
- *Capacity is counted once*: an always-on machine that a pool selects is both a member and a node
  outside every pool, and its free capacity is used twice (`PlannerLimits.AlwaysOnCountsTwice`).
  Without such a machine no host is overfilled (`ScaleDownSafety.NoHostIsOverfilled`); over all pods
  that an idle machine may have, only then (`PlannerLimits.CountedOnceExact`).
- *Agreement keeps every pool at its `minOnline`*: if and only if the pool offers no more machines than
  it can spare (`MinOnlineAgreement.AgreementKeepsMinOnlineExact`). It offers every idle one
  (`PlannerLimits.AgreementCanOvercommit`), and a second pool can take them all
  (`MinOnlineAgreement.TwoPoolsLeaveOneShort`).
- *A pool holds after a power-on*: however it goes on, if and only if the cycle that powered on stored its
  status, or an earlier one stored a power-on at the same instant (`ForgottenPowerOn.HoldIsKeptExact`).
  With the same machines throughout and an unneeded period of ten minutes, a lost one is followed by a
  power-off within the hold (`ForgottenPowerOn.LostPowerOnRun`).
- *Doing nothing is recorded when its reason differs from the latest such entry's.* The code compares
  with the newest entry of any kind, so the same reason is recorded again after a power action
  (`DecisionLog.SameReasonAgain`), and only then (`DecisionLog.RecordedAgainExact`).

## Model

| member | source | states |
|---|---|---|
| Reconciler.Reconciler.TrackBoot | src/controller/node_power_management_config.rs:151-183 | updating the status in place is the boot-tracking function: the clock starts, stops, and a failure is recorded once |
| Reconciler.Reconciler.ManualChangeSeen | src/controller/node_power_management_config.rs:795-843 | a manual power-on drops decision, standby and failure; a power-off ends a failure that was left on |
| Reconciler.Reconciler.Boot | src/controller/node_power_management_config.rs:845-913 | the boot handler's new status, actions, and whether it replaces the state machine |
| Reconciler.Reconciler.ReleaseFailedPowerOn | src/controller/node_power_management_config.rs:540-575 | an attempt given up: decision dropped, failure recorded, power cut only where it reads on |
| Reconciler.Reconciler.EnsureOn | src/controller/node_power_management_config.rs:374-481 | the whole On side, phase by phase, with its failing Kubernetes calls |
| Reconciler.Reconciler.Drain | src/controller/node_power_management_config.rs:690-789 | drained, waiting, forced, or aborted with an On decision in place |
| Reconciler.Reconciler.WaitForPowerOff | src/controller/node_power_management_config.rs:616-645 | failed standby, hard power-off, retry of a refused action |
| Reconciler.Reconciler.EnsureOff | src/controller/node_power_management_config.rs:589-676 | the whole Off side from any phase |
| Reconciler.Reconciler.Run | src/controller/node_power_management_config.rs:994-1279 | a whole reconcile on the object equals the step function: status, effects, completion |
| Reconciler.Reconcile | src/controller/node_power_management_config.rs:994-1279 | what is stored is the new status, or the old one when a call failed, while effects stand |
| StepTable.ConcludedRow | src/controller/node_power_management_config.rs:94-191 | every field that the handlers start from, and the boot event, in terms of the stored status, the reading and the clock |
| StepTable.ClimbingEffects | src/controller/node_power_management_config.rs:374-575 | towards On: exactly when the cordon is lifted, the attempt given up, the power cut, and the machine asked for, first or again |
| StepTable.SinkingEffects | src/controller/node_power_management_config.rs:589-789 | towards Off: exactly when it is cordoned, suspended, shut down, asked again, cut off, or the drain aborted |
| StepTable.OtherEffects | src/controller/node_power_management_config.rs:845-913 | without a target nothing is done but the shutdown and the cut of a failed boot |
| StepTable.ArrivedRow | src/controller/node_power_management_config.rs:376-400 | on and Ready: what is cleared and probed, and which call may fail |
| StepTable.GivesUpRow | src/controller/node_power_management_config.rs:540-575 | an expired attempt: what is recorded, and the cut where it reads on |
| StepTable.AsksRow | src/controller/node_power_management_config.rs:401-481 | asked to come up, from any phase: PoweringOn, or Error when refused; not within 90 seconds in Error |
| StepTable.WatchingRow | src/controller/node_power_management_config.rs:914-927 | the phase mirrors the reading, and nothing else changes |
| StepTable.EmptyRow | src/controller/node_power_management_config.rs:690-740 | a drained machine: probed, waited for, then suspended or shut down |
| StepTable.OccupiedRow | src/controller/node_power_management_config.rs:741-789 | a drain past its timeout: forced, aborted with an On decision, or begun anew |
| StepTable.ShuttingDownRow | src/controller/node_power_management_config.rs:616-645 | a refused request is repeated after 30 seconds, and only then |
| StepTable.UnreadRow | src/controller/node_power_management_config.rs:1140-1162 | without a reading only that, the Node and the pools are recorded |
| GateSafety.MarkExact | src/controller/node_power_management_config.rs:975-986 | a reading is marked inconsistent if and only if Off is read of a Ready Node with a fresh lease and no act of ours within 90 seconds |
| GateSafety.ContradictedIsNotActedOn | src/controller/node_power_management_config.rs:1255-1270 | and then the reconcile has no effect at all |
| GateSafety.ContradictedAfterExact | src/controller/node_power_management_config.rs:1180-1192 | over every run, in terms of the last action whose status was stored |
| BootSafety.AtMostOneEffect | src/controller/node_power_management_config.rs:1238-1279 | a reconcile issues at most one power action or cordon change |
| BootSafety.BrokenOffIssuesNothing | src/controller/node_power_management_config.rs:1264-1278 | a reconcile that breaks off at a failed call has issued no power action |
| BootSafety.OnlyAFailedStoreForgetsAnAction | src/controller/node_power_management_config.rs:1264-1278 | so an action is forgotten only when storing the final status fails |
| BootSafety.ForgottenPowerOnLooksManual | src/controller/node_power_management_config.rs:100-135 | a machine woken from phase Off and next seen on is taken for powered on by hand if and only if the status of that PowerOn was lost |
| ManualChanges.RecordedActionExact | src/controller/node_power_management_config.rs:341-353 | in every run the action on record is the last one issued whose status was stored |
| ManualChanges.OursTakenForManualExact | src/controller/node_power_management_config.rs:94-135 | a change of ours is taken for a manual one if and only if it shows as one and no stored action explains it |
| ManualChanges.PowerOnPassesThrough | src/controller/node_power_management_config.rs:96-99 | after a stored PowerOn the machine is up in the status until a reading says otherwise |
| ManualChanges.StoredPowerOnTaken | src/controller/node_power_management_config.rs:96-99 | so a stored one is taken for manual only when read not on since, and past the boot timeout |
| ManualChanges.ReleasedPowerOnLooksManual | src/controller/node_power_management_config.rs:540-575 | an orderly run without failures in which our PowerOn is taken for manual |
| ManualChanges.SlowPowerOffLooksManual | src/controller/node_power_management_config.rs:114 | and one in which our power-off is, after 601 seconds |
| ManualChanges.LostForceOffLooksManual | src/controller/node_power_management_config.rs:1278 | and one in which a cut whose status was lost is |
| BootSafety.GatesBlockActions | src/controller/node_power_management_config.rs:1140-1270 | no reading or a contradicting one: no action; no Node: only a boot failure's power-off |
| BootSafety.RunsKeepConsistent | src/controller/node_power_management_config.rs:151-183 | in every run a boot failure, the phase and the boot clock belong together |
| BootSafety.BootForcesOnCurrentFailure | src/controller/node_power_management_config.rs:228-233 | a forced power-off by the boot handler acts on the recorded, current failure |
| BootSafety.OldFailureNeverActs | src/controller/node_power_management_config.rs:845-913 | no completed reconcile with a power reading, between a failure and the cut it causes, saw the boot over |
| BootSafety.OldFailureExact | src/controller/node_power_management_config.rs:845-913 | over any reconciles at all that is so if and only if none saw it over unread or unstored |
| BootSafety.BootClockIsPast | src/controller/node_power_management_config.rs:151-183 | in every run the boot clock is not set in the future |
| BootSafety.BootEndedAfterExact | src/controller/node_power_management_config.rs:151-183 | the history predicate above, read step by step over the run |
| BootSafety.UnreadReadinessIsNotNoticed | src/controller/node_power_management_config.rs:1148-1162 | a Node Ready without a power reading does not end the failure |
| FailureRuns.ReadyButUnread | src/controller/node_power_management_config.rs:1148-1162 | an orderly run in which a Node Ready without a power reading does not stop the old failure |
| FailureRuns.ReadyButUnstored | src/controller/node_power_management_config.rs:1278 | and one in which the reconcile that read it Ready lost its status |
| OverrideSafety.OverrideIsNeverOverruled | src/controller/node_power_management_config.rs:239-252 | from any status that provokes nothing, however the override switches, no boot failure and no late power-on cuts the power |
| OverrideSafety.StaysOnForGood | src/controller/node_power_management_config.rs:374-481 | under AlwaysOn such a status out of standby is never cut off and stays so |
| OverrideSafety.AlwaysOnExact | src/controller/node_power_management_config.rs:374-575 | AlwaysOn never cuts the power if and only if the status it begins with holds no failure that would act, no standby, and (unless the failure policy is Retry) no On decision |
| OverrideSafety.WakingIsCut | src/controller/node_power_management_config.rs:412-431 | from any status in standby a run under AlwaysOn leads to a cut |
| OverrideSafety.FailureIsCut | src/controller/node_power_management_config.rs:882-911 | from any failure that would act one does |
| OverrideSafety.DecisionIsCut | src/controller/node_power_management_config.rs:540-575 | from any stored On decision one does, unless the failure policy is Retry |
| FailureRuns.OverrideComesTooLate | src/controller/node_power_management_config.rs:882-911 | a boot fails under Auto, AlwaysOn is set, and the power is cut all the same |
| FailureRuns.AlwaysOnCutsAMachineThatDoesNotWake | src/controller/node_power_management_config.rs:412-431 | overrides from the start: suspended under AlwaysOff, not waking under AlwaysOn, cut off |
| OverrideSafety.StaleDecisionOverrulesAlwaysOn | src/controller/node_power_management_config.rs:197-222 | an expired On decision cuts off a suspended machine under AlwaysOn |
| LeaveOnSafety.DetectionHandsOff | src/controller/node_power_management_config.rs:100-135 | the reconcile that finds and records a manual power-on leaves the machine hands-off |
| LeaveOnSafety.LeaveOnHolds | src/controller/node_power_management_config.rs:239-267 | from then until it is seen off, no effect at all, even when that boot fails |
| LeaveOnSafety.LeaveOnNeedsTheGuard | src/controller/node_power_management_config.rs:239-252 | with a PowerOn of ours that close to the next boot timed, a continuation that only reads on leads to a power-off |
| LeaveOnSafety.LeaveOnExact | src/controller/node_power_management_config.rs:239-267 | for every boot timeout and an increasing clock the promise holds if and only if no PowerOn of ours is that close |
| LeaveOnSafety.LeaveOnExactInRuns | src/controller/node_power_management_config.rs:239-267 | and so after every run |
| LeaveOnSafety.LeaveOnCanFail | src/controller/node_power_management_config.rs:540-575 | a concrete orderly run in which it fails |
| DrainSafety.DrainEnds | src/controller/node_power_management_config.rs:690-789 | under Auto a drain past its timeout powers off or is aborted, and breaks off exactly when lifting the cordon fails |
| DrainSafety.CordonExact | src/controller/node_power_management_config.rs:589-789 | while draining, the cordon is in force if and only if no reconcile of this stay lifted it |
| DrainSafety.DrainPowersOff | src/controller/node_power_management_config.rs:690-789 | a drain powers off only from Draining, drained or forced, gracefully, cordoned exactly so, stored or not |
| DrainSafety.PoweringOffNeedsCordonAndDrain | src/controller/node_power_management_config.rs:589-789 | PoweringOff is entered only so |
| DrainSafety.LostUncordonLeavesDraining | src/controller/node_power_management_config.rs:376-386 | a lost status after lifting the cordon leaves phase Draining |
| DrainSafety.MarkerCanFail | src/controller/node_power_management_config.rs:376-386 | by the marker removal, on the way back to On |
| DrainSafety.AbortCanBeLost | src/controller/node_power_management_config.rs:760-789 | by storing the status of an aborted drain |
| DrainSafety.UntidyPowersOffUncordoned | src/controller/node_power_management_config.rs:589-789 | after either, the power-off that follows has no cordon |
| FailureRuns.FailedBootHasNoCordon | src/controller/node_power_management_config.rs:845-881 | a failed boot is powered off in a run that never cordons |
| DrainSafety.AskedInThisStayExact | src/controller/node_power_management_config.rs:589-676 | the stay predicate names a step that asked, in PoweringOff ever since |
| DrainSafety.ForceOffIsTheLastRung | src/controller/node_power_management_config.rs:616-645 | every cut was asked for gracefully in the same stay, longer ago than the timeout |
| StandbySafety.OffStopsTheBootClock | src/controller/node_power_management_config.rs:540-575 | phase Off times a boot exactly after a release on an Unknown reading |
| StandbySafety.RunsKeepStandby | src/controller/node_power_management_config.rs:589-676 | phase Standby always has its start, over every run |
| StandbySafety.StandbyFailuresOnlyGrow | src/controller/node_power_management_config.rs:579-587 | a recorded standby failure is only replaced by a later one |
| StandbySafety.SuspendKeepsItsDistance | src/controller/node_power_management_config.rs:932-947 | no suspend within 24 hours of any failure, and in mode Auto only with S3 found by this boot's probe |
| StandbySafety.PowerOnWithinTimeout | src/controller/node_power_management_config.rs:197-222 | under Release every PowerOn request answers a live decision of a current pool within its timeout |
| StandbySafety.RetriesAreSpaced | src/controller/node_power_management_config.rs:412-481 | in every run a PowerOn in PoweringOn or Error comes at least 90 seconds after the last one stored |
| Scheduling.ExplicitSelectionPinsLabels | src/scaling.rs:208-249 | wherever an explicitly selecting pod may run, the node carries the pool's matchLabels |
| SchedulingSafety.SelectorOnlyExact | src/scaling.rs:232-249 | a pod without affinity selects a pool explicitly if and only if every node it may run on carries the pool's labels |
| SchedulingSafety.AffinityOnlyExact | src/scaling.rs:232-249 | the same for affinity terms that list values of one label |
| SchedulingSafety.PlacementExact | src/scaling.rs:187-221 | where a pod may run, taints aside, operator by operator |
| SchedulingSafety.ComparesIntegers | src/scaling.rs:187-205 | `Gt` and `Lt` compare 64-bit integers as written in decimal |
| SchedulingSafety.TextIsRead | src/scaling.rs:187-190 | every 64-bit integer survives being written and read, and no other does |
| SchedulingSafety.OneMoreTaint | src/scaling.rs:172-221 | one more taint keeps out exactly the pods that do not tolerate it, unless it only says the node is off or repels nobody |
| SchedulingSafety.SelectorExact | src/crd.rs:713-735 | a pool selects the nodes that meet all its labels and expressions, and none if it has neither |
| SchedulingSafety.DrainClassExact | src/scaling.rs:303-379 | when a pod blocks its machine, is moved, or is ignored: an if-and-only-if for each over phase, owners and annotations |
| Scheduling.TransientTaintsNeverDecide | src/scaling.rs:158-221 | taints that only say a node is off never decide a placement |
| Scheduling.MembershipExact | src/membership.rs:37-56 | a machine is a member of exactly the live pools whose selector matches |
| Resources.PodRequests | src/resources.rs:118-149 | the larger of the container sum and each init container, plus overhead, as one pod |
| Ordering.SortIgnoresOrder | src/scaling.rs:388-397 | sorting by a strict total order depends on the elements only |
| PoolModel.RankingIsTotal | src/scaling.rs:388-397 | the power-on order is a strict total order on distinct names |
| PoolModel.RankedByRules | src/scaling.rs:380-397 | the order rule by rule: weight, S3 where preferred, CPU, memory, name |
| PoolModel.FirstEntryWeighs | src/crd.rs:851-856 | the first entry with its name weighs a machine, and one without an entry weighs nothing |
| PoolModel.PowerOffRankIsReverse | src/scaling.rs:523-529 | the scale-down ranking is the exact reverse of the scale-up ranking |
| PoolModel.PowerOnRankIgnoresOrder | src/scaling.rs:388-397 | the ranking does not depend on the listing |
| PoolModel.DecidingRuleDecides | src/scaling.rs:1033-1053 | the named rule is the first that differs, in the winning direction |
| ScaleUp.ScaleUpStep | src/scaling.rs:412-519 | the loops over pods and machines compute the packing and the top-up |
| ScaleUpSafety.EachPodOnce | src/scaling.rs:463-502 | each pod considered is carried by one bin or waits, and nothing else is |
| ScaleUpSafety.NothingOverfilled | src/scaling.rs:432-496 | each bin's ledger balances, no carrying bin is overfilled, its pods may run there |
| ScaleUpSafety.OpenedMachinesCarryPods | src/scaling.rs:463-502 | the bins are the booting machines and the opened ones, each of which carries a pod |
| ScaleUpSafety.OpensTheBestThatFits | src/scaling.rs:476-496 | an opened machine ranks before every other machine off that fits, and no bin had room |
| ScaleUpSafety.ScaleUpConserves | src/scaling.rs:412-502 | conservation, ledger, shape and limits of a whole scale-up together |
| ScaleUpSafety.ScaleUpIsMaximal | src/scaling.rs:463-502 | a pod left waiting fits no bin, and no machine off or the limit given as reason is reached |
| ScaleUpSafety.DisabledOpensNothing | src/scaling.rs:463-468 | with scale-up disabled no machine is opened for a pod, and all wait for that reason |
| ScaleUpSafety.TopUpTakesTheNext | src/scaling.rs:503-519 | the top-up takes the best-ranked machines left |
| ScaleUpSafety.PowerOnIsDrawn | src/scaling.rs:412-519 | powered-on machines are Auto and off, each once |
| ScaleUpSafety.PowerOnBounds | src/scaling.rs:450-519 | never past maxOnline, never short of minOnline with machines left, past the step only for minOnline |
| ScaleUpSafety.PowerOnIgnoresOrder | src/scaling.rs:412-519 | relisting members, the booting ones unmoved, changes nothing of the packing |
| PlannerLimits.BootingOrderCanMatter | src/scaling.rs:438-443 | moving a booting machine decides whether another is powered on |
| ScaleDown.CountWaiting | src/scaling.rs:966-991 | the count is positive exactly when a pod waits for the device plugin |
| ScaleDown.TargetsAreKnown | src/scaling.rs:629-689 | every target has an entry in the free map, so no lookup fails |
| ScaleDown.TryMove | src/scaling.rs:684-700 | moving pods one by one, giving up at the first that fits nowhere |
| ScaleDown.RemovalLoop | src/scaling.rs:629-732 | the removal loop with its replaced free map |
| ScaleDown.JudgeCandidates | src/scaling.rs:537-572 | the unneeded times noted by the judging loop |
| ScaleDownSafety.CapacityIsNeverExceeded | src/scaling.rs:629-732 | over all removals each node's free capacity is what it was less what it took, never negative |
| ScaleDownSafety.EveryPodIsRehomed | src/scaling.rs:667-704 | each removed machine's pods all go to matching nodes then standing, other than itself |
| ScaleDownSafety.SingleRemovalStrandsNoPod | src/scaling.rs:667-704 | with one removal every evicted pod is on a node that stays |
| ScaleDownSafety.PlaceIsLostOnlyLater | src/scaling.rs:648-732 | a pod loses its place only to a later removal of the same plan |
| ScaleDownSafety.StuckExact | src/scaling.rs:684-700 | a trial fails if and only if, the pods before it moved, no target has room for some pod |
| PlannerLimits.SecondRemovalCanStrand | src/scaling.rs:648-732 | and with a step of two it does, for a whole family of snapshots |
| ScaleDownSafety.NoHostIsOverfilled | src/scaling.rs:632-641 | with no node listed twice, no host is overfilled under both its keys together |
| PlannerLimits.CountedOnceExact | src/scaling.rs:632-641 | whatever pods an idle machine has, the host beside it is not overfilled, if and only if it is not listed outside too |
| PlannerLimits.AlwaysOnCountsTwice | src/controller/node_scaling_pool.rs:319-347 | an always-on member is counted twice and takes pods that do not fit |
| ScaleDownSafety.StaysForAReason | src/scaling.rs:648-732 | an unheld machine stays only at a limit or because its pods fitted nowhere at its turn |
| ScaleDownSafety.IdleMachinesGo | src/scaling.rs:648-732 | an idle one only at a limit |
| ScaleDownSafety.ExpiredExact | src/scaling.rs:537-572 | expired is judged unneeded now with a time long enough ago |
| ScaleDownGate.RelevantExact | src/scaling.rs:414-432 | a pod counts if and only if its grace is over, it aims at the pool where required, and a machine booting or off could take it |
| ScaleDownGate.OthersDoNotCount | src/scaling.rs:414-421 | pods that do not wait have no influence |
| ScaleDownGate.JudgedExact | src/scaling.rs:537-572 | a machine is unneeded if and only if nothing blocks it, no drain failed lately, it is below the threshold, and no pod waits for a device of it |
| ScaleDownGate.HinderedExact | src/scaling.rs:577-608 | scale-down proceeds if and only if the pool is above maxOnline, or it is enabled, nothing waits or boots, and every hold is over |
| ScaleDownGate.PowerOffExact | src/scaling.rs:577-732 | something is powered off if and only if that, more than minOnline are on, the step is not used up, and some machine may go |
| ScaleDownGate.PowerOffWithin | src/scaling.rs:629-660 | with those leaving already no more go than the step, or the excess over maxOnline, and minOnline stay |
| ScaleDownGate.TargetsExact | src/scaling.rs:667-683 | pods may go to members on and standing, managed or by hand, and to nodes outside |
| ScaleDownGate.RoomAtFirst | src/scaling.rs:633-641 | a host's room is what it has less what its pods request |
| ScaleDownSafety.PowerOffBounds | src/scaling.rs:574-666 | who may go, how many, never below minOnline, never while powering on |
| ScaleDownSafety.PowerOffInReverseRank | src/scaling.rs:523-529 | machines go in the reverse of the power-on order |
| Planner.ComputePlan | src/scaling.rs:400-780 | the whole planner computes the plan |
| Planner.Agreement | src/scaling.rs:747-780 | the loop that splits candidates into releasable and needed |
| Planner.ReleasableExact | src/scaling.rs:747-771 | releasable means Auto, Online, unblocked, idle for its period or past its grace, nothing holding the pool (in terms of its spec and members), above minOnline |
| Planner.NothingGoesUnsettled | src/scaling.rs:588-608 | unless above maxOnline, nothing goes and nothing is offered while disabled, pending, booting or holding |
| Planner.AgreementIsAPartition | src/scaling.rs:747-780 | each candidate is releasable or needed, never both; booting machines are needed |
| PlannerLimits.AgreementCanOvercommit | src/scaling.rs:747-771 | with one machine to spare, all idle ones are offered |
| MinOnlineAgreement.OfferedSize | src/scaling.rs:747-771 | each offered machine is offered once and counts as online |
| MinOnlineAgreement.AgreementKeepsMinOnlineExact | src/scaling.rs:747-771 | whichever offered machines go, minOnline is kept if and only if no more are offered than can be spared |
| MinOnlineAgreement.TwoPoolsLeaveOneShort | src/controller/node_scaling_pool.rs:374-400 | two evaluations, the second of another pool, leave the first with no machine where it needs one |
| MinOnlineAgreement.SuchPoolsExist | src/controller/node_scaling_pool.rs:526-568 | for any names and labels there are such pools and machines |
| PoolCycles.CyclesAreLinked | src/controller/node_scaling_pool.rs:526-651 | in every interleaving of pools and machines the evaluations of one pool are a linked run, and its status holds what that run stored |
| PoolCycles.HoldsInEveryRun | src/scaling.rs:577-603 | so the hold after a stored power-on is kept in every interleaving |
| PlannerRuns.TruthfulExact | src/controller/mod.rs:145-178 | the stored unneeded times are right after every cycle if and only if no patch had a name to drop |
| PlannerRuns.StoredTimeIsFirstNoted | src/controller/node_scaling_pool.rs:558-568 | what a stored time is in every run |
| PlannerRuns.InterruptedMachineExpires | src/scaling.rs:537-572 | an interrupted machine expires at once |
| PlannerRuns.UnneededSinceIsTheStreak | src/scaling.rs:537-572 | with nothing dropped, the time starts the longest unbroken streak of judgements |
| PlannerRuns.UnneededPowerOffWasUnneededThroughout | src/scaling.rs:607-627 | then a machine that goes for being unneeded was so throughout its period |
| PlannerRuns.PowerOffWaitsForTheHold | src/scaling.rs:577-603 | no power-off within the hold of a stored power-on unless above maxOnline |
| ForgottenPowerOn.HoldIsKeptExact | src/scaling.rs:577-603 | however the pool goes on, its hold is kept if and only if the status of the power-on was stored (or one of the same instant) |
| ForgottenPowerOn.ForgottenPowerOnIsNotHeld | src/controller/node_scaling_pool.rs:613-651 | after a lost one, every later view of a quiet pool with an idle machine powers it off within the hold |
| ForgottenPowerOn.LostPowerOnRun | src/controller/node_scaling_pool.rs:613-651 | a run over the same machines, with a stored unneeded time, in which it is not |
| PoolMembers.TallyPods | src/controller/node_scaling_pool.rs:224-248 | one pass adds up requested, counted, movable and blocking pods |
| PoolMembers.NothingToMoveIsDrained | src/controller/node_scaling_pool.rs:224-248 | the pool finds nothing to move or blocking exactly when the drain has nothing left |
| PoolMembers.CountedIsPart | src/controller/node_scaling_pool.rs:224-248 | what counts as utilization is within what is requested |
| MemberSafety.StateExact | src/controller/node_scaling_pool.rs:43-78 | each state of a machine: an if-and-only-if over policy, phase, readiness and the decision in force |
| MemberSafety.MemberStateExact | src/controller/node_scaling_pool.rs:98-206 | and with boot failures and manual changes, which only withhold it |
| MemberSafety.TakenOverExact | src/controller/node_scaling_pool.rs:185-206 | when a machine powered on by hand counts as the pool's power-on, and when it may go |
| MemberSafety.PoweringUpCounts | src/controller/node_scaling_pool.rs:60-68 | a machine some pool turned on counts as online for all, and is not opened again, while it powers up |
| MemberSafety.CanSleepExact | src/controller/node_power_management_config.rs:947-956 | it can sleep if it does, or its probe found S3 and no standby failed within a day |
| MemberSafety.TallyExact | src/controller/node_scaling_pool.rs:224-248 | what is requested, and what of it counts as use, summed over the pods that run |
| MemberSafety.BlockingExact | src/controller/node_scaling_pool.rs:224-248 | there are blocking pods exactly when some pod blocks |
| MemberSafety.MovableExact | src/controller/node_scaling_pool.rs:224-248 | the pods to move are exactly those that move |
| PoolMembers.ClassifyOnlyWithholds | src/controller/node_scaling_pool.rs:98-206 | a state is only ever replaced by Unavailable or Manual |
| PoolMembers.OpenExact | src/controller/node_scaling_pool.rs:43-206 | when a pool may power a machine on, in terms of its status |
| PoolMembers.CandidateExact | src/controller/node_scaling_pool.rs:43-206 | when a pool may power a machine off, in terms of its status |
| PoolProtocol.ReadSnapshot | src/controller/node_scaling_pool.rs:526-568 | the loop over machines builds members and the holds of other pools |
| PoolProtocol.SnapshotIsSound | src/controller/node_scaling_pool.rs:526-568 | members are distinct and no name looks like an external key |
| PoolProtocol.HoldingExact | src/controller/node_scaling_pool.rs:374-400 | a pool holds a machine exactly when it selects it and does not list it |
| PoolProtocol.WrittenInOrder | src/controller/node_scaling_pool.rs:613-640 | decisions are written as planned, On before Off, up to a failing call |
| PoolProtocol.StoredLast | src/controller/node_scaling_pool.rs:640-651 | the pool's status is stored only after all of them |
| PoolProtocol.OnlyFreeMachinesAreStarted | src/controller/node_scaling_pool.rs:570-640 | only machines that are down, under no On, and not held back are turned on |
| PoolProtocol.OnlyFreeMachinesAreStopped | src/controller/node_scaling_pool.rs:570-640 | only machines on and Ready, under no Off, with all other pools agreeing, are turned off |
| PoolSafety.EvaluationRespectsMachines | src/controller/node_scaling_pool.rs:349-372 | how any evaluation, even one that fails half way, may change any machine |
| PoolSafety.PoolsNeverFight | src/controller/node_scaling_pool.rs:43-78 | a decision in force is reversed only once carried out, and never stamped again |
| PoolSafety.FailedMachinesAreLeftAlone | src/controller/node_scaling_pool.rs:109-160 | no power-on within a pool's own backoff or the manual cooldown |
| PoolSafety.LeftOnIsLeftAlone | src/controller/node_scaling_pool.rs:163-185 | no pool turns off a machine left on by hand under LeaveOn |
| PoolSafety.TurnedOnCounts | src/controller/node_scaling_pool.rs:60-68 | in every interleaving a machine turned on counts as online in every later look, and is not turned on again, while it powers up |
| PoolSafety.GuardedIsKept | src/scaling.rs:351-372 | no pool powers off, or offers, a machine with an active pod that is not safe to evict |
| PoolSafety.PublishedIsConcluded | src/controller/node_scaling_pool.rs:630-650 | a pool's published list is what its last stored evaluation concluded, in every interleaving |
| PoolSafety.EveryOffIsAgreed | src/controller/node_scaling_pool.rs:374-400 | on every Off, every other pool selecting the machine had agreed in its last stored evaluation |
| PoolSafety.OnStandsUntilReady | src/controller/node_scaling_pool.rs:349-372 | an On decision keeps its time until carried out or dropped by the machine's own controller |
| DecisionLog.Log.Record | src/controller/node_scaling_pool.rs:485-510 | the log updated in place, and the decisions that were new |
| DecisionLog.PowerActionsAreAlwaysNew | src/controller/node_scaling_pool.rs:485-510 | every power action is acted on, in order and once; the log gains exactly the new decisions |
| DecisionLog.RecordKeepsTheLog | src/controller/node_scaling_pool.rs:485-510 | the log stays short, ends with the newest, and never repeats doing nothing back to back |
| DecisionLog.RecordedAgainExact | src/controller/node_scaling_pool.rs:482-510 | recording follows its comment if and only if no power action came after the latest entry with that reason |
| DecisionLog.SameReasonAgain | src/controller/node_scaling_pool.rs:490-497 | after a power action the same reason is recorded again |
| MergePatch.MergeDiff | src/controller/mod.rs:145-164 | the two insertion loops build the difference |
| MergePatch.RoundTripExact | src/controller/mod.rs:145-178 | the patch gives the new status if and only if no changed key holds a null or drops a nested member |
| MergePatch.DroppedNestedMemberSurvives | src/controller/mod.rs:145-178 | a dropped nested member keeps its old value |
| MergePatch.UntouchedKeysSurvive | src/controller/mod.rs:142-144 | a key not changed keeps what another writer stored |
| MergePatch.DisjointPatchesCommute | src/controller/mod.rs:142-178 | patches of different keys commute |
| MergePatch.ConcurrentWritersBothLand | src/controller/mod.rs:142-178 | two writers of different keys both get their way |
| StatusPatch.PatchStores | src/controller/mod.rs:145-178 | what the patch leaves in the stored unneeded times |
| StatusPatch.PatchedExact | src/controller/mod.rs:145-178 | which is the new times exactly when no name was to be dropped |
| Identity.TextMatchExact | src/identity.rs:65-85 | textual UUIDs match exactly on equal hex digits that are no placeholder |
| Identity.TextCheckExact | src/identity.rs:65-118 | the whole answer for textual UUIDs: unusable, equal, or another machine with what was read |
| Identity.NothingToCompare | src/identity.rs:65-72 | without an identity or a usable Node UUID nothing can be said |
| Identity.UsableIsAGuid | src/identity.rs:30-52 | every usable UUID text is that of 16 bytes that are no placeholder |
| Identity.SeparatorsAreIgnored | src/identity.rs:30-39 | punctuation does not matter |
| Identity.CaseIsIgnored | src/identity.rs:30-39 | letter case does not matter |
| Identity.NormalizeHex | src/identity.rs:25-39 | bytes survive rendering and parsing |
| Identity.HexInjective | src/identity.rs:25-28 | different bytes render differently |
| Identity.BlankInvariant | src/identity.rs:50-52 | placeholders are so under every byte order, and nothing else is |
| Identity.InterpretationsUndoEncodings | src/identity.rs:77-104 | the byte orders tried undo exactly the encodings |
| Identity.RawMatchExact | src/identity.rs:65-104 | a raw GUID matches exactly when it is one of the five encodings of a real UUID |
| Identity.EveryEncodingMatches | src/identity.rs:77-104 | no byte order hides a machine from its own interface |
| Identity.SwapFields | src/identity.rs:41-48 | three in-place reversals swap the UUID fields |
| Identity.Candidates | src/identity.rs:77-104 | the in-place reversals give the five candidates |
| Checksum.ComputeChecksum | src/drivers/ping.rs:237-246 | the 32-bit sum and the folding loop compute the one's complement checksum |
| Checksum.SafeLengthFits | src/drivers/ping.rs:237-246 | no message of at most 131074 bytes overflows the sum |
| Checksum.SafeLengthIsTight | src/drivers/ping.rs:237-246 | and two bytes more can |
| Checksum.ChecksumRoundTrip | src/drivers/ping.rs:237-257 | storing the checksum in a zeroed aligned field makes the whole check to 0 |
| Checksum.ChecksumIsUnique | src/drivers/ping.rs:237-257 | no other word does, up to the two zeros of one's complement |
| Checksum.OddIsPadded | src/drivers/ping.rs:237-246 | an odd message sums as with a zero byte behind it, and zeros give all bits set |
| Checksum.EchoRequest | src/drivers/ping.rs:248-257 | the request has its layout and a valid checksum |
| Checksum.RepliesMatchTheirRequest | src/drivers/ping.rs:259-262 | an echo answers exactly the sequence number it was sent with |

## Left out

- Drivers, host commands, TLS, the webhook server, metrics and the command line: network and process I/O. A power action is a success flag, and a power reading an input.
- The fallback chain and relay picking: short first-success loops that would only add easy members.
- Events, log lines, messages, `details` and decision text: presentation. Decisions keep the chosen machine, and skipped pods and kept machines the kind of reason.
- Dry-run mode: every action is then taken as accepted, which the success flag covers.
- Conditions other than `PowerStateConsistent`, interface warnings and the identity cache: reports that feed nothing modelled here.
- Quantity parsing and percentages in floating point: exact integers and ratios instead.
- Overflow of 64-bit times and amounts, and timeouts above the signed 64-bit range: a timeout is the signed value that is compared.
- Settings that combine a machine's own and its pools' values (boot timeout, manual policies, power-on failure policy) enter a reconcile or an evaluation as inputs.
- Kubernetes caches, conflicts and retries: each reconcile and each evaluation reads one state and writes atomically. Failed calls, and failures to store a status, are modelled.
- Evictions and Node marks: the machine's reconcile sees the drain class of each pod; who evicts and when pods vanish is an input, and the powered-off marker and its fence are set and removed besides the effects modelled (only the failure to remove them is).
- The clock inside one evaluation: a pool's decisions and judgements of one evaluation share one instant, where the code reads the clock again for each.
- Namespace and name of a pod are one identifier, and names of members are taken to be distinct and without the prefix of external nodes.
- `preferredNodes` validation, `TcpProbe` and other status-only interfaces: no decision depends on them.
- ScaleUpSafety.PowerOnIgnoresOrder: one direction only; that booting machines out of order can change the result is shown by PlannerLimits.BootingOrderCanMatter, but not for every pool.
- ScaleDownSafety.SingleRemovalStrandsNoPod: stated for plans that remove one machine; larger plans are covered by ScaleDownSafety.PlaceIsLostOnlyLater.
- BootSafety.OldFailureNeverActs: counts completed, stored reconciles with a power reading only; FailureRuns.ReadyButUnread and FailureRuns.ReadyButUnstored show why.
