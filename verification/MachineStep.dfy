/** One reconcile of one machine, as a function from status and readings to status and effects
    (`src/controller/node_power_management_config.rs`). */
module MachineStep {
  import opened Prelude
  import opened Clock
  import opened MachineStatus
  import Scheduling

  // ----- what a reconcile reads -------------------------------------------------------------

  /** The spec of the machine, with its timeouts as the signed seconds they are compared as. */
  datatype Config = Config(
    policy: PowerPolicy,
    offMode: OffMode,
    drainTimeout: int,
    shutdownTimeout: int,
    forceAfterDrain: bool)

  datatype Probe = Pending | Done(bootId: string, s3: bool) | ProbeFailed

  datatype Inputs = Inputs(
    now: int,
    config: Config,
    nodeFound: bool,
    nodeReady: bool,
    pools: seq<string>,               // the pools selecting the Node now
    chainBuilt: bool,                 // some power interface could be set up
    reading: Option<PowerState>,      // None: no interface could be read
    leaseAge: Option<int>,
    bootId: Option<string>,
    probe: Probe,
    pods: seq<Scheduling.DrainClass>, // how the pods on the Node classify for draining
    manualPolicy: ManualPolicy,
    bootTimeout: int,
    failurePolicy: FailurePolicy,
    powerOnTimeout: int,
    accepted: bool,                   // whether an interface accepts the action, if one is issued
    cordonOk: bool,                   // whether cordoning or uncordoning the Node succeeds
    unmarkOk: bool,                   // whether removing the powered-off marker succeeds
    storedOk: bool)                   // whether storing the new status succeeds

  /** A missing Node is neither Ready nor selected by any pool. */
  predicate Plausible(i: Inputs) {
    !i.nodeFound ==> !i.nodeReady && i.pools == [] && i.bootId.None?
  }

  // ----- what it does -----------------------------------------------------------------------

  /** The handler that issued a power action. */
  datatype Issuer = ByBoot | ByEnsureOn | ByRelease | ByDrain | ByEnsureOff

  datatype Effect =
    | Issued(action: Action, issuer: Issuer)
    | CordonNode
    | UncordonNode                    // only lifts a cordon of our own

  /** `completed` is false when a Kubernetes call failed: the new status is then never stored. */
  datatype Outcome = Outcome(st: Status, effects: seq<Effect>, completed: bool)

  function Stay(st: Status): Outcome { Outcome(st, [], true) }

  function SetPhase(st: Status, phase: Phase, now: int): Status {
    if st.phase == phase then st else st.(phase := phase, phaseSince := Some(now))
  }

  function InPhaseFor(st: Status, now: int): int {
    if st.phaseSince.Some? then NumSeconds(now - st.phaseSince.value) else MAX_I64
  }

  function SinceLastAction(st: Status, action: Action, now: int): int {
    if st.lastAction.Some? && st.lastAction.value.action == action
    then NumSeconds(now - st.lastAction.value.time) else MAX_I64
  }

  predicate ForcedLately(st: Status, now: int) {
    st.forcedOffAt.Some? && NumSeconds(now - st.forcedOffAt.value) <= RETRY_ACTION_AFTER
  }

  /** The status after issuing `action`, accepted or not. */
  function Acted(st: Status, action: Action, i: Inputs): Status {
    var marked :=
      match action
      case SuspendHost => st.(standbySince := Some(i.now))
      case PowerOff => st.(standbySince := None)
      case _ => st;
    marked.(lastAction := Some(ActionRecord(action, i.now, i.accepted)))
  }

  // ----- sleep probe ------------------------------------------------------------------------

  function S3Known(st: Status, i: Inputs): Option<bool> {
    if i.bootId.Some? && st.sleepSupport.Some? && st.sleepSupport.value.bootId == i.bootId.value
    then Some(st.sleepSupport.value.s3) else None
  }

  /** Advances the probe for the current boot; no answer while it is pending. */
  function ProbeSleep(st: Status, i: Inputs): (Status, Option<bool>) {
    if S3Known(st, i).Some? then (st, S3Known(st, i))
    else if i.bootId.None? then (st, None)
    else
      match i.probe
      case Pending => (st, None)
      case Done(bootId, s3) =>
        if bootId != i.bootId.value then (st, None)
        else (st.(sleepSupport := Some(SleepSupport(bootId, s3))), Some(s3))
      case ProbeFailed =>
        (st.(sleepSupport := Some(SleepSupport(i.bootId.value, false))), Some(false))
  }

  function MachineOffAction(st: Status, i: Inputs): Action {
    OffAction(i.config.offMode, st.standbyFailedAt, S3Known(st, i), i.now)
  }

  // ----- manual changes and boots -----------------------------------------------------------

  function AfterManualChange(st: Status, change: ManualChange, i: Inputs): Status {
    match change
    case NoChange => st
    case PoweredOn =>
      st.(manualOn := Some(ManualChangeRecord(i.now, Some(i.manualPolicy))),
          decision := None, standbySince := None, bootFailure := None)
    case PoweredOff =>
      st.(manualOn := None, manualOff := Some(ManualChangeRecord(i.now, None)), decision := None,
          bootFailure := if st.bootFailure.Some? && st.bootFailure.value.leftOn then None else st.bootFailure)
  }

  /** The outcome of the boot handler; `handled` skips the normal state machine. */
  datatype BootOutcome = BootOutcome(out: Outcome, handled: bool)

  function BootJustFailed(st: Status, i: Inputs): Outcome {
    var leave := BootFailureLeavesOn(st, i.config.policy, i.manualPolicy);
    var noted := st.(
      bootFailure := if st.bootFailure.Some? then Some(st.bootFailure.value.(leftOn := leave)) else None,
      decision := None);
    var failed := SetPhase(noted, BootFailed, i.now);
    if leave then Stay(failed)
    else Outcome(Acted(failed, PowerOff, i), [Issued(PowerOff, ByBoot)], true)
  }

  /** Still powered and not Ready after a recorded failure: cut the power once asking did not help. */
  function BootStillFailed(st: Status, i: Inputs): Outcome
    requires st.bootFailure.Some?
  {
    var failure, held := st.bootFailure.value, SetPhase(st, BootFailed, i.now);
    var patience := if i.config.shutdownTimeout < STANDBY_SETTLE_SECS
                    then i.config.shutdownTimeout else STANDBY_SETTLE_SECS;
    if !failure.leftOn && NumSeconds(i.now - failure.time) > patience && !ForcedLately(st, i.now)
    then Outcome(Acted(held, ForceOff, i).(forcedOffAt := Some(i.now)), [Issued(ForceOff, ByBoot)], true)
    else Stay(held)
  }

  function Boot(st: Status, event: BootEvent, i: Inputs): BootOutcome {
    match event
    case Recovered => BootOutcome(Stay(st), false)
    case Failed => BootOutcome(BootJustFailed(st, i), true)
    case NoEvent =>
      if st.bootFailure.None? || st.nodeReady || st.power != ReadsOn || !FailureIsCurrent(st)
      then BootOutcome(Stay(st), false)
      else BootOutcome(BootStillFailed(st, i), true)
  }

  // ----- towards On -------------------------------------------------------------------------

  function Online(st: Status, i: Inputs): Outcome {
    if i.nodeFound && !i.cordonOk then Outcome(st, [], false)
    else
      var effects := if i.nodeFound then [UncordonNode] else [];
      if i.nodeFound && !i.unmarkOk then Outcome(st, effects, false)
      else
        var on := SetPhase(st, On, i.now).(forcedOffAt := None, standbySince := None);
        Outcome(if i.config.offMode == SuspendIfS3 then ProbeSleep(on, i).0 else on, effects, true)
  }

  /** Gives a power-on attempt up: the decision is dropped and a boot failure recorded. */
  function ReleaseFailedPowerOn(st: Status, i: Inputs): Outcome {
    var released := st.(
      standbyFailedAt := if st.standbySince.Some? then Some(i.now) else st.standbyFailedAt,
      bootFailure := Some(BootFailure(i.now, false)),
      decision := None,
      standbySince := None);
    if st.power == ReadsOn then
      var forced := Acted(released.(notReadySince := Some(i.now)), ForceOff, i).(forcedOffAt := Some(i.now));
      Outcome(SetPhase(forced, BootFailed, i.now), [Issued(ForceOff, ByRelease)], true)
    else
      Stay(SetPhase(released, Off, i.now))
  }

  function RequestPowerOn(st: Status, i: Inputs): Outcome {
    Outcome(SetPhase(Acted(st, PowerOn, i), if i.accepted then PoweringOn else Error, i.now),
            [Issued(PowerOn, ByEnsureOn)], true)
  }

  function WaitForPowerOn(st: Status, i: Inputs): Outcome {
    if InPhaseFor(st, i.now) > i.bootTimeout && st.standbySince.Some? then
      // Did not wake from standby: cut the power so the next power on is a cold boot.
      Outcome(SetPhase(Acted(st.(standbyFailedAt := Some(i.now)), ForceOff, i), Error, i.now),
              [Issued(ForceOff, ByEnsureOn)], true)
    else if (st.power == ReadsOff || st.standbySince.Some?) && SinceLastAction(st, PowerOn, i.now) > RETRY_ACTION_AFTER then
      Outcome(Acted(st, PowerOn, i), [Issued(PowerOn, ByEnsureOn)], true)
    else
      Stay(st)
  }

  function LiftCordonWhileBooting(st: Status, i: Inputs): Outcome {
    if i.nodeFound && !i.cordonOk then Outcome(st, [], false)
    else Outcome(SetPhase(st, PoweringOn, i.now), if i.nodeFound then [UncordonNode] else [], true)
  }

  /** Brings a machine up that is not on and Ready, from whatever phase it is in. */
  function PowerUp(st: Status, i: Inputs): Outcome {
    if st.phase == PoweringOn then WaitForPowerOn(st, i)
    else if (st.phase == PoweringOff || st.phase == Standby) && st.standbySince.Some? then RequestPowerOn(st, i)
    else if st.phase == PoweringOff && st.power == ReadsOn && InPhaseFor(st, i.now) <= i.config.shutdownTimeout then
      // A graceful shutdown cannot be cancelled: wait for it to finish.
      Stay(st)
    else if st.power == ReadsOn && st.standbySince.None? then
      // Powered but not Ready yet: booting, or an aborted scale-down.
      LiftCordonWhileBooting(st, i)
    else if st.phase == Error && SinceLastAction(st, PowerOn, i.now) < RETRY_ACTION_AFTER then Stay(st)
    else RequestPowerOn(st, i)
  }

  function EnsureOn(st: Status, i: Inputs): Outcome {
    if st.power == ReadsOn && st.nodeReady then Online(st, i)
    else if AttemptExpired(st, i.now, i.failurePolicy, i.powerOnTimeout) then ReleaseFailedPowerOn(st, i)
    else PowerUp(st, i)
  }

  // ----- towards Off ------------------------------------------------------------------------

  function StartPowerOff(st: Status, i: Inputs): Outcome {
    var action := MachineOffAction(st, i);
    Outcome(SetPhase(Acted(st, action, i), PoweringOff, i.now), [Issued(action, ByDrain)], true)
  }

  predicate NothingLeftToDrain(pods: seq<Scheduling.DrainClass>) {
    forall k :: 0 <= k < |pods| ==> pods[k] == Scheduling.Ignore
  }

  function DrainTimedOut(st: Status, i: Inputs): Outcome {
    var noted := st.(drainFailedAt := Some(i.now));
    if i.config.policy == Auto then
      var pool :=
        if st.decision.Some? then st.decision.value.pool
        else if st.pools != [] then st.pools[0] else "";
      var aborted := noted.(decision := Some(Decision(pool, TurnOn, i.now)));
      if i.nodeFound && !i.cordonOk then Outcome(aborted, [], false)
      else Outcome(SetPhase(aborted, On, i.now), if i.nodeFound then [UncordonNode] else [], true)
    else
      Stay(noted.(phaseSince := Some(i.now)))
  }

  /** All pods are gone: take the machine offline, once it is known how. */
  function Drained(st: Status, i: Inputs): Outcome {
    if i.config.offMode != SuspendIfS3 then StartPowerOff(st, i)
    else
      var probed := ProbeSleep(st, i);
      if probed.1.None? && InPhaseFor(probed.0, i.now) <= PROBE_WAIT_SECS then Stay(probed.0)
      else StartPowerOff(probed.0, i)
  }

  function Drain(st: Status, i: Inputs): Outcome {
    if NothingLeftToDrain(i.pods) then Drained(st, i)
    else if InPhaseFor(st, i.now) <= i.config.drainTimeout then Stay(st)
    else if i.config.forceAfterDrain then StartPowerOff(st, i)
    else DrainTimedOut(st, i)
  }

  /** A machine that left standby unasked is drained and shut down instead of suspended again. */
  function WokeByItself(st: Status, now: int): Status {
    if st.phase == Standby && st.standbySince.Some? && st.nodeReady && st.power != ReadsOff
    then st.(standbyFailedAt := Some(now), standbySince := None) else st
  }

  function WaitForPowerOff(st: Status, i: Inputs): Outcome {
    var shutdown := i.config.shutdownTimeout;
    var settle := if shutdown < STANDBY_SETTLE_SECS then shutdown else STANDBY_SETTLE_SECS;
    if st.standbySince.Some? && InPhaseFor(st, i.now) > settle then
      var failed := Acted(st.(standbyFailedAt := Some(i.now)), PowerOff, i);
      Outcome(failed.(phaseSince := Some(i.now)), [Issued(PowerOff, ByEnsureOff)], true)
    else if InPhaseFor(st, i.now) > shutdown then
      if ForcedLately(st, i.now) then Stay(st)
      else Outcome(Acted(st, ForceOff, i).(forcedOffAt := Some(i.now), standbySince := None),
                   [Issued(ForceOff, ByEnsureOff)], true)
    else
      var action := MachineOffAction(st, i);
      if st.lastAction.Some? && !st.lastAction.value.succeeded
         && SinceLastAction(st, action, i.now) > RETRY_ACTION_AFTER / 3
      then Outcome(Acted(st, action, i), [Issued(action, ByEnsureOff)], true)
      else Stay(st)
  }

  function EnsureOff(st0: Status, i: Inputs): Outcome {
    var st := WokeByItself(st0, i.now);
    if st.power == ReadsOff || InStandby(st.phase, st.standbySince.Some?, st.nodeReady) then
      Stay(SetPhase(st, if st.standbySince.Some? then Standby else Off, i.now).(forcedOffAt := None))
    else if st.phase == PoweringOff then WaitForPowerOff(st, i)
    else if st.phase == Draining then Drain(st, i)
    else if !i.nodeFound then Stay(st)
    else if !i.cordonOk then Outcome(st, [], false)
    else Outcome(SetPhase(st, Draining, i.now), [CordonNode], true)
  }

  /** Without a desired state, only mirror what the interface reports. */
  function Observe(st: Status, now: int): Status {
    if InStandby(st.phase, st.standbySince.Some?, st.nodeReady) then st
    else
      match st.power
      case ReadsOn => SetPhase(st, if st.nodeReady then On else PoweringOn, now)
      case ReadsOff => SetPhase(st, Off, now)
      case ReadsUnknown => SetPhase(st, Unknown, now)
  }

  // ----- the whole reconcile ----------------------------------------------------------------

  /** Node readiness and membership as read now; a decision of a pool it left is dropped. */
  function Refreshed(before: Status, i: Inputs): Status {
    var st := before.(nodeReady := i.nodeReady, pools := i.pools);
    if st.decision.Some? && st.decision.value.pool !in i.pools then st.(decision := None) else st
  }

  predicate ReadingIsConsistent(st: Status, i: Inputs) {
    var lease := if st.power == ReadsOff && st.nodeReady then i.leaseAge else None;
    PowerStateConsistent(st.power, st.nodeReady, lease, OffActionAge(st, i.now))
  }

  /** The status with the power reading and the gates' verdict, before anything is concluded. */
  function WithReading(before: Status, i: Inputs): Status
    requires i.reading.Some?
  {
    var st := Refreshed(before, i).(power := i.reading.value);
    st.(inconsistent := !ReadingIsConsistent(st, i))
  }

  function ChangeSeen(before: Status, i: Inputs): ManualChange
    requires i.reading.Some?
  {
    DetectManualChange(before, WithReading(before, i), i.now, i.bootTimeout, i.config.shutdownTimeout)
  }

  /** The status the boot tracker works on: a machine seen off is under management again. */
  function BeforeBoot(before: Status, i: Inputs): Status
    requires i.reading.Some?
  {
    var st := WithReading(before, i);
    if st.power == ReadsOff && !st.nodeReady && ChangeSeen(before, i) != PoweredOn
    then st.(manualOn := None) else st
  }

  /** The status and boot event that the handlers start from. */
  function Concluded(before: Status, i: Inputs): (Status, BootEvent)
    requires i.reading.Some?
  {
    var tracked := TrackBoot(BeforeBoot(before, i), i.now, i.bootTimeout);
    (AfterManualChange(tracked.0, ChangeSeen(before, i), i), tracked.1)
  }

  /** The normal state machine, behind the gates. */
  function Drive(st: Status, i: Inputs): Outcome {
    if !i.nodeFound || st.inconsistent then Stay(Observe(st, i.now))
    else
      match ManagedTarget(i.config.policy, st, i.manualPolicy)
      case None => Stay(Observe(st, i.now))
      case Some(TurnOn) => EnsureOn(st, i)
      case Some(TurnOff) => EnsureOff(st, i)
  }

  /** Whether the reconcile got as far as a power reading. */
  predicate Reads(i: Inputs) {
    i.chainBuilt && i.reading.Some?
  }

  /** Boot handling first; it may replace the normal state machine. */
  function Handle(st: Status, event: BootEvent, i: Inputs): Outcome {
    var boot := Boot(st, event, i);
    if boot.handled then boot.out else Drive(st, i)
  }

  /** A reconcile that got no power reading only records that. */
  function Unread(before: Status, i: Inputs): Status {
    var st := Refreshed(before, i).(power := ReadsUnknown);
    if i.chainBuilt then st else st.(phase := Error)
  }

  function Reconciled(before: Status, i: Inputs): Outcome {
    if !Reads(i) then Stay(Unread(before, i))
    else Handle(Concluded(before, i).0, Concluded(before, i).1, i)
  }
}
