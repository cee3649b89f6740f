/** The status of one machine and the pure judgements made on it
    (`src/controller/node_power_management_config.rs`, status types from `src/crd.rs`). */
module MachineStatus {
  import opened Prelude
  import opened Clock

  datatype Phase =
    | Unknown | PoweringOn | On | Draining | PoweringOff | Off | Standby | Error | BootFailed

  datatype PowerState = ReadsOn | ReadsOff | ReadsUnknown

  datatype PowerTarget = TurnOn | TurnOff

  datatype PowerPolicy = Auto | AlwaysOn | AlwaysOff

  datatype ManualPolicy = LeaveOn | Adopt | TurnBackOff

  datatype FailurePolicy = Release | Retry

  datatype OffMode = ShutDown | Suspend | SuspendIfS3

  datatype Action = PowerOn | PowerOff | ForceOff | SuspendHost

  datatype ActionRecord = ActionRecord(action: Action, time: int, succeeded: bool)

  datatype Decision = Decision(pool: string, target: PowerTarget, time: int)

  datatype BootFailure = BootFailure(time: int, leftOn: bool)

  datatype ManualChangeRecord = ManualChangeRecord(time: int, policy: Option<ManualPolicy>)

  datatype SleepSupport = SleepSupport(bootId: string, s3: bool)

  datatype Status = Status(
    phase: Phase,
    phaseSince: Option<int>,
    power: PowerState,
    nodeReady: bool,
    pools: seq<string>,
    decision: Option<Decision>,
    inconsistent: bool,                       // condition PowerStateConsistent is False
    lastAction: Option<ActionRecord>,
    standbySince: Option<int>,
    standbyFailedAt: Option<int>,
    sleepSupport: Option<SleepSupport>,
    manualOn: Option<ManualChangeRecord>,
    manualOff: Option<ManualChangeRecord>,
    notReadySince: Option<int>,               // powered on without Ready since
    bootFailure: Option<BootFailure>,
    forcedOffAt: Option<int>,
    drainFailedAt: Option<int>)

  /** The status of a machine no controller has seen yet. */
  const DEFAULT_STATUS :=
    Status(Unknown, None, ReadsUnknown, false, [], None, false, None, None, None, None, None, None,
           None, None, None, None)

  const RETRY_ACTION_AFTER := 90
  const STANDBY_SETTLE_SECS := 240
  const STANDBY_BACKOFF_SECS := 24 * 3600
  const PROBE_WAIT_SECS := 60
  const SPONTANEOUS_WAKE_SECS := 300
  const OFF_GRACE_SECS := 90
  const LEASE_FRESH_SECS := 15

  // ----- targets ----------------------------------------------------------------------------

  function DesiredTarget(policy: PowerPolicy, st: Status): Option<PowerTarget> {
    match policy
    case AlwaysOn => Some(TurnOn)
    case AlwaysOff => Some(TurnOff)
    case Auto =>
      if st.decision.Some? && st.decision.value.pool in st.pools then Some(st.decision.value.target) else None
  }

  /** A machine powered on by hand under `LeaveOn` is only observed, whatever decision is stored. */
  function ManagedTarget(policy: PowerPolicy, st: Status, manual: ManualPolicy): Option<PowerTarget> {
    if policy == Auto && st.manualOn.Some? && manual == LeaveOn then None else DesiredTarget(policy, st)
  }

  // ----- manual power changes ---------------------------------------------------------------

  datatype ManualChange = NoChange | PoweredOn | PoweredOff

  /** Seconds since our last action, if that was a PowerOn. */
  function OnActionAge(st: Status, now: int): Option<int> {
    if st.lastAction.Some? && st.lastAction.value.action == PowerOn
    then Some(NumSeconds(now - st.lastAction.value.time)) else None
  }

  /** Seconds since our last action, if that took the machine offline. */
  function OffActionAge(st: Status, now: int): Option<int> {
    if st.lastAction.Some?
       && (st.lastAction.value.action == PowerOff || st.lastAction.value.action == ForceOff
           || st.lastAction.value.action == SuspendHost)
    then Some(NumSeconds(now - st.lastAction.value.time)) else None
  }

  predicate AtMost(age: Option<int>, limit: int) {
    age.Some? && age.value <= limit
  }

  function DetectManualChange(before: Status, st: Status, now: int, bootTimeout: int, shutdownTimeout: int)
    : ManualChange
  {
    var ourOn := AtMost(OnActionAge(st, now), bootTimeout);
    var ourOff := AtMost(OffActionAge(st, now), shutdownTimeout + 300);
    var onNow := st.power == ReadsOn || st.nodeReady;
    var offNow := st.power == ReadsOff && !st.nodeReady;
    match before.phase
    case Off => if onNow && !ourOn then PoweredOn else NoChange
    case Standby =>
      if st.nodeReady && !ourOn
         && (before.standbySince.None? || NumSeconds(now - before.standbySince.value) > SPONTANEOUS_WAKE_SECS)
      then PoweredOn else NoChange
    case On | PoweringOn | BootFailed =>
      if before.power == ReadsOn && offNow && !ourOff then PoweredOff else NoChange
    case _ => NoChange
  }

  // ----- boots ------------------------------------------------------------------------------

  datatype BootEvent = NoEvent | Failed | Recovered

  /** Powered on, not in standby, and in no phase that is on its way off. */
  predicate CountsAsBooting(st: Status) {
    && st.power == ReadsOn
    && st.standbySince.None?
    && st.phase != PoweringOff && st.phase != Draining && st.phase != Standby
  }

  /** When the boot in progress started, for a boot first seen now. */
  function BootStart(st: Status, now: int): int {
    match st.phase
    case PoweringOn | BootFailed =>
      var since := st.phaseSince.GetOr(now);
      if since < now then since else now
    case _ => now
  }

  function TrackBoot(st: Status, now: int, bootTimeout: int): (Status, BootEvent) {
    if st.nodeReady then
      (st.(notReadySince := None, bootFailure := None),
       if st.bootFailure.Some? then Recovered else NoEvent)
    else if !CountsAsBooting(st) then
      (if st.power == ReadsOff then st.(notReadySince := None) else st, NoEvent)
    else
      var since := st.notReadySince.GetOr(BootStart(st, now));
      var tracked := st.(notReadySince := Some(since));
      if (st.bootFailure.None? || since > st.bootFailure.value.time) && NumSeconds(now - since) > bootTimeout
      then (tracked.(bootFailure := Some(BootFailure(now, false))), Failed)
      else (tracked, NoEvent)
  }

  /** Whether the recorded boot failure belongs to the boot in progress. */
  predicate FailureIsCurrent(st: Status) {
    st.bootFailure.Some? && st.notReadySince.Some? && st.notReadySince.value <= st.bootFailure.value.time
  }

  /** Our last action is the PowerOn that started the boot in progress. */
  predicate BootIsOurs(st: Status) {
    && st.lastAction.Some?
    && st.lastAction.value.action == PowerOn
    && (st.notReadySince.None? || st.lastAction.value.time >= st.notReadySince.value - Seconds(120))
  }

  predicate BootFailureLeavesOn(st: Status, policy: PowerPolicy, manual: ManualPolicy) {
    policy != Auto || (!BootIsOurs(st) && manual == LeaveOn)
  }

  // ----- power-on attempts ------------------------------------------------------------------

  /** Under `Release`: an On decision is older than the timeout and the machine is not on yet. */
  predicate AttemptExpired(st: Status, now: int, policy: FailurePolicy, timeout: int) {
    && policy == Release
    && !st.nodeReady
    && st.decision.Some?
    && st.decision.value.target == TurnOn
    && !(st.power == ReadsOn && st.standbySince.None?)
    && NumSeconds(now - st.decision.value.time) > timeout
  }

  // ----- standby ----------------------------------------------------------------------------

  predicate StandbyBroken(standbyFailedAt: Option<int>, now: int) {
    standbyFailedAt.Some? && NumSeconds(now - standbyFailedAt.value) < STANDBY_BACKOFF_SECS
  }

  /** How a machine is taken offline: suspended where configured and possible, else shut down. */
  function OffAction(mode: OffMode, standbyFailedAt: Option<int>, s3: Option<bool>, now: int): Action {
    if StandbyBroken(standbyFailedAt, now) then PowerOff
    else match mode
      case Suspend => SuspendHost
      case SuspendIfS3 => if s3 == Some(true) then SuspendHost else PowerOff
      case ShutDown => PowerOff
  }

  predicate S3Capable(st: Status, now: int) {
    st.phase == Standby
    || (!StandbyBroken(st.standbyFailedAt, now) && st.sleepSupport.Some? && st.sleepSupport.value.s3)
  }

  predicate InStandby(phase: Phase, requested: bool, nodeReady: bool) {
    requested && (phase == PoweringOff || phase == Standby) && !nodeReady
  }

  /** The reading does not claim Off while the kubelet is demonstrably alive. */
  predicate PowerStateConsistent(reported: PowerState, nodeReady: bool, leaseAge: Option<int>, sinceOurOff: Option<int>) {
    var nodeAlive := nodeReady && AtMost(leaseAge, LEASE_FRESH_SECS);
    !(reported == ReadsOff && nodeAlive && !AtMost(sinceOurOff, OFF_GRACE_SECS))
  }
}
