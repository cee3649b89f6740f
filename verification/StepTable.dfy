/** The decision table of a reconcile: each row says when it applies, what is stored and what is done, in
    terms of the status, the readings and the spec only. Exactly one row applies
    (`src/controller/node_power_management_config.rs`). */
module StepTable {
  import opened Prelude
  import opened Clock
  import opened MachineStatus
  import opened MachineStep
  import Scheduling

  // ----- vocabulary of the table ------------------------------------------------------------

  /** More than `limit` whole seconds have passed; a time that was never recorded counts as long ago. */
  predicate LongerThan(since: Option<int>, now: int, limit: int) {
    (if since.Some? then NumSeconds(now - since.value) else 0x7FFF_FFFF_FFFF_FFFF) > limit
  }

  function ActionTime(st: Status, action: Action): Option<int> {
    if st.lastAction.Some? && st.lastAction.value.action == action then Some(st.lastAction.value.time) else None
  }

  function Smaller(a: int, b: int): int { if a < b then a else b }

  /** When the phase was entered, if it is `phase` from now on. */
  function Entered(st: Status, phase: Phase, now: int): Option<int> {
    if st.phase == phase then st.phaseSince else Some(now)
  }

  function Done(action: Action, i: Inputs): Option<ActionRecord> { Some(ActionRecord(action, i.now, i.accepted)) }

  /** The power was cut within the last 90 seconds. */
  predicate CutLately(st: Status, now: int) { st.forcedOffAt.Some? && !LongerThan(st.forcedOffAt, now, 90) }

  predicate Asleep(st: Status) { st.standbySince.Some? }

  // ----- who decides ------------------------------------------------------------------------

  /** The recorded boot failure is that of the boot now timed, which is still going on. */
  predicate BootDrags(st: Status, event: BootEvent) {
    && event == NoEvent && st.bootFailure.Some? && st.power == ReadsOn && !st.nodeReady
    && st.notReadySince.Some? && st.notReadySince.value <= st.bootFailure.value.time
  }

  predicate PoolDecided(st: Status, target: PowerTarget) {
    st.decision.Some? && st.decision.value.target == target && st.decision.value.pool in st.pools
  }

  predicate HandsOffByHand(st: Status, i: Inputs) { st.manualOn.Some? && i.manualPolicy == LeaveOn }

  /** The state machine is in charge and the gates let it act. */
  predicate MayAct(st: Status, event: BootEvent, i: Inputs) {
    event != Failed && !BootDrags(st, event) && i.nodeFound && !st.inconsistent
  }

  predicate WantsOn(st: Status, event: BootEvent, i: Inputs) {
    && MayAct(st, event, i)
    && (i.config.policy == AlwaysOn
        || (i.config.policy == Auto && PoolDecided(st, TurnOn) && !HandsOffByHand(st, i)))
  }

  predicate WantsOff(st: Status, event: BootEvent, i: Inputs) {
    && MayAct(st, event, i)
    && (i.config.policy == AlwaysOff
        || (i.config.policy == Auto && PoolDecided(st, TurnOff) && !HandsOffByHand(st, i)))
  }

  predicate OnlyWatches(st: Status, event: BootEvent, i: Inputs) {
    event != Failed && !BootDrags(st, event) && !WantsOn(st, event, i) && !WantsOff(st, event, i)
  }

  // ----- rows: a boot that failed -----------------------------------------------------------

  predicate OursStartedIt(st: Status) {
    ActionTime(st, PowerOn).Some?
    && (st.notReadySince.Some? ==> ActionTime(st, PowerOn).value + 120 * SECOND >= st.notReadySince.value)
  }

  /** Overridden, or a person's boot that is left on. */
  predicate MayStayOn(st: Status, i: Inputs) {
    i.config.policy != Auto || (i.manualPolicy == LeaveOn && !OursStartedIt(st))
  }

  function FailedBoot(st: Status, i: Inputs): Status {
    st.(phase := BootFailed, phaseSince := Entered(st, BootFailed, i.now), decision := None,
        bootFailure := if st.bootFailure.None? then None
                       else Some(BootFailure(st.bootFailure.value.time, MayStayOn(st, i))))
  }

  lemma BootFailsRow(st: Status, i: Inputs)
    ensures Handle(st, Failed, i) ==
      if MayStayOn(st, i) then Outcome(FailedBoot(st, i), [], true)
      else Outcome(FailedBoot(st, i).(standbySince := None, lastAction := Done(PowerOff, i)),
                   [Issued(PowerOff, ByBoot)], true)
  {
  }

  /** Asked to shut down, longer ago than a shutdown takes, and not left on: cut off, once in 90 seconds. */
  predicate CutsFailedBoot(st: Status, i: Inputs)
    requires st.bootFailure.Some?
  {
    && !st.bootFailure.value.leftOn && !CutLately(st, i.now)
    && LongerThan(Some(st.bootFailure.value.time), i.now, Smaller(i.config.shutdownTimeout, 240))
  }

  lemma BootDragsRow(st: Status, i: Inputs)
    requires BootDrags(st, NoEvent)
    ensures var held := st.(phase := BootFailed, phaseSince := Entered(st, BootFailed, i.now));
      Handle(st, NoEvent, i) ==
        if CutsFailedBoot(st, i)
        then Outcome(held.(lastAction := Done(ForceOff, i), forcedOffAt := Some(i.now)), [Issued(ForceOff, ByBoot)], true)
        else Outcome(held, [], true)
  {
  }

  // ----- rows: nothing to bring about -------------------------------------------------------

  function Mirrored(st: Status): Phase {
    if Asleep(st) && !st.nodeReady && (st.phase == PoweringOff || st.phase == Standby) then st.phase
    else if st.power == ReadsOff then Off
    else if st.power == ReadsUnknown then Unknown
    else if st.nodeReady then On
    else PoweringOn
  }

  lemma WatchingRow(st: Status, event: BootEvent, i: Inputs)
    requires OnlyWatches(st, event, i)
    ensures Handle(st, event, i) ==
      Outcome(st.(phase := Mirrored(st), phaseSince := Entered(st, Mirrored(st), i.now)), [], true)
  {
    assert !Boot(st, event, i).handled;
    assert Drive(st, i) == Stay(Observe(st, i.now));
  }

  lemma WantsOnDrives(st: Status, event: BootEvent, i: Inputs)
    requires WantsOn(st, event, i)
    ensures Handle(st, event, i) == EnsureOn(st, i)
  {
    assert !Boot(st, event, i).handled;
  }

  lemma WantsOffDrives(st: Status, event: BootEvent, i: Inputs)
    requires WantsOff(st, event, i)
    ensures Handle(st, event, i) == EnsureOff(st, i)
  {
    assert !Boot(st, event, i).handled;
  }

  // ----- rows: towards On -------------------------------------------------------------------

  predicate Arrived(st: Status) { st.power == ReadsOn && st.nodeReady }

  /** What is known about S3 for the boot that is running, the probe's answer included. */
  function S3Answer(st: Status, i: Inputs): Option<bool> {
    if i.bootId.None? then None
    else if st.sleepSupport.Some? && st.sleepSupport.value.bootId == i.bootId.value then Some(st.sleepSupport.value.s3)
    else if i.probe == ProbeFailed then Some(false)
    else if i.probe.Done? && i.probe.bootId == i.bootId.value then Some(i.probe.s3)
    else None
  }

  /** The probe's answer, kept for its boot. */
  function Probed(st: Status, i: Inputs): Option<SleepSupport> {
    if S3Answer(st, i).Some? then Some(SleepSupport(i.bootId.value, S3Answer(st, i).value)) else st.sleepSupport
  }

  lemma ProbeRow(st: Status, i: Inputs)
    ensures ProbeSleep(st, i) == (st.(sleepSupport := Probed(st, i)), S3Answer(st, i))
  {
  }

  /** On and Ready: the cordon is lifted and the powered-off marker removed, and either call may fail. */
  lemma ArrivedRow(st: Status, i: Inputs)
    requires Arrived(st) && i.nodeFound
    ensures EnsureOn(st, i) ==
      if !i.cordonOk then Outcome(st, [], false)
      else if !i.unmarkOk then Outcome(st, [UncordonNode], false)
      else Outcome(st.(phase := On, phaseSince := Entered(st, On, i.now), forcedOffAt := None, standbySince := None,
                       sleepSupport := if i.config.offMode == SuspendIfS3 then Probed(st, i) else st.sleepSupport),
                   [UncordonNode], true)
  {
    ProbeRow(SetPhase(st, On, i.now).(forcedOffAt := None, standbySince := None), i);
  }

  /** An On decision has waited too long under `Release`, and the machine is neither on nor Ready. */
  predicate GivesUp(st: Status, i: Inputs) {
    && !Arrived(st) && !st.nodeReady && i.failurePolicy == Release
    && st.decision.Some? && st.decision.value.target == TurnOn
    && (st.power != ReadsOn || Asleep(st))
    && LongerThan(Some(st.decision.value.time), i.now, i.powerOnTimeout)
  }

  function GivenUp(st: Status, i: Inputs): Status {
    st.(decision := None, standbySince := None, bootFailure := Some(BootFailure(i.now, false)),
        standbyFailedAt := if Asleep(st) then Some(i.now) else st.standbyFailedAt)
  }

  lemma GivesUpRow(st: Status, i: Inputs)
    requires GivesUp(st, i)
    ensures EnsureOn(st, i) ==
      if st.power == ReadsOn
      then Outcome(GivenUp(st, i).(phase := BootFailed, phaseSince := Entered(st, BootFailed, i.now),
                                   notReadySince := Some(i.now), lastAction := Done(ForceOff, i),
                                   forcedOffAt := Some(i.now)),
                   [Issued(ForceOff, ByRelease)], true)
      else Outcome(GivenUp(st, i).(phase := Off, phaseSince := Entered(st, Off, i.now)), [], true)
  {
  }

  predicate Rising(st: Status, i: Inputs) { !Arrived(st) && !GivesUp(st, i) }

  /** It was to wake from standby and has not within the boot timeout. */
  predicate NeverWoke(st: Status, i: Inputs) {
    st.phase == PoweringOn && Asleep(st) && LongerThan(st.phaseSince, i.now, i.bootTimeout)
  }

  /** Asked, more than 90 seconds ago, and still off or asleep. */
  predicate AsksAgain(st: Status, i: Inputs) {
    && st.phase == PoweringOn && !NeverWoke(st, i)
    && (st.power == ReadsOff || Asleep(st)) && LongerThan(ActionTime(st, PowerOn), i.now, 90)
  }

  /** Suspended, or on its way there. */
  predicate WakesUp(st: Status) { Asleep(st) && (st.phase == PoweringOff || st.phase == Standby) }

  /** A shutdown is under way and may still finish. */
  predicate LetsItFinish(st: Status, i: Inputs) {
    && st.phase == PoweringOff && !Asleep(st) && st.power == ReadsOn
    && !LongerThan(st.phaseSince, i.now, i.config.shutdownTimeout)
  }

  /** Powered on without our asking for it now: it boots, or a scale-down was aborted. */
  predicate BootsAlready(st: Status, i: Inputs) {
    st.phase != PoweringOn && !Asleep(st) && st.power == ReadsOn && !LetsItFinish(st, i)
  }

  /** In phase Error less than 90 seconds after it was last asked. */
  predicate HoldsBack(st: Status, i: Inputs) {
    && st.phase == Error && (Asleep(st) || st.power != ReadsOn)
    && ActionTime(st, PowerOn).Some? && !LongerThan(ActionTime(st, PowerOn), i.now, 89)
  }

  predicate Asks(st: Status, i: Inputs) {
    && st.phase != PoweringOn
    && (WakesUp(st) || (!LetsItFinish(st, i) && !BootsAlready(st, i) && !HoldsBack(st, i)))
  }

  lemma NeverWokeRow(st: Status, i: Inputs)
    requires Rising(st, i) && NeverWoke(st, i)
    ensures EnsureOn(st, i) ==
      Outcome(st.(phase := Error, phaseSince := Some(i.now), standbyFailedAt := Some(i.now),
                  lastAction := Done(ForceOff, i)),
              [Issued(ForceOff, ByEnsureOn)], true)
  {
    assert EnsureOn(st, i) == PowerUp(st, i);
  }

  lemma AsksAgainRow(st: Status, i: Inputs)
    requires Rising(st, i) && AsksAgain(st, i)
    ensures EnsureOn(st, i) == Outcome(st.(lastAction := Done(PowerOn, i)), [Issued(PowerOn, ByEnsureOn)], true)
  {
    assert EnsureOn(st, i) == PowerUp(st, i);
  }

  lemma AsksRow(st: Status, i: Inputs)
    requires Rising(st, i) && Asks(st, i)
    ensures var next := if i.accepted then PoweringOn else Error;
      EnsureOn(st, i) ==
        Outcome(st.(phase := next, phaseSince := Entered(st, next, i.now), lastAction := Done(PowerOn, i)),
                [Issued(PowerOn, ByEnsureOn)], true)
  {
    assert EnsureOn(st, i) == PowerUp(st, i);
  }

  lemma BootsAlreadyRow(st: Status, i: Inputs)
    requires Rising(st, i) && BootsAlready(st, i) && i.nodeFound
    ensures EnsureOn(st, i) ==
      if !i.cordonOk then Outcome(st, [], false)
      else Outcome(st.(phase := PoweringOn, phaseSince := Some(i.now)), [UncordonNode], true)
  {
    assert EnsureOn(st, i) == PowerUp(st, i);
  }

  lemma WaitsForOnRow(st: Status, i: Inputs)
    requires Rising(st, i) && !NeverWoke(st, i) && !AsksAgain(st, i) && !Asks(st, i) && !BootsAlready(st, i)
    ensures EnsureOn(st, i) == Outcome(st, [], true)
  {
    assert EnsureOn(st, i) == PowerUp(st, i);
  }

  // ----- rows: towards Off ------------------------------------------------------------------

  /** Suspended, and its Node is Ready all the same: it woke by itself, and is not suspended again. */
  predicate WokeUnasked(st: Status) {
    st.phase == Standby && Asleep(st) && st.nodeReady && st.power != ReadsOff
  }

  function Woken(st: Status, now: int): Status {
    if WokeUnasked(st) then st.(standbyFailedAt := Some(now), standbySince := None) else st
  }

  predicate IsOff(st: Status) {
    st.power == ReadsOff || (Asleep(st) && !st.nodeReady && (st.phase == PoweringOff || st.phase == Standby))
  }

  lemma OffRow(st: Status, i: Inputs)
    requires IsOff(st)
    ensures var next := if Asleep(st) then Standby else Off;
      EnsureOff(st, i) ==
        Outcome(st.(phase := next, phaseSince := Entered(st, next, i.now), forcedOffAt := None), [], true)
  {
    assert WokeByItself(st, i.now) == st;
  }

  /** Suspended where that is configured, has not failed within a day, and (with `SuspendIfS3`) S3 is known
      to be there; shut down otherwise. */
  function HowOff(st: Status, i: Inputs, s3: Option<bool>): Action {
    if st.standbyFailedAt.Some? && !LongerThan(st.standbyFailedAt, i.now, 86399) then PowerOff
    else if i.config.offMode == Suspend || (i.config.offMode == SuspendIfS3 && s3 == Some(true)) then SuspendHost
    else PowerOff
  }

  /** What the last probe of the boot that is running said. */
  function S3OnRecord(st: Status, i: Inputs): Option<bool> {
    if st.sleepSupport.Some? && i.bootId == Some(st.sleepSupport.value.bootId) then Some(st.sleepSupport.value.s3) else None
  }

  function Requested(st: Status, action: Action, i: Inputs): Status {
    st.(lastAction := Done(action, i),
        standbySince := if action == SuspendHost then Some(i.now) else if action == PowerOff then None else st.standbySince)
  }

  /** It did not fall asleep in time: shut down instead. */
  predicate NeverSlept(st: Status, i: Inputs) {
    Asleep(st) && LongerThan(st.phaseSince, i.now, Smaller(i.config.shutdownTimeout, 240))
  }

  lemma NeverSleptRow(st: Status, i: Inputs)
    requires !IsOff(st) && st.phase == PoweringOff && NeverSlept(st, i)
    ensures EnsureOff(st, i) ==
      Outcome(Requested(st, PowerOff, i).(standbyFailedAt := Some(i.now), phaseSince := Some(i.now)),
              [Issued(PowerOff, ByEnsureOff)], true)
  {
    assert EnsureOff(st, i) == WaitForPowerOff(st, i);
  }

  /** The shutdown takes longer than it may: cut off, once in 90 seconds. */
  lemma OverdueRow(st: Status, i: Inputs)
    requires !IsOff(st) && st.phase == PoweringOff && !NeverSlept(st, i)
    requires LongerThan(st.phaseSince, i.now, i.config.shutdownTimeout)
    ensures EnsureOff(st, i) ==
      if CutLately(st, i.now) then Outcome(st, [], true)
      else Outcome(st.(lastAction := Done(ForceOff, i), forcedOffAt := Some(i.now), standbySince := None),
                   [Issued(ForceOff, ByEnsureOff)], true)
  {
    assert EnsureOff(st, i) == WaitForPowerOff(st, i);
  }

  /** The request was refused more than 30 seconds ago. */
  predicate RequestsAgain(st: Status, i: Inputs) {
    && st.lastAction.Some? && !st.lastAction.value.succeeded
    && LongerThan(ActionTime(st, HowOff(st, i, S3OnRecord(st, i))), i.now, 30)
  }

  lemma ShuttingDownRow(st: Status, i: Inputs)
    requires !IsOff(st) && st.phase == PoweringOff && !NeverSlept(st, i)
    requires !LongerThan(st.phaseSince, i.now, i.config.shutdownTimeout)
    ensures var how := HowOff(st, i, S3OnRecord(st, i));
      EnsureOff(st, i) ==
        if RequestsAgain(st, i) then Outcome(Requested(st, how, i), [Issued(how, ByEnsureOff)], true)
        else Outcome(st, [], true)
  {
    assert EnsureOff(st, i) == WaitForPowerOff(st, i);
    HowRow(st, i);
  }

  lemma HowRow(st: Status, i: Inputs)
    ensures MachineOffAction(st, i) == HowOff(st, i, S3OnRecord(st, i))
    ensures S3Known(st, i) == S3OnRecord(st, i)
  {
  }

  predicate Empty(pods: seq<Scheduling.DrainClass>) { forall p <- pods :: p == Scheduling.Ignore }

  lemma EmptyExact(pods: seq<Scheduling.DrainClass>)
    ensures NothingLeftToDrain(pods) <==> Empty(pods)
  {
    forall k | 0 <= k < |pods| ensures pods[k] in pods {
    }
  }

  /** The probe that decides between suspend and shutdown has not answered, and may still do so. */
  predicate AwaitsProbe(st: Status, i: Inputs) {
    i.config.offMode == SuspendIfS3 && S3Answer(st, i).None? && !LongerThan(st.phaseSince, i.now, 60)
  }

  function TakenDown(st: Status, how: Action, i: Inputs): Outcome {
    Outcome(Requested(st, how, i).(phase := PoweringOff, phaseSince := Entered(st, PoweringOff, i.now)),
            [Issued(how, ByDrain)], true)
  }

  lemma TakenDownRow(st: Status, i: Inputs)
    ensures StartPowerOff(st, i) == TakenDown(st, HowOff(st, i, S3OnRecord(st, i)), i)
  {
    HowRow(st, i);
  }

  lemma EmptyRow(st: Status, i: Inputs)
    requires !IsOff(st) && st.phase == Draining && Empty(i.pods)
    ensures var probed := if i.config.offMode == SuspendIfS3 then st.(sleepSupport := Probed(st, i)) else st;
      EnsureOff(st, i) ==
        if AwaitsProbe(st, i) then Outcome(probed, [], true)
        else TakenDown(probed, HowOff(probed, i, S3OnRecord(probed, i)), i)
  {
    EmptyExact(i.pods);
    assert EnsureOff(st, i) == Drain(st, i);
    ProbeRow(st, i);
    TakenDownRow(st, i);
    TakenDownRow(st.(sleepSupport := Probed(st, i)), i);
  }

  /** Pods are left: wait for the timeout; then go on all the same, abort the scale-down (under `Auto`), or
      begin anew. */
  lemma OccupiedRow(st: Status, i: Inputs)
    requires !IsOff(st) && st.phase == Draining && !Empty(i.pods) && i.nodeFound
    ensures EnsureOff(st, i) ==
      if !LongerThan(st.phaseSince, i.now, i.config.drainTimeout) then Outcome(st, [], true)
      else if i.config.forceAfterDrain then TakenDown(st, HowOff(st, i, S3OnRecord(st, i)), i)
      else if i.config.policy != Auto then
        Outcome(st.(drainFailedAt := Some(i.now), phaseSince := Some(i.now)), [], true)
      else Aborted(st, i)
  {
    EmptyExact(i.pods);
    assert EnsureOff(st, i) == Drain(st, i);
    TakenDownRow(st, i);
  }

  function Aborted(st: Status, i: Inputs): Outcome {
    var pool := if st.decision.Some? then st.decision.value.pool else if st.pools != [] then st.pools[0] else "";
    var kept := st.(drainFailedAt := Some(i.now), decision := Some(Decision(pool, TurnOn, i.now)));
    if i.cordonOk then Outcome(kept.(phase := On, phaseSince := Some(i.now)), [UncordonNode], true)
    else Outcome(kept, [], false)
  }

  /** Not off and not on its way: cordon it and begin to drain. */
  lemma CordonRow(st: Status, i: Inputs)
    requires !IsOff(st) && st.phase != PoweringOff && st.phase != Draining && i.nodeFound
    ensures var woken := Woken(st, i.now);
      EnsureOff(st, i) ==
        if !i.cordonOk then Outcome(woken, [], false)
        else Outcome(woken.(phase := Draining, phaseSince := Some(i.now)), [CordonNode], true)
  {
    assert WokeByItself(st, i.now) == Woken(st, i.now);
  }

  // ----- the rows together ------------------------------------------------------------------

  /** Still to go off: not off yet, and the operator wants it to be. */
  predicate Sinking(st: Status, event: BootEvent, i: Inputs) { WantsOff(st, event, i) && !IsOff(st) }

  predicate Climbing(st: Status, event: BootEvent, i: Inputs) { WantsOn(st, event, i) && Rising(st, i) }

  predicate Overdue(st: Status, i: Inputs) {
    st.phase == PoweringOff && !NeverSlept(st, i) && LongerThan(st.phaseSince, i.now, i.config.shutdownTimeout)
  }

  /** All pods are gone and the way is known, or the timeout is over and it goes on with pods left. */
  predicate DrainedOrForced(st: Status, i: Inputs) {
    && st.phase == Draining
    && if Empty(i.pods) then !AwaitsProbe(st, i)
       else i.config.forceAfterDrain && LongerThan(st.phaseSince, i.now, i.config.drainTimeout)
  }

  predicate Aborts(st: Status, i: Inputs) {
    && st.phase == Draining && !Empty(i.pods) && !i.config.forceAfterDrain && i.config.policy == Auto
    && LongerThan(st.phaseSince, i.now, i.config.drainTimeout)
  }

  function Effects(st: Status, event: BootEvent, i: Inputs): seq<Effect> { Handle(st, event, i).effects }

  lemma TargetsExclude(st: Status, event: BootEvent, i: Inputs)
    ensures !(WantsOn(st, event, i) && WantsOff(st, event, i))
  {
  }

  /** What the state machine does on its way to On. */
  lemma ClimbingEffects(st: Status, event: BootEvent, i: Inputs)
    requires WantsOn(st, event, i)
    ensures Effects(st, event, i) ==
      if Arrived(st) then if i.cordonOk then [UncordonNode] else []
      else if GivesUp(st, i) then if st.power == ReadsOn then [Issued(ForceOff, ByRelease)] else []
      else if NeverWoke(st, i) then [Issued(ForceOff, ByEnsureOn)]
      else if AsksAgain(st, i) || Asks(st, i) then [Issued(PowerOn, ByEnsureOn)]
      else if BootsAlready(st, i) && i.cordonOk then [UncordonNode]
      else []
  {
    WantsOnDrives(st, event, i);
    if Arrived(st) {
      ArrivedRow(st, i);
    } else if GivesUp(st, i) {
      GivesUpRow(st, i);
    } else if NeverWoke(st, i) {
      NeverWokeRow(st, i);
    } else if AsksAgain(st, i) {
      AsksAgainRow(st, i);
    } else if Asks(st, i) {
      AsksRow(st, i);
    } else if BootsAlready(st, i) {
      BootsAlreadyRow(st, i);
    } else {
      WaitsForOnRow(st, i);
    }
  }

  function HowNow(st: Status, i: Inputs): Action {
    var probed := if Empty(i.pods) && i.config.offMode == SuspendIfS3 then st.(sleepSupport := Probed(st, i)) else st;
    HowOff(probed, i, S3OnRecord(probed, i))
  }

  /** And on its way to Off. */
  lemma SinkingEffects(st: Status, event: BootEvent, i: Inputs)
    requires WantsOff(st, event, i)
    ensures Effects(st, event, i) ==
      if IsOff(st) then []
      else if st.phase == PoweringOff then
        if NeverSlept(st, i) then [Issued(PowerOff, ByEnsureOff)]
        else if Overdue(st, i) then if CutLately(st, i.now) then [] else [Issued(ForceOff, ByEnsureOff)]
        else if RequestsAgain(st, i) then [Issued(HowOff(st, i, S3OnRecord(st, i)), ByEnsureOff)]
        else []
      else if st.phase == Draining then
        if DrainedOrForced(st, i) then [Issued(HowNow(st, i), ByDrain)]
        else if Aborts(st, i) && i.cordonOk then [UncordonNode]
        else []
      else if i.cordonOk then [CordonNode]
      else []
  {
    WantsOffDrives(st, event, i);
    if IsOff(st) {
      OffRow(st, i);
    } else if st.phase == PoweringOff {
      if NeverSlept(st, i) {
        NeverSleptRow(st, i);
      } else if Overdue(st, i) {
        OverdueRow(st, i);
      } else {
        ShuttingDownRow(st, i);
      }
    } else if st.phase == Draining {
      if Empty(i.pods) {
        EmptyRow(st, i);
      } else {
        OccupiedRow(st, i);
      }
    } else {
      CordonRow(st, i);
    }
  }

  /** Without a target nothing is done but for the two acts of the boot handler. */
  lemma OtherEffects(st: Status, event: BootEvent, i: Inputs)
    requires !WantsOn(st, event, i) && !WantsOff(st, event, i)
    ensures Effects(st, event, i) ==
      if event == Failed && !MayStayOn(st, i) then [Issued(PowerOff, ByBoot)]
      else if BootDrags(st, event) && CutsFailedBoot(st, i) then [Issued(ForceOff, ByBoot)]
      else []
  {
    if event == Failed {
      BootFailsRow(st, i);
    } else if BootDrags(st, event) {
      BootDragsRow(st, i);
    } else {
      WatchingRow(st, event, i);
    }
  }

  // ----- what the handlers start from -------------------------------------------------------

  /** The last action was a power-on (or was none), at most `limit` seconds ago. */
  predicate ActedWithin(st: Status, now: int, on: bool, limit: int) {
    && st.lastAction.Some? && (st.lastAction.value.action == PowerOn <==> on)
    && NumSeconds(now - st.lastAction.value.time) <= limit
  }

  /** Off before and on now, or Ready after more than 300 seconds of standby, and not by us. */
  predicate TurnedOnByHand(before: Status, i: Inputs) {
    && ((before.phase == Off && (i.reading == Some(ReadsOn) || i.nodeReady))
        || (before.phase == Standby && i.nodeReady && LongerThan(before.standbySince, i.now, 300))
        || (before.phase == Standby && i.nodeReady && before.standbySince.None?))
    && !ActedWithin(before, i.now, true, i.bootTimeout)
  }

  /** On before, booting or not, and off now, and not by us. */
  predicate TurnedOffByHand(before: Status, i: Inputs) {
    && (before.phase == On || before.phase == PoweringOn || before.phase == BootFailed) && before.power == ReadsOn
    && i.reading == Some(ReadsOff) && !i.nodeReady
    && !ActedWithin(before, i.now, false, i.config.shutdownTimeout + 300)
  }

  lemma ByHandRow(before: Status, i: Inputs)
    requires Reads(i)
    ensures ChangeSeen(before, i) ==
      if TurnedOnByHand(before, i) then PoweredOn else if TurnedOffByHand(before, i) then PoweredOff else NoChange
  {
    var st := WithReading(before, i);
    assert st.lastAction == before.lastAction && st.power == i.reading.value && st.nodeReady == i.nodeReady;
  }

  /** A boot is timed while the machine reads on, is not asleep and not on its way off. */
  predicate Boots(before: Status, i: Inputs) {
    && !i.nodeReady && i.reading == Some(ReadsOn) && before.standbySince.None?
    && before.phase != PoweringOff && before.phase != Draining && before.phase != Standby
  }

  /** From when it was first seen; or, in the phases of a boot, from when that phase began. */
  function BootClock(before: Status, i: Inputs): Option<int> {
    if Boots(before, i) then
      if before.notReadySince.Some? then before.notReadySince
      else if (before.phase == PoweringOn || before.phase == BootFailed) && before.phaseSince.Some?
              && before.phaseSince.value < i.now then before.phaseSince
      else Some(i.now)
    else if i.nodeReady || i.reading == Some(ReadsOff) then None
    else before.notReadySince
  }

  /** It takes longer than the boot timeout, and no failure of this boot is on record yet. */
  predicate FailsNow(before: Status, i: Inputs) {
    && Boots(before, i)
    && LongerThan(BootClock(before, i), i.now, i.bootTimeout)
    && (before.bootFailure.Some? ==> BootClock(before, i).value > before.bootFailure.value.time)
  }

  lemma TrackRow(before: Status, i: Inputs)
    requires Reads(i)
    ensures var st := BeforeBoot(before, i);
      TrackBoot(st, i.now, i.bootTimeout) ==
        (st.(notReadySince := BootClock(before, i),
             bootFailure := if i.nodeReady then None
                            else if FailsNow(before, i) then Some(BootFailure(i.now, false)) else before.bootFailure),
         if i.nodeReady && before.bootFailure.Some? then Recovered else if FailsNow(before, i) then Failed else NoEvent)
  {
    var st := BeforeBoot(before, i);
    assert st.phase == before.phase && st.phaseSince == before.phaseSince && st.power == i.reading.value
      && st.nodeReady == i.nodeReady && st.notReadySince == before.notReadySince
      && st.standbySince == before.standbySince && st.bootFailure == before.bootFailure;
  }

  /** The decision, unless the pool that made it selects the machine no more. */
  function KeptDecision(before: Status, i: Inputs): Option<Decision> {
    if before.decision.Some? && before.decision.value.pool in i.pools then before.decision else None
  }

  /** Off is read although the Node is Ready and its lease fresh, with no act of ours to explain it. */
  predicate Contradicted(before: Status, i: Inputs) {
    && i.reading == Some(ReadsOff) && i.nodeReady && i.leaseAge.Some? && i.leaseAge.value <= 15
    && !ActedWithin(before, i.now, false, 90)
  }

  lemma BeforeBootRow(before: Status, i: Inputs)
    requires Reads(i)
    ensures BeforeBoot(before, i) ==
      before.(nodeReady := i.nodeReady, pools := i.pools, power := i.reading.value,
              decision := KeptDecision(before, i), inconsistent := Contradicted(before, i),
              manualOn := if i.reading == Some(ReadsOff) && !i.nodeReady then None else before.manualOn)
  {
    ByHandRow(before, i);
  }

  /** Which boot failure is on record once the reading is in. */
  function FailureKept(before: Status, i: Inputs): Option<BootFailure> {
    if i.nodeReady || TurnedOnByHand(before, i) then None
    else if FailsNow(before, i) then Some(BootFailure(i.now, false))
    else if TurnedOffByHand(before, i) && before.bootFailure.Some? && before.bootFailure.value.leftOn then None
    else before.bootFailure
  }

  /** What the handlers start from, field by field; every other field is as it was stored. */
  lemma ConcludedRow(before: Status, i: Inputs)
    requires Reads(i)
    ensures var on, off := TurnedOnByHand(before, i), TurnedOffByHand(before, i);
      Concluded(before, i).0 ==
        before.(nodeReady := i.nodeReady, pools := i.pools, power := i.reading.value,
                inconsistent := Contradicted(before, i),
                decision := if on || off then None else KeptDecision(before, i),
                standbySince := if on then None else before.standbySince,
                notReadySince := BootClock(before, i),
                bootFailure := FailureKept(before, i),
                manualOn := if on then Some(ManualChangeRecord(i.now, Some(i.manualPolicy)))
                            else if i.reading == Some(ReadsOff) && !i.nodeReady then None else before.manualOn,
                manualOff := if off then Some(ManualChangeRecord(i.now, None)) else before.manualOff)
    ensures Concluded(before, i).1 ==
      if i.nodeReady && before.bootFailure.Some? then Recovered else if FailsNow(before, i) then Failed else NoEvent
  {
    ByHandRow(before, i);
    BeforeBootRow(before, i);
    TrackRow(before, i);
  }

  /** With a reading, the handlers decide on that. */
  lemma ReadRow(before: Status, i: Inputs)
    requires i.chainBuilt && i.reading.Some?
    ensures Reconciled(before, i) == Handle(Concluded(before, i).0, Concluded(before, i).1, i)
  {
  }

  /** Without a reading: what is known of the Node, and that the power is not; phase Error without any
      interface. */
  lemma UnreadRow(before: Status, i: Inputs)
    requires !(i.chainBuilt && i.reading.Some?)
    ensures Reconciled(before, i) ==
      Outcome(before.(nodeReady := i.nodeReady, pools := i.pools, power := ReadsUnknown, decision := KeptDecision(before, i),
                      phase := if i.chainBuilt then before.phase else Error), [], true)
  {
  }
}
