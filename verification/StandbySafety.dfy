/** Standby, power-on attempts and manual overrides (`src/controller/node_power_management_config.rs`). */
module StandbySafety {
  import opened Prelude
  import opened Clock
  import opened MachineStatus
  import opened MachineStep
  import opened MachineRuns
  import BootSafety
  import ManualChanges
  import StepTable

  // ----- one reconcile ----------------------------------------------------------------------

  /** The probe of the boot that is running found S3. */
  predicate ProbeFoundS3(o: Status, i: Inputs) {
    i.bootId.Some? && o.sleepSupport == Some(SleepSupport(i.bootId.value, true))
  }

  /** A suspend is issued only where standby is configured and works, and (with `SuspendIfS3`) where
      the kernel is known to offer S3. */
  predicate MaySuspend(st: Status, o: Status, i: Inputs) {
    && !StandbyBroken(st.standbyFailedAt, i.now)
    && (i.config.offMode == Suspend || (i.config.offMode == SuspendIfS3 && ProbeFoundS3(o, i)))
  }

  /** What a handler keeps true of standby, phase Off and the standby failure on record. */
  predicate StandbyStep(st: Status, o: Outcome, i: Inputs) {
    && (o.completed && o.st.phase == Standby ==> o.st.standbySince.Some?)
    && (o.completed && o.st.phase == Off ==> st.power != ReadsOn && o.st.notReadySince == st.notReadySince)
    && o.st.power == st.power
    && (Issues(o, SuspendHost) ==> MaySuspend(st, o.st, i))
    && (o.st.standbyFailedAt == st.standbyFailedAt || o.st.standbyFailedAt == Some(i.now))
  }

  lemma ProbeKeeps(st: Status, i: Inputs)
    ensures var o := ProbeSleep(st, i).0;
      && o.phase == st.phase && o.phaseSince == st.phaseSince && o.power == st.power
      && o.standbySince == st.standbySince && o.standbyFailedAt == st.standbyFailedAt
      && o.notReadySince == st.notReadySince
  {
  }

  lemma StartPowerOffSteps(st: Status, i: Inputs)
    ensures StandbyStep(st, StartPowerOff(st, i), i)
  {
  }

  lemma DrainedSteps(st: Status, i: Inputs)
    requires st.phase == Draining
    ensures StandbyStep(st, Drained(st, i), i)
  {
    ProbeKeeps(st, i);
    StartPowerOffSteps(st, i);
    StartPowerOffSteps(ProbeSleep(st, i).0, i);
  }

  lemma DrainSteps(st: Status, i: Inputs)
    requires st.phase == Draining
    ensures StandbyStep(st, Drain(st, i), i)
  {
    DrainedSteps(st, i);
    StartPowerOffSteps(st, i);
    DrainTimedOutSteps(st, i);
  }

  lemma DrainTimedOutSteps(st: Status, i: Inputs)
    requires st.phase == Draining
    ensures StandbyStep(st, DrainTimedOut(st, i), i)
  {
  }

  lemma WaitForPowerOffKeeps(st: Status, i: Inputs)
    requires st.phase == PoweringOff
    ensures var o := WaitForPowerOff(st, i);
      && o.st.phase == PoweringOff && o.st.power == st.power
      && (o.st.standbyFailedAt == st.standbyFailedAt || o.st.standbyFailedAt == Some(i.now))
  {
  }

  lemma WaitForPowerOffSteps(st: Status, i: Inputs)
    requires st.phase == PoweringOff
    ensures StandbyStep(st, WaitForPowerOff(st, i), i)
  {
    WaitForPowerOffKeeps(st, i);
    if Issues(WaitForPowerOff(st, i), SuspendHost) {
      SuspendsAgain(st, i);
    }
  }

  lemma SuspendsAgain(st: Status, i: Inputs)
    requires st.phase == PoweringOff && Issues(WaitForPowerOff(st, i), SuspendHost)
    ensures MaySuspend(st, WaitForPowerOff(st, i).st, i)
  {
  }

  lemma WakingSteps(st: Status, now: int)
    ensures var o := WokeByItself(st, now);
      && o.phase == st.phase && o.power == st.power && o.nodeReady == st.nodeReady && o.notReadySince == st.notReadySince
      && (o != st ==> st.phase == Standby && o.standbySince.None? && o.standbyFailedAt == Some(now))
  {
  }

  lemma EnsureOffSteps(st: Status, i: Inputs)
    requires i.nodeFound
    ensures StandbyStep(st, EnsureOff(st, i), i)
  {
    WakingSteps(st, i.now);
    if st.phase == Draining {
      DrainSteps(st, i);
    } else if st.phase == PoweringOff {
      WaitForPowerOffSteps(st, i);
    }
  }

  lemma OnlineSteps(st: Status, i: Inputs)
    ensures StandbyStep(st, Online(st, i), i)
  {
    ProbeKeeps(SetPhase(st, On, i.now).(forcedOffAt := None, standbySince := None), i);
  }

  lemma ReleaseSteps(st: Status, i: Inputs)
    ensures StandbyStep(st, ReleaseFailedPowerOn(st, i), i)
  {
  }

  lemma RequestPowerOnSteps(st: Status, i: Inputs)
    ensures StandbyStep(st, RequestPowerOn(st, i), i)
    ensures var o := RequestPowerOn(st, i).st; o.phase == PoweringOn || o.phase == Error
  {
  }

  lemma WaitForPowerOnSteps(st: Status, i: Inputs)
    requires st.phase == PoweringOn
    ensures StandbyStep(st, WaitForPowerOn(st, i), i)
  {
  }

  lemma PowerUpSteps(st: Status, i: Inputs)
    ensures StandbyStep(st, PowerUp(st, i), i)
  {
    if st.phase == PoweringOn {
      WaitForPowerOnSteps(st, i);
    } else {
      RequestPowerOnSteps(st, i);
      assert StandbyStep(st, LiftCordonWhileBooting(st, i), i);
    }
  }

  lemma BootSteps(st: Status, event: BootEvent, i: Inputs)
    requires Boot(st, event, i).handled
    ensures StandbyStep(st, Boot(st, event, i).out, i)
  {
  }

  lemma ObserveSteps(st: Status, i: Inputs)
    ensures StandbyStep(st, Stay(Observe(st, i.now)), i)
  {
  }

  lemma HandleSteps(st: Status, event: BootEvent, i: Inputs)
    ensures StandbyStep(st, Handle(st, event, i), i)
  {
    if Boot(st, event, i).handled {
      BootSteps(st, event, i);
    } else if !i.nodeFound || st.inconsistent {
      ObserveSteps(st, i);
    } else {
      match ManagedTarget(i.config.policy, st, i.manualPolicy)
      case None => ObserveSteps(st, i);
      case Some(TurnOn) =>
        OnlineSteps(st, i);
        ReleaseSteps(st, i);
        PowerUpSteps(st, i);
      case Some(TurnOff) => EnsureOffSteps(st, i);
    }
  }

  lemma BeforeBootKeeps(before: Status, i: Inputs)
    requires Reads(i)
    ensures var st := BeforeBoot(before, i);
      && st.power == i.reading.value && st.nodeReady == i.nodeReady
      && st.notReadySince == before.notReadySince && st.standbyFailedAt == before.standbyFailedAt
  {
  }

  lemma TrackBootClock(st: Status, i: Inputs)
    ensures var o := TrackBoot(st, i.now, i.bootTimeout).0;
      && o.power == st.power && o.standbyFailedAt == st.standbyFailedAt
      && (st.nodeReady || st.power == ReadsOff ==> o.notReadySince.None?)
      && (st.power == ReadsUnknown && !st.nodeReady ==> o.notReadySince == st.notReadySince)
  {
  }

  lemma ChangeKeepsClock(st: Status, change: ManualChange, i: Inputs)
    ensures var o := AfterManualChange(st, change, i);
      o.power == st.power && o.standbyFailedAt == st.standbyFailedAt && o.notReadySince == st.notReadySince
  {
  }

  lemma ConcludedClock(before: Status, i: Inputs)
    requires Reads(i)
    ensures var st := Concluded(before, i).0;
      && st.power == i.reading.value && st.standbyFailedAt == before.standbyFailedAt
      && (i.nodeReady || st.power == ReadsOff ==> st.notReadySince.None?)
      && (st.power == ReadsUnknown && !i.nodeReady ==> st.notReadySince == before.notReadySince)
  {
    BeforeBootKeeps(before, i);
    TrackBootClock(BeforeBoot(before, i), i);
    ChangeKeepsClock(TrackBoot(BeforeBoot(before, i), i.now, i.bootTimeout).0, ChangeSeen(before, i), i);
  }

  lemma ReconcileSteps(before: Status, i: Inputs)
    requires Reads(i)
    ensures var o := Reconciled(before, i); var st := Concluded(before, i).0;
      && StandbyStep(st, o, i)
      && st.power == i.reading.value && st.standbyFailedAt == before.standbyFailedAt
      && (i.nodeReady || st.power == ReadsOff ==> st.notReadySince.None?)
      && (st.power == ReadsUnknown && !i.nodeReady ==> st.notReadySince == before.notReadySince)
  {
    ConcludedClock(before, i);
    HandleSteps(Concluded(before, i).0, Concluded(before, i).1, i);
  }

  // ----- whole runs -------------------------------------------------------------------------

  /** Phase Off is entered with the boot clock stopped, except by a power-on released on an Unknown
      reading: exactly then a clock that was running keeps running. */
  lemma OffStopsTheBootClock(before: Status, i: Inputs)
    requires Reads(i) && Reconciled(before, i).completed && Reconciled(before, i).st.phase == Off
    ensures Reconciled(before, i).st.notReadySince.Some?
      <==> i.reading == Some(ReadsUnknown) && !i.nodeReady && before.notReadySince.Some?
  {
    ReconcileSteps(before, i);
  }

  /** What a run keeps of standby, at clock `t`: Standby has a start, a machine in phase Off times no
      boot unless its power is not known, and the standby failure on record is no newer than `t`. */
  predicate StandbyKept(st: Status, t: Option<int>) {
    && (st.phase == Standby ==> st.standbySince.Some?)
    && (st.phase == Off && st.notReadySince.Some? ==> st.power == ReadsUnknown)
    && (st.standbyFailedAt.Some? ==> t.Some? && st.standbyFailedAt.value <= t.value)
  }

  lemma UnreadKeepsStandby(before: Status, t: Option<int>, i: Inputs)
    requires StandbyKept(before, t) && Later(t, i.now) && !Reads(i)
    ensures StandbyKept(Unread(before, i), Some(i.now))
  {
  }

  lemma ReadKeepsStandby(before: Status, t: Option<int>, i: Inputs)
    requires StandbyKept(before, t) && Later(t, i.now) && Reads(i) && Reconciled(before, i).completed
    ensures StandbyKept(Reconciled(before, i).st, Some(i.now))
  {
    ReconcileSteps(before, i);
  }

  lemma {:induction false} RunsKeepStandby(run: seq<Event>)
    requires Orderly(run)
    ensures StandbyKept(StatusAfter(run), LastTime(run))
  {
    if run != [] {
      var before, e, t := StatusAfter(Init(run)), Last(run), LastTime(Init(run));
      RunsKeepStandby(Init(run));
      if e.Reconcile? {
        if Reads(e.i) {
          if Reconciled(before, e.i).completed {
            ReadKeepsStandby(before, t, e.i);
          }
        } else {
          UnreadKeepsStandby(before, t, e.i);
        }
      }
    }
  }

  /** A standby failure, once recorded, is only ever replaced by a later one. */
  lemma {:induction false} StandbyFailuresOnlyGrow(run: seq<Event>, k: nat)
    requires Orderly(run) && k <= |run| && StatusAfter(run[..k]).standbyFailedAt.Some?
    ensures StatusAfter(run).standbyFailedAt.Some?
    ensures StatusAfter(run[..k]).standbyFailedAt.value <= StatusAfter(run).standbyFailedAt.value
  {
    if k == |run| {
      assert run[..k] == run;
    } else {
      var before, e := StatusAfter(Init(run)), Last(run);
      assert Init(run)[..k] == run[..k];
      StandbyFailuresOnlyGrow(Init(run), k);
      RunsKeepStandby(Init(run));
      if e.Reconcile? && Reads(e.i) {
        ReconcileSteps(before, e.i);
      }
    }
  }

  /** A suspend is never issued within 24 hours of any standby failure the run has recorded, and in
      mode `Auto` only if the probe of the running boot found S3. */
  lemma {:induction false} SuspendKeepsItsDistance(run: seq<Event>, k: nat)
    requires run != [] && Orderly(run) && k < |run| && Last(run).Reconcile?
    requires Issues(LastOutcome(run), SuspendHost)
    ensures var failed, i := StatusAfter(run[..k]).standbyFailedAt, Last(run).i;
      && (failed.Some? ==> NumSeconds(i.now - failed.value) >= 24 * 3600)
      && i.config.offMode != ShutDown
      && (i.config.offMode == SuspendIfS3 ==> ProbeFoundS3(Reconciled(StatusAfter(Init(run)), i).st, i))
  {
    var before, i := StatusAfter(Init(run)), Last(run).i;
    assert Reads(i);
    ReconcileSteps(before, i);
    assert Init(run)[..k] == run[..k];
    if StatusAfter(run[..k]).standbyFailedAt.Some? {
      StandbyFailuresOnlyGrow(Init(run), k);
      NumSecondsMonotone(i.now - before.standbyFailedAt.value, i.now - StatusAfter(run[..k]).standbyFailedAt.value);
    }
  }

  // ----- power-on attempts ------------------------------------------------------------------

  /** A power-on is asked for only while the attempt lasts. */
  predicate AttemptLasts(st: Status, i: Inputs) {
    st.decision.Some? && st.decision.value.target == TurnOn
    && NumSeconds(i.now - st.decision.value.time) <= i.powerOnTimeout
  }

  lemma PowerUpWhileAttemptLasts(st: Status, i: Inputs)
    requires i.config.policy == Auto && i.failurePolicy == Release && !st.nodeReady
    requires st.decision.Some? && st.decision.value.target == TurnOn
    requires Issues(EnsureOn(st, i), PowerOn)
    ensures AttemptLasts(st, i)
  {
    assert !Issues(Online(st, i), PowerOn) && !Issues(ReleaseFailedPowerOn(st, i), PowerOn);
    if st.power == ReadsOn && st.standbySince.None? {
      PoweredIsNotAsked(st, i);
    }
  }

  lemma PoweredIsNotAsked(st: Status, i: Inputs)
    requires st.power == ReadsOn && st.standbySince.None?
    ensures !Issues(PowerUp(st, i), PowerOn)
  {
  }

  lemma HandleWhileAttemptLasts(st: Status, event: BootEvent, i: Inputs)
    requires i.config.policy == Auto && i.failurePolicy == Release && !st.nodeReady
    requires Issues(Handle(st, event, i), PowerOn)
    ensures AttemptLasts(st, i)
  {
    assert !Boot(st, event, i).handled;
    match ManagedTarget(i.config.policy, st, i.manualPolicy)
    case None =>
    case Some(TurnOn) => PowerUpWhileAttemptLasts(st, i);
    case Some(TurnOff) => BootSafety.EnsureOffNeverPowersOn(st, i);
  }

  /** Power-on attempts are bounded: under `Auto` and `Release`, with the Node not Ready, every PowerOn
      request answers a stored On decision of a pool the machine belongs to, made no longer ago than
      the power-on timeout. */
  lemma PowerOnWithinTimeout(before: Status, i: Inputs)
    requires i.config.policy == Auto && i.failurePolicy == Release && !i.nodeReady
    requires Issues(Reconciled(before, i), PowerOn)
    ensures AttemptLasts(before, i) && before.decision.value.pool in i.pools
  {
    var (st, event) := Concluded(before, i);
    assert st.nodeReady == i.nodeReady;
    assert st.decision.None? || (st.decision == before.decision && st.decision.value.pool in i.pools);
    HandleWhileAttemptLasts(st, event, i);
  }

  // ----- power-on requests are spaced -------------------------------------------------------

  /** If that action was a PowerOn, it is at least 90 seconds ago. */
  predicate NotJustAsked(action: Option<ActionRecord>, now: int) {
    action.Some? && action.value.action == PowerOn ==> NumSeconds(now - action.value.time) >= 90
  }

  /** While the machine is asked to come up, or failed to be, it is asked again only after 90 seconds. */
  lemma AskedAgainLater(st: Status, event: BootEvent, i: Inputs)
    requires st.phase == PoweringOn || st.phase == Error
    requires Issues(Handle(st, event, i), PowerOn)
    ensures NotJustAsked(st.lastAction, i.now)
  {
    assert StepTable.Effects(st, event, i) == Handle(st, event, i).effects;
    if StepTable.WantsOn(st, event, i) {
      StepTable.ClimbingEffects(st, event, i);
    } else if StepTable.WantsOff(st, event, i) {
      StepTable.SinkingEffects(st, event, i);
    } else {
      StepTable.OtherEffects(st, event, i);
    }
  }

  lemma ReconcileAsksLater(before: Status, i: Inputs)
    requires before.phase == PoweringOn || before.phase == Error
    requires Issues(Reconciled(before, i), PowerOn)
    ensures NotJustAsked(before.lastAction, i.now)
  {
    ManualChanges.ConcludedKeepsAction(before, i);
    ManualChanges.ConcludedKeepsPhase(before, i);
    AskedAgainLater(Concluded(before, i).0, Concluded(before, i).1, i);
  }

  /** In every run: a PowerOn issued in phase PoweringOn or Error comes at least 90 seconds after the last
      action whose status was stored, if that was a PowerOn. */
  lemma {:induction false} RetriesAreSpaced(run: seq<Event>, i: Inputs)
    requires Issues(Reconciled(StatusAfter(run), i), PowerOn)
    requires StatusAfter(run).phase == PoweringOn || StatusAfter(run).phase == Error
    ensures var d := ManualChanges.LastStored(run); NotJustAsked(if d.Some? then Some(d.value.record) else None, i.now)
  {
    ManualChanges.RecordedActionExact(run);
    ReconcileAsksLater(StatusAfter(run), i);
  }
}
