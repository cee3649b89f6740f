/** Boot failures act only on the boot they belong to, over whole runs
    (`src/controller/node_power_management_config.rs`). */
module BootSafety {
  import opened Prelude
  import opened Clock
  import opened MachineStatus
  import opened MachineStep
  import opened MachineRuns

  // ----- what every reconcile does about power ----------------------------------------------

  /** A reconcile issues at most one power action or cordon change. */
  lemma AtMostOneEffect(st: Status, i: Inputs)
    ensures |Reconciled(st, i).effects| <= 1
  {
    if Reads(i) {
      HandlersDoOneThing(Concluded(st, i).0, Concluded(st, i).1, i);
    }
  }

  lemma HandlersDoOneThing(st: Status, event: BootEvent, i: Inputs)
    ensures |Handle(st, event, i).effects| <= 1
  {
  }

  lemma DrainLost(st: Status, i: Inputs)
    ensures !Drain(st, i).completed ==> Drain(st, i).effects == []
  {
    assert Drained(st, i).completed && StartPowerOff(st, i).completed;
  }

  lemma EnsureOffLost(st: Status, i: Inputs)
    ensures !EnsureOff(st, i).completed ==> EnsureOff(st, i).effects == []
  {
    var woken := WokeByItself(st, i.now);
    DrainLost(woken, i);
    assert WaitForPowerOff(woken, i).completed;
  }

  lemma PowerUpLost(st: Status, i: Inputs)
    ensures !PowerUp(st, i).completed ==> PowerUp(st, i).effects == []
  {
  }

  lemma EnsureOnLost(st: Status, i: Inputs)
    ensures !EnsureOn(st, i).completed ==> !ActsOnPower(EnsureOn(st, i))
  {
    PowerUpLost(st, i);
    assert ReleaseFailedPowerOn(st, i).completed && !ActsOnPower(Online(st, i));
  }

  lemma HandleLost(st: Status, event: BootEvent, i: Inputs)
    ensures !Handle(st, event, i).completed ==> !ActsOnPower(Handle(st, event, i))
  {
    assert Boot(st, event, i).out.completed;
    EnsureOffLost(st, i);
    EnsureOnLost(st, i);
  }

  /** A reconcile that breaks off at a failed call has issued no power action. */
  lemma BrokenOffIssuesNothing(st: Status, i: Inputs)
    requires !Reconciled(st, i).completed
    ensures !ActsOnPower(Reconciled(st, i))
  {
    HandleLost(Concluded(st, i).0, Concluded(st, i).1, i);
  }

  /** So a power action is forgotten only when storing the new status fails. */
  lemma OnlyAFailedStoreForgetsAnAction(st: Status, i: Inputs)
    requires !Next(st, Reconcile(i)).completed && ActsOnPower(Next(st, Reconcile(i)))
    ensures !i.storedOk && Reconciled(st, i).completed && Next(st, Reconcile(i)).st == st
  {
    if !Reconciled(st, i).completed {
      BrokenOffIssuesNothing(st, i);
    }
  }

  /** And then it is not known for ours: the machine that a pool woke from phase Off, seen on by the
      next reconcile, counts as powered on by hand exactly when the PowerOn was forgotten. */
  lemma ForgottenPowerOnLooksManual(st: Status, i: Inputs, later: Inputs)
    requires st.phase == Off && Issues(Reconciled(st, i), PowerOn)
    requires Reads(later) && later.reading == Some(ReadsOn)
    requires !AtMost(OnActionAge(st, later.now), later.bootTimeout)
    ensures ChangeSeen(Next(st, Reconcile(i)).st, later) == PoweredOn <==> !i.storedOk
  {
    PowerOnLeavesOff(st, i);
    if i.storedOk {
      SeenOnAfterRequest(Reconciled(st, i).st, later);
    } else {
      SeenOnFromOff(st, later);
    }
  }

  lemma SeenOnFromOff(st: Status, i: Inputs)
    requires st.phase == Off && Reads(i) && i.reading == Some(ReadsOn) && !AtMost(OnActionAge(st, i.now), i.bootTimeout)
    ensures ChangeSeen(st, i) == PoweredOn
  {
    assert WithReading(st, i).lastAction == st.lastAction;
  }

  lemma SeenOnAfterRequest(st: Status, i: Inputs)
    requires st.phase == PoweringOn || st.phase == Error
    requires Reads(i) && i.reading == Some(ReadsOn)
    ensures ChangeSeen(st, i) == NoChange
  {
  }

  lemma PowerOnLeavesOff(st: Status, i: Inputs)
    requires Issues(Reconciled(st, i), PowerOn)
    ensures Reconciled(st, i).completed
    ensures Reconciled(st, i).st.phase == PoweringOn || Reconciled(st, i).st.phase == Error
  {
    var (c, event) := Concluded(st, i);
    HandlePowersOn(c, event, i);
  }

  lemma HandlePowersOn(st: Status, event: BootEvent, i: Inputs)
    requires Issues(Handle(st, event, i), PowerOn)
    ensures var o := Handle(st, event, i); o.completed && (o.st.phase == PoweringOn || o.st.phase == Error)
  {
    assert !Boot(st, event, i).handled;
    assert !Issues(ReleaseFailedPowerOn(st, i), PowerOn) && !Issues(Online(st, i), PowerOn);
    EnsureOffNeverPowersOn(st, i);
    if Issues(PowerUp(st, i), PowerOn) {
      PowerUpPowersOn(st, i);
    }
  }

  lemma PowerUpPowersOn(st: Status, i: Inputs)
    requires Issues(PowerUp(st, i), PowerOn)
    ensures var o := PowerUp(st, i); o.completed && (o.st.phase == PoweringOn || o.st.phase == Error)
  {
  }

  lemma EnsureOffNeverPowersOn(st: Status, i: Inputs)
    ensures !Issues(EnsureOff(st, i), PowerOn)
  {
    var woken := WokeByItself(st, i.now);
    assert !Issues(WaitForPowerOff(woken, i), PowerOn);
    DrainNeverPowersOn(woken, i);
  }

  lemma DrainNeverPowersOn(st: Status, i: Inputs)
    ensures !Issues(Drain(st, i), PowerOn)
  {
  }

  /** The safety gates: without a power reading, or with one that contradicts a live Node, nothing is
      issued; without a Node only a boot failure can still be powered off. */
  lemma GatesBlockActions(st: Status, i: Inputs)
    requires Plausible(i) && ActsOnPower(Reconciled(st, i))
    ensures Reads(i) && !WithReading(st, i).inconsistent
    ensures !i.nodeFound ==> IssuesBy(Reconciled(st, i), ByBoot)
  {
  }

  // ----- a failure and the boot it belongs to -----------------------------------------------

  /** The reading shows that a boot is over: the machine off, or its Node Ready. */
  predicate EndsBoot(i: Inputs) {
    Reads(i) && (i.nodeReady || i.reading == Some(ReadsOff))
  }

  /** A completed reconcile after time `t` read the machine off or its Node Ready. */
  ghost predicate BootEndedAfter(run: seq<Event>, t: int) {
    run != [] &&
    (BootEndedAfter(Init(run), t) ||
     (Last(run).Reconcile? && LastOutcome(run).completed && Last(run).i.now > t && EndsBoot(Last(run).i)))
  }

  lemma {:induction false} NothingEndedAfterNow(run: seq<Event>, t: int)
    requires Orderly(run) && (LastTime(run).Some? ==> LastTime(run).value <= t)
    ensures !BootEndedAfter(run, t)
  {
    if run != [] {
      NothingEndedAfterNow(Init(run), t);
    }
  }

  /** How the recorded failure, the phase and the boot clock hang together; `ended` says that the
      boot of the failure is over. */
  predicate Consistent(st: Status, ended: bool) {
    st.bootFailure.Some? ==>
      var failedAt := st.bootFailure.value.time;
      && (st.phase == PoweringOn ==> st.phaseSince.Some? && st.phaseSince.value > failedAt)
      && (ended ==> st.phase != BootFailed && (st.notReadySince.None? || st.notReadySince.value > failedAt))
  }

  /** The same, on entry to the handlers: a boot that just ended may still be in phase BootFailed. */
  predicate ConsistentOnEntry(st: Status, ended: bool, now: int) {
    st.bootFailure.Some? ==>
      var failedAt := st.bootFailure.value.time;
      && failedAt < now
      && (st.phase == PoweringOn ==> st.phaseSince.Some? && st.phaseSince.value > failedAt)
      && (ended ==> (st.phase == BootFailed ==> st.power == ReadsOff && !st.nodeReady)
                    && (st.notReadySince.None? || st.notReadySince.value > failedAt))
  }

  /** `o` keeps the failure of `st`, has none, or has one recorded now. */
  predicate KeptOrNew(st: Status, ended: bool, o: Status, now: int) {
    o.bootFailure.Some? ==>
      if st.bootFailure.Some? && o.bootFailure.value.time == st.bootFailure.value.time then Consistent(o, ended)
      else o.bootFailure.value.time == now && Consistent(o, false)
  }

  /** Only the boot tracker and a released attempt touch these. */
  predicate SameBoot(o: Status, st: Status) {
    o.bootFailure == st.bootFailure && o.notReadySince == st.notReadySince
  }

  lemma StartPowerOffSameBoot(st: Status, i: Inputs)
    ensures var o := StartPowerOff(st, i).st; SameBoot(o, st) && o.phase == PoweringOff
  {
  }

  lemma DrainedSameBoot(st: Status, i: Inputs)
    ensures var o := Drained(st, i).st; SameBoot(o, st) && (o.phase == PoweringOff || o.phase == st.phase)
  {
    var probed := ProbeSleep(st, i).0;
    assert SameBoot(probed, st) && probed.phase == st.phase;
    StartPowerOffSameBoot(st, i);
    StartPowerOffSameBoot(probed, i);
  }

  lemma DrainTimedOutSameBoot(st: Status, i: Inputs)
    ensures var o := DrainTimedOut(st, i).st; SameBoot(o, st) && (o.phase == On || o.phase == st.phase)
  {
  }

  lemma DrainSameBoot(st: Status, i: Inputs)
    ensures var o := Drain(st, i).st; SameBoot(o, st) && (o.phase == PoweringOff || o.phase == On || o.phase == st.phase)
  {
    DrainedSameBoot(st, i);
    DrainTimedOutSameBoot(st, i);
    StartPowerOffSameBoot(st, i);
  }

  lemma WaitForPowerOffSameBoot(st: Status, i: Inputs)
    ensures var o := WaitForPowerOff(st, i).st; SameBoot(o, st) && o.phase == st.phase
  {
  }

  lemma EnsureOffSameBoot(st: Status, i: Inputs)
    requires i.nodeFound && EnsureOff(st, i).completed
    ensures var o := EnsureOff(st, i).st; SameBoot(o, st) && o.phase != PoweringOn && o.phase != BootFailed
  {
    var woken := WokeByItself(st, i.now);
    assert SameBoot(woken, st) && woken.phase == st.phase;
    if woken.phase == Draining {
      DrainSameBoot(woken, i);
    } else if woken.phase == PoweringOff {
      WaitForPowerOffSameBoot(woken, i);
    }
  }

  lemma OnlineSameBoot(st: Status, i: Inputs)
    ensures var o := Online(st, i); SameBoot(o.st, st) && (o.completed ==> o.st.phase == On)
  {
    var on := SetPhase(st, On, i.now).(forcedOffAt := None, standbySince := None);
    assert SameBoot(ProbeSleep(on, i).0, on) && ProbeSleep(on, i).0.phase == On;
  }

  lemma RequestPowerOnSameBoot(st: Status, i: Inputs)
    requires st.phase != PoweringOn
    ensures var o := RequestPowerOn(st, i).st;
      SameBoot(o, st) && (o.phase == Error || (o.phase == PoweringOn && o.phaseSince == Some(i.now)))
  {
  }

  lemma WaitForPowerOnSameBoot(st: Status, i: Inputs)
    ensures var o := WaitForPowerOn(st, i).st;
      SameBoot(o, st) && ((o.phase == st.phase && o.phaseSince == st.phaseSince) || o.phase == Error)
  {
  }

  /** Powering up leaves the boot alone; PoweringOn is kept, or entered now. */
  lemma PowerUpSameBoot(st: Status, i: Inputs)
    ensures var o := PowerUp(st, i).st;
      && SameBoot(o, st)
      && (o.phase == BootFailed ==> st.phase == BootFailed && !PowerUp(st, i).completed)
      && (o.phase == PoweringOn ==> o.phaseSince == if st.phase == PoweringOn then st.phaseSince else Some(i.now))
  {
    if st.phase == PoweringOn {
      WaitForPowerOnSameBoot(st, i);
    } else {
      RequestPowerOnSameBoot(st, i);
      assert SameBoot(LiftCordonWhileBooting(st, i).st, st);
    }
  }

  lemma ReleaseStartsAfresh(st: Status, i: Inputs)
    ensures var o := ReleaseFailedPowerOn(st, i).st;
      o.bootFailure == Some(BootFailure(i.now, false)) && o.phase != PoweringOn
  {
  }

  lemma EnsureOnKeeps(st: Status, ended: bool, i: Inputs)
    requires ConsistentOnEntry(st, ended, i.now) && EnsureOn(st, i).completed
    ensures KeptOrNew(st, ended, EnsureOn(st, i).st, i.now)
  {
    OnlineSameBoot(st, i);
    ReleaseStartsAfresh(st, i);
    PowerUpSameBoot(st, i);
  }

  lemma DriveKeeps(st: Status, ended: bool, i: Inputs)
    requires ConsistentOnEntry(st, ended, i.now) && Drive(st, i).completed
    ensures KeptOrNew(st, ended, Drive(st, i).st, i.now)
  {
    assert SameBoot(Observe(st, i.now), st);
    if i.nodeFound && !st.inconsistent {
      match ManagedTarget(i.config.policy, st, i.manualPolicy)
      case None =>
      case Some(TurnOn) => EnsureOnKeeps(st, ended, i);
      case Some(TurnOff) => EnsureOffSameBoot(st, i);
    }
  }

  lemma HandleKeeps(st: Status, event: BootEvent, ended: bool, i: Inputs)
    requires event == Failed ==> st.bootFailure.None? || st.bootFailure.value.time == i.now
    requires event != Failed ==> ConsistentOnEntry(st, ended, i.now)
    requires Handle(st, event, i).completed
    ensures var o := Handle(st, event, i).st;
      if event == Failed then o.bootFailure.Some? ==> o.bootFailure.value.time == i.now && Consistent(o, false)
      else KeptOrNew(st, ended, o, i.now)
  {
    if !Boot(st, event, i).handled {
      DriveKeeps(st, ended, i);
    }
  }

  /** Tracking and manual changes keep the old failure, clear it, or (on a failed boot) renew it. */
  lemma ConcludedKeeps(before: Status, ended: bool, i: Inputs)
    requires Reads(i) && Consistent(before, ended)
    requires before.bootFailure.Some? ==> before.bootFailure.value.time < i.now
    ensures var (st, event) := Concluded(before, i);
      if event == Failed then st.bootFailure.None? || st.bootFailure.value.time == i.now
      else (st.bootFailure.None? || st.bootFailure == before.bootFailure)
           && ConsistentOnEntry(st, ended || EndsBoot(i), i.now)
  {
    var st := BeforeBoot(before, i);
    assert st.bootFailure == before.bootFailure && st.notReadySince == before.notReadySince;
    assert st.phase == before.phase && st.phaseSince == before.phaseSince;
    assert st.power == i.reading.value && st.nodeReady == i.nodeReady;
    TrackBootKeeps(st, ended, i);
    var tracked := TrackBoot(st, i.now, i.bootTimeout).0;
    ManualChangeKeepsBoot(tracked, ChangeSeen(before, i), i);
  }

  lemma ManualChangeKeepsBoot(st: Status, change: ManualChange, i: Inputs)
    ensures var o := AfterManualChange(st, change, i);
      && (o.bootFailure.None? || o.bootFailure == st.bootFailure)
      && o.notReadySince == st.notReadySince && o.phase == st.phase && o.phaseSince == st.phaseSince
      && o.power == st.power && o.nodeReady == st.nodeReady
  {
  }

  lemma TrackBootKeeps(st: Status, ended: bool, i: Inputs)
    requires Reads(i) && Consistent(st, ended) && st.power == i.reading.value && st.nodeReady == i.nodeReady
    requires st.bootFailure.Some? ==> st.bootFailure.value.time < i.now
    ensures var (o, event) := TrackBoot(st, i.now, i.bootTimeout);
      if event == Failed then o.bootFailure == Some(BootFailure(i.now, false))
      else (o.bootFailure.None? || o.bootFailure == st.bootFailure)
           && ConsistentOnEntry(o, ended || EndsBoot(i), i.now)
  {
  }

  lemma ReconcileKeeps(before: Status, ended: bool, i: Inputs)
    requires Consistent(before, ended) && Reconciled(before, i).completed
    requires before.bootFailure.Some? ==> before.bootFailure.value.time < i.now
    ensures KeptOrNew(before, ended || EndsBoot(i), Reconciled(before, i).st, i.now)
  {
    if Reads(i) {
      ConcludedKeeps(before, ended, i);
      HandleKeeps(Concluded(before, i).0, Concluded(before, i).1, ended || EndsBoot(i), i);
    }
  }

  /** In every run, the failure on record is no newer than the clock, and once a reading ended its
      boot, neither the phase nor the boot clock can be mistaken for that boot's. */
  lemma {:induction false} RunsKeepConsistent(run: seq<Event>)
    requires Orderly(run)
    ensures var st := StatusAfter(run);
      st.bootFailure.Some? ==>
        && LastTime(run).Some? && st.bootFailure.value.time <= LastTime(run).value
        && Consistent(st, BootEndedAfter(run, st.bootFailure.value.time))
  {
    if run != [] {
      var st, e, o := StatusAfter(Init(run)), Last(run), LastOutcome(run);
      RunsKeepConsistent(Init(run));
      if e.Reconcile? && o.completed {
        var ended := st.bootFailure.Some? && BootEndedAfter(Init(run), st.bootFailure.value.time);
        ReconcileKeeps(st, ended, e.i);
        NothingEndedAfterNow(run, e.i.now);
      }
    }
  }

  predicate ClockBy(st: Status, now: int) { st.notReadySince.Some? ==> st.notReadySince.value <= now }

  lemma ReleaseSetsClock(st: Status, i: Inputs)
    ensures var o := ReleaseFailedPowerOn(st, i).st; o.notReadySince == st.notReadySince || o.notReadySince == Some(i.now)
  {
  }

  lemma EnsureOnKeepsClock(st: Status, i: Inputs)
    requires ClockBy(st, i.now)
    ensures ClockBy(EnsureOn(st, i).st, i.now)
  {
    if st.power == ReadsOn && st.nodeReady {
      OnlineSameBoot(st, i);
    } else if AttemptExpired(st, i.now, i.failurePolicy, i.powerOnTimeout) {
      ReleaseSetsClock(st, i);
    } else {
      PowerUpSameBoot(st, i);
    }
  }

  lemma DriveKeepsClock(st: Status, i: Inputs)
    requires ClockBy(st, i.now) && Drive(st, i).completed
    ensures ClockBy(Drive(st, i).st, i.now)
  {
    assert SameBoot(Observe(st, i.now), st);
    if i.nodeFound && !st.inconsistent {
      match ManagedTarget(i.config.policy, st, i.manualPolicy)
      case None =>
      case Some(TurnOn) => EnsureOnKeepsClock(st, i);
      case Some(TurnOff) => EnsureOffSameBoot(st, i);
    }
  }

  lemma HandleKeepsClock(st: Status, event: BootEvent, i: Inputs)
    requires ClockBy(st, i.now) && Handle(st, event, i).completed
    ensures ClockBy(Handle(st, event, i).st, i.now)
  {
    if Boot(st, event, i).handled {
      assert SameClock(Boot(st, event, i).out.st, st);
    } else {
      DriveKeepsClock(st, i);
    }
  }

  predicate SameClock(o: Status, st: Status) { o.notReadySince == st.notReadySince }

  lemma ConcludedKeepsClock(before: Status, i: Inputs)
    requires Reads(i) && ClockBy(before, i.now)
    ensures ClockBy(Concluded(before, i).0, i.now)
  {
    var st := BeforeBoot(before, i);
    assert SameClock(st, before);
    var tracked := TrackBoot(st, i.now, i.bootTimeout).0;
    assert ClockBy(tracked, i.now);
    ManualChangeKeepsBoot(tracked, ChangeSeen(before, i), i);
  }

  lemma ReconcileKeepsClock(before: Status, i: Inputs)
    requires ClockBy(before, i.now) && Reconciled(before, i).completed
    ensures ClockBy(Reconciled(before, i).st, i.now)
  {
    if Reads(i) {
      ConcludedKeepsClock(before, i);
      HandleKeepsClock(Concluded(before, i).0, Concluded(before, i).1, i);
    }
  }

  /** No boot is timed from the future. */
  lemma {:induction false} BootClockIsPast(run: seq<Event>)
    requires Orderly(run)
    ensures StatusAfter(run).notReadySince.Some? ==> LastTime(run).Some? && ClockBy(StatusAfter(run), LastTime(run).value)
  {
    if run != [] {
      var st, e := StatusAfter(Init(run)), Last(run);
      BootClockIsPast(Init(run));
      if e.Reconcile? && LastOutcome(run).completed {
        ReconcileKeepsClock(st, e.i);
      }
    }
  }

  /** A forced power-off by the boot handler acts on the failure on record, which is older than now,
      is not to be left on, and belongs to a boot that is still going on. */
  lemma BootForcesOnCurrentFailure(before: Status, i: Inputs)
    requires Issued(ForceOff, ByBoot) in Reconciled(before, i).effects
    ensures Reads(i) && i.reading == Some(ReadsOn) && !i.nodeReady
    ensures before.bootFailure.Some? && !before.bootFailure.value.leftOn
    ensures FailureIsCurrent(Concluded(before, i).0)
    ensures Concluded(before, i).0.bootFailure == before.bootFailure
  {
    var (st, event) := Concluded(before, i);
    BootForces(st, event, i);
    assert st.power == i.reading.value && st.nodeReady == i.nodeReady;
    TrackingKeepsFailure(before, i);
  }

  lemma TrackingKeepsFailure(before: Status, i: Inputs)
    requires Reads(i) && Concluded(before, i).1 == NoEvent
    ensures var failure := Concluded(before, i).0.bootFailure; failure.None? || failure == before.bootFailure
  {
    var st := BeforeBoot(before, i);
    assert st.bootFailure == before.bootFailure;
    var tracked := TrackBoot(st, i.now, i.bootTimeout);
    assert tracked.0.bootFailure.None? || tracked.0.bootFailure == st.bootFailure;
  }

  lemma BootForces(st: Status, event: BootEvent, i: Inputs)
    requires Issued(ForceOff, ByBoot) in Handle(st, event, i).effects
    ensures event == NoEvent && FailureIsCurrent(st) && !st.bootFailure.value.leftOn
    ensures st.power == ReadsOn && !st.nodeReady
  {
    if !Boot(st, event, i).handled {
      OnlyBootIssuesForBoot(st, i);
    }
  }

  lemma OnlyBootIssuesForBoot(st: Status, i: Inputs)
    ensures !IssuesBy(Drive(st, i), ByBoot)
  {
  }

  /** An old boot failure never acts on a later boot. Whenever, in any run from an untouched object,
      the boot handler cuts the power for a failure, no completed reconcile between the failure and
      now has read the machine off or its Node Ready. */
  lemma {:induction false} OldFailureNeverActs(run: seq<Event>)
    requires run != [] && Orderly(run) && Last(run).Reconcile?
    requires Issued(ForceOff, ByBoot) in LastOutcome(run).effects
    ensures var failure := StatusAfter(Init(run)).bootFailure;
      failure.Some? && failure.value.time < Last(run).i.now && !BootEndedAfter(run, failure.value.time)
  {
    var before, i := StatusAfter(Init(run)), Last(run).i;
    BootForcesOnCurrentFailure(before, i);
    RunsKeepConsistent(Init(run));
    ConcludedKeeps(before, BootEndedAfter(Init(run), before.bootFailure.value.time), i);
  }

  /** The reconcile at step `k` completed, later than `t`, and read the machine off or its Node Ready. */
  predicate EndedAt(run: seq<Event>, k: nat, t: int)
    requires k < |run|
  {
    run[k].Reconcile? && run[k].i.now > t && EndsBoot(run[k].i) && LastOutcome(run[..k + 1]).completed
  }

  lemma EndedEarlier(run: seq<Event>, k: nat, t: int)
    requires k < |run| - 1
    ensures EndedAt(Init(run), k, t) <==> EndedAt(run, k, t)
  {
    assert Init(run)[..k + 1] == run[..k + 1] && Init(run)[k] == run[k];
  }

  lemma EndedLast(run: seq<Event>, t: int)
    requires run != []
    ensures EndedAt(run, |run| - 1, t) <==>
      Last(run).Reconcile? && LastOutcome(run).completed && Last(run).i.now > t && EndsBoot(Last(run).i)
  {
    assert run[..|run|] == run;
  }

  /** What the history predicate means, step by step. */
  lemma {:induction false} BootEndedAfterExact(run: seq<Event>, t: int)
    ensures BootEndedAfter(run, t) <==> exists k :: 0 <= k < |run| && EndedAt(run, k, t)
  {
    if run != [] {
      BootEndedAfterExact(Init(run), t);
      EndedLast(run, t);
      forall k | 0 <= k < |run| - 1 ensures EndedAt(Init(run), k, t) <==> EndedAt(run, k, t) {
        EndedEarlier(run, k, t);
      }
    }
  }

  /** Step `k`, later than `t`, saw the boot over, whether or not it could record that. */
  predicate SawOverAt(run: seq<Event>, k: nat, t: int)
    requires k < |run|
  {
    run[k].Reconcile? && run[k].i.now > t && (run[k].i.nodeReady || EndsBoot(run[k].i))
  }

  /** The power could be read and the status stored. */
  predicate NoticedAt(run: seq<Event>, k: nat)
    requires k < |run| && run[k].Reconcile?
  {
    Reads(run[k].i) && LastOutcome(run[..k + 1]).completed
  }

  /** So the promise holds of a run, that no reconcile between a failure and the cut it causes saw the
      boot over, if and only if no reconcile in between saw that without noticing it. */
  lemma {:induction false} OldFailureExact(run: seq<Event>)
    requires run != [] && Orderly(run) && Last(run).Reconcile?
    requires Issued(ForceOff, ByBoot) in LastOutcome(run).effects
    ensures var failure := StatusAfter(Init(run)).bootFailure;
      failure.Some? &&
      ((forall k: nat | k < |run| :: !SawOverAt(run, k, failure.value.time)) <==>
       (forall k: nat | k < |run| && SawOverAt(run, k, failure.value.time) :: NoticedAt(run, k)))
  {
    OldFailureNeverActs(run);
    var t := StatusAfter(Init(run)).bootFailure.value.time;
    BootEndedAfterExact(run, t);
    forall k: nat | k < |run| && SawOverAt(run, k, t) ensures !NoticedAt(run, k) {
      assert !EndedAt(run, k, t);
    }
  }

  /** Only a completed reconcile with a power reading notices that a boot ended: a Node seen Ready while
      no interface can be read changes nothing, and the old failure is acted on once it is not Ready. */
  lemma UnreadReadinessIsNotNoticed(st: Status, ready: Inputs, later: Inputs)
    requires FailureIsCurrent(st) && !st.bootFailure.value.leftOn && st.phase == BootFailed && st.standbySince.None?
    requires ready.chainBuilt && ready.reading.None? && ready.nodeReady
    requires Reads(later) && later.reading == Some(ReadsOn) && !later.nodeReady && !ForcedLately(st, later.now)
    requires NumSeconds(later.now - st.bootFailure.value.time) > STANDBY_SETTLE_SECS
    ensures Issued(ForceOff, ByBoot) in Reconciled(Reconciled(st, ready).st, later).effects
  {
    StillFailedIsForced(Unread(st, ready), later);
  }

  lemma StillFailedIsForced(st: Status, i: Inputs)
    requires FailureIsCurrent(st) && !st.bootFailure.value.leftOn && st.phase == BootFailed && st.standbySince.None?
    requires Reads(i) && i.reading == Some(ReadsOn) && !i.nodeReady && !ForcedLately(st, i.now)
    requires NumSeconds(i.now - st.bootFailure.value.time) > STANDBY_SETTLE_SECS
    ensures Reconciled(st, i).effects == [Issued(ForceOff, ByBoot)]
  {
    assert ChangeSeen(st, i) == NoChange;
    var c, event := Concluded(st, i).0, Concluded(st, i).1;
    assert event == NoEvent && FailureIsCurrent(c) && c.bootFailure == st.bootFailure && c.forcedOffAt == st.forcedOffAt;
  }
}
