/** Manual overrides, `AlwaysOn` and `AlwaysOff`: what they protect a machine from, whatever its
    status when they begin (`src/controller/node_power_management_config.rs`). */
module OverrideSafety {
  import opened Prelude
  import opened Clock
  import opened MachineStatus
  import opened MachineStep
  import opened MachineRuns
  import opened BootSafety

  // ----- the status an override begins with -------------------------------------------------

  predicate NotAfter(t: Option<int>, limit: int) { t.Some? && t.value <= limit }

  /** A failure that is not to be left on, and that the boot now timed, or the one that would be
      timed next, would be taken for. */
  predicate FailureActs(st: Status) {
    st.bootFailure.Some? && !st.bootFailure.value.leftOn &&
    var failedAt := st.bootFailure.value.time;
    || NotAfter(st.notReadySince, failedAt)
    || (st.phase == PoweringOn && NotAfter(st.phaseSince, failedAt))
    || (st.phase == BootFailed && st.notReadySince.None? && NotAfter(st.phaseSince, failedAt))
  }

  predicate HoldsOnDecision(st: Status) {
    st.decision.Some? && st.decision.value.target == TurnOn
  }

  /** Whether every pool of the machine has the failure policy `p` (None: whichever each has). */
  predicate Fixed(p: Option<FailurePolicy>, i: Inputs) { p.None? || i.failurePolicy == p.value }

  /** An On decision that can expire: under `Retry` none does. */
  predicate MayExpire(st: Status, p: Option<FailurePolicy>) { HoldsOnDecision(st) && p != Some(Retry) }

  /** Nothing in the status makes the operator give a boot or a power-on up. */
  predicate Unprovoked(st: Status, p: Option<FailurePolicy>) { !FailureActs(st) && !MayExpire(st, p) }

  /** What the operator has recorded about a failure lies in the past. */
  predicate Settled(st: Status, t: int) { st.bootFailure.Some? ==> st.bootFailure.value.time <= t }

  // ----- runs under an override -------------------------------------------------------------

  predicate OverrideEvent(e: Event, p: Option<FailurePolicy>) {
    match e
    case Reconcile(i) => i.config.policy != Auto && Plausible(i) && Fixed(p, i)
    case Decide(_) => false
    case ForgetManual => true
  }

  /** The machine is under an override throughout, from time `t` on, and the clock increases. No pool
      stores a decision on such a machine. */
  predicate Overridden(t: int, run: seq<Event>, p: Option<FailurePolicy>) {
    run == [] ||
    (Overridden(t, Init(run), p) && OverrideEvent(Last(run), p)
     && (Last(run).Reconcile? ==> Last(run).i.now > TimeFrom(t, Init(run))))
  }

  // ----- boots under an override ------------------------------------------------------------

  /** On entry to the handlers: as above, but a machine read off may still be in phase BootFailed. */
  predicate UnprovokedOnEntry(st: Status, p: Option<FailurePolicy>) {
    && !MayExpire(st, p)
    && (st.bootFailure.Some? && !st.bootFailure.value.leftOn ==>
          var failedAt := st.bootFailure.value.time;
          && !NotAfter(st.notReadySince, failedAt)
          && (st.phase == PoweringOn ==> !NotAfter(st.phaseSince, failedAt)))
  }

  lemma TrackBootStaysUnprovoked(st: Status, i: Inputs, p: Option<FailurePolicy>)
    requires Unprovoked(st, p) && (st.bootFailure.Some? ==> st.bootFailure.value.time < i.now)
    ensures var (o, event) := TrackBoot(st, i.now, i.bootTimeout);
      && !MayExpire(o, p)
      && (event == Failed ==> o.bootFailure == Some(BootFailure(i.now, false)))
      && (event != Failed ==> UnprovokedOnEntry(o, p) && (o.bootFailure.None? || o.bootFailure == st.bootFailure))
  {
  }

  lemma BeforeBootUnprovoked(before: Status, i: Inputs, p: Option<FailurePolicy>)
    requires Reads(i) && Unprovoked(before, p)
    ensures var st := BeforeBoot(before, i); Unprovoked(st, p) && st.bootFailure == before.bootFailure
  {
  }

  lemma ManualChangeUnprovoked(st: Status, change: ManualChange, i: Inputs, p: Option<FailurePolicy>)
    requires !MayExpire(st, p)
    ensures var o := AfterManualChange(st, change, i);
      && !MayExpire(o, p)
      && (o.bootFailure.None? || o.bootFailure == st.bootFailure)
      && (UnprovokedOnEntry(st, p) ==> UnprovokedOnEntry(o, p))
  {
  }

  lemma ConcludedUnprovoked(before: Status, i: Inputs, p: Option<FailurePolicy>)
    requires Reads(i) && Unprovoked(before, p) && (before.bootFailure.Some? ==> before.bootFailure.value.time < i.now)
    ensures var (st, event) := Concluded(before, i);
      && !MayExpire(st, p)
      && (event == Failed ==> st.bootFailure.None? || st.bootFailure == Some(BootFailure(i.now, false)))
      && (event != Failed ==> UnprovokedOnEntry(st, p) && (st.bootFailure.None? || st.bootFailure == before.bootFailure))
  {
    var st := BeforeBoot(before, i);
    assert Unprovoked(st, p) && st.bootFailure == before.bootFailure by { BeforeBootUnprovoked(before, i, p); }
    var tracked := TrackBoot(st, i.now, i.bootTimeout);
    TrackBootStaysUnprovoked(st, i, p);
    ManualChangeUnprovoked(tracked.0, ChangeSeen(before, i), i, p);
    assert Concluded(before, i) == (AfterManualChange(tracked.0, ChangeSeen(before, i), i), tracked.1);
  }

  /** What the state machine leaves of a status that provokes nothing. */
  predicate DrivenOn(st: Status, o: Status, now: int) {
    && SameBoot(o, st) && o.decision == st.decision
    && o.phase != BootFailed
    && (o.phase == PoweringOn ==> o.phaseSince == if st.phase == PoweringOn then st.phaseSince else Some(now))
  }

  lemma DrivenIsUnprovoked(st: Status, o: Status, now: int, p: Option<FailurePolicy>)
    requires UnprovokedOnEntry(st, p) && DrivenOn(st, o, now)
    requires st.bootFailure.Some? ==> st.bootFailure.value.time < now
    ensures Unprovoked(o, p)
  {
  }

  lemma EnsureOnDrives(st: Status, i: Inputs, p: Option<FailurePolicy>)
    requires !MayExpire(st, p) && Fixed(p, i)
    ensures !IssuesBy(EnsureOn(st, i), ByRelease) && !IssuesBy(EnsureOn(st, i), ByBoot)
    ensures EnsureOn(st, i).completed ==> DrivenOn(st, EnsureOn(st, i).st, i.now)
  {
    OnlineSameBoot(st, i);
    OnlineKeepsDecision(st, i);
    PowerUpSameBoot(st, i);
    PowerUpKeepsDecision(st, i);
    PowerUpIsNeitherOfThese(st, i);
  }

  lemma OnlineKeepsDecision(st: Status, i: Inputs)
    ensures Online(st, i).st.decision == st.decision
    ensures !IssuesBy(Online(st, i), ByRelease) && !IssuesBy(Online(st, i), ByBoot)
  {
    var on := SetPhase(st, On, i.now).(forcedOffAt := None, standbySince := None);
    assert ProbeSleep(on, i).0.decision == st.decision;
  }

  lemma PowerUpKeepsDecision(st: Status, i: Inputs)
    ensures PowerUp(st, i).st.decision == st.decision
  {
  }

  lemma PowerUpIsNeitherOfThese(st: Status, i: Inputs)
    ensures !IssuesBy(PowerUp(st, i), ByRelease) && !IssuesBy(PowerUp(st, i), ByBoot)
  {
  }

  lemma StartPowerOffKeepsDecision(st: Status, i: Inputs)
    ensures StartPowerOff(st, i).st.decision == st.decision
  {
  }

  lemma DrainedKeepsDecision(st: Status, i: Inputs)
    ensures Drained(st, i).st.decision == st.decision
  {
    var probed := ProbeSleep(st, i).0;
    assert probed.decision == st.decision;
    StartPowerOffKeepsDecision(st, i);
    StartPowerOffKeepsDecision(probed, i);
  }

  lemma DrainKeepsDecision(st: Status, i: Inputs)
    requires i.config.policy != Auto
    ensures Drain(st, i).st.decision == st.decision
  {
    DrainedKeepsDecision(st, i);
    StartPowerOffKeepsDecision(st, i);
  }

  lemma WaitForPowerOffKeepsDecision(st: Status, i: Inputs)
    ensures WaitForPowerOff(st, i).st.decision == st.decision
  {
  }

  lemma EnsureOffDrives(st: Status, i: Inputs)
    requires i.nodeFound && i.config.policy != Auto
    ensures EnsureOff(st, i).completed ==> DrivenOn(st, EnsureOff(st, i).st, i.now)
  {
    var woken := WokeByItself(st, i.now);
    assert woken.decision == st.decision && woken.phase == st.phase;
    WaitForPowerOffKeepsDecision(woken, i);
    DrainKeepsDecision(woken, i);
    if EnsureOff(st, i).completed {
      EnsureOffSameBoot(st, i);
    }
  }

  lemma EnsureOffIsNeitherOfThese(st: Status, i: Inputs)
    ensures !IssuesBy(EnsureOff(st, i), ByRelease) && !IssuesBy(EnsureOff(st, i), ByBoot)
  {
    var woken := WokeByItself(st, i.now);
    DrainIsNeitherOfThese(woken, i);
    assert !IssuesBy(WaitForPowerOff(woken, i), ByRelease) && !IssuesBy(WaitForPowerOff(woken, i), ByBoot);
  }

  lemma DrainIsNeitherOfThese(st: Status, i: Inputs)
    ensures !IssuesBy(Drain(st, i), ByRelease) && !IssuesBy(Drain(st, i), ByBoot)
  {
  }

  lemma DriveUnprovoked(st: Status, i: Inputs, p: Option<FailurePolicy>)
    requires i.config.policy != Auto && Fixed(p, i) && UnprovokedOnEntry(st, p)
    requires st.bootFailure.Some? ==> st.bootFailure.value.time < i.now
    ensures !IssuesBy(Drive(st, i), ByRelease) && !IssuesBy(Drive(st, i), ByBoot)
    ensures Drive(st, i).completed ==> Unprovoked(Drive(st, i).st, p) && Drive(st, i).st.bootFailure == st.bootFailure
  {
    if !i.nodeFound || st.inconsistent {
      ObserveDrives(st, i.now);
      DrivenIsUnprovoked(st, Observe(st, i.now), i.now, p);
    } else if i.config.policy == AlwaysOn {
      EnsureOnDrives(st, i, p);
      if EnsureOn(st, i).completed {
        DrivenIsUnprovoked(st, EnsureOn(st, i).st, i.now, p);
      }
    } else {
      EnsureOffDrives(st, i);
      EnsureOffIsNeitherOfThese(st, i);
      if EnsureOff(st, i).completed {
        DrivenIsUnprovoked(st, EnsureOff(st, i).st, i.now, p);
      }
    }
  }

  lemma ObserveDrives(st: Status, now: int)
    ensures DrivenOn(st, Observe(st, now), now)
  {
  }

  lemma HandleUnprovoked(st: Status, event: BootEvent, i: Inputs, p: Option<FailurePolicy>)
    requires i.config.policy != Auto && Fixed(p, i)
    requires event == Failed ==> !MayExpire(st, p)
    requires event == Failed ==> st.bootFailure.None? || st.bootFailure == Some(BootFailure(i.now, false))
    requires event != Failed ==> UnprovokedOnEntry(st, p) && (st.bootFailure.Some? ==> st.bootFailure.value.time < i.now)
    ensures var o := Handle(st, event, i);
      && !IssuesBy(o, ByBoot) && !IssuesBy(o, ByRelease)
      && (o.completed ==> Unprovoked(o.st, p) && Settled(o.st, i.now))
  {
    if !Boot(st, event, i).handled {
      DriveUnprovoked(st, i, p);
    }
  }

  /** One event under an override. */
  lemma OverrideStep(st: Status, t: int, e: Event, p: Option<FailurePolicy>)
    requires Unprovoked(st, p) && Settled(st, t) && OverrideEvent(e, p) && (e.Reconcile? ==> e.i.now > t)
    ensures var o := Next(st, e);
      && !IssuesBy(o, ByBoot) && !IssuesBy(o, ByRelease)
      && Unprovoked(o.st, p) && Settled(o.st, TimeAfter(t, e))
  {
    if e.Reconcile? && Reads(e.i) {
      ConcludedUnprovoked(st, e.i, p);
      HandleUnprovoked(Concluded(st, e.i).0, Concluded(st, e.i).1, e.i, p);
    }
  }

  /** Under an override, however it switches, no machine is powered off for a boot failure or given up
      for a power-on that did not arrive, if nothing in the status it began with provokes that. */
  lemma {:induction false} OverrideIsNeverOverruled(st: Status, t: int, run: seq<Event>, p: Option<FailurePolicy>)
    requires Unprovoked(st, p) && Settled(st, t) && Overridden(t, run, p)
    ensures Unprovoked(StatusFrom(st, run), p) && Settled(StatusFrom(st, run), TimeFrom(t, run))
    ensures run != [] ==>
      var o := Next(StatusFrom(st, Init(run)), Last(run)); !IssuesBy(o, ByBoot) && !IssuesBy(o, ByRelease)
  {
    if run != [] {
      OverrideIsNeverOverruled(st, t, Init(run), p);
      OverrideStep(StatusFrom(st, Init(run)), TimeFrom(t, Init(run)), Last(run), p);
    }
  }

  // ----- a machine kept on ------------------------------------------------------------------

  /** The power of the machine is cut, or asked to be. */
  predicate CutsPower(o: Outcome) {
    Issues(o, PowerOff) || Issues(o, ForceOff) || Issues(o, SuspendHost)
  }

  predicate AlwaysOnEvent(e: Event, p: Option<FailurePolicy>) {
    OverrideEvent(e, p) && (e.Reconcile? ==> e.i.config.policy == AlwaysOn)
  }

  /** `AlwaysOn` throughout. */
  predicate KeptAlwaysOn(t: int, run: seq<Event>, p: Option<FailurePolicy>) {
    Overridden(t, run, p) && forall e <- run :: AlwaysOnEvent(e, p)
  }

  /** The status gives no reason to cut the power: no failure that would act, no On decision that
      could expire, and no standby the machine might not wake from. */
  predicate StaysOn(st: Status, p: Option<FailurePolicy>) { Unprovoked(st, p) && st.standbySince.None? }

  lemma PowerUpNeverCuts(st: Status, i: Inputs)
    requires st.standbySince.None?
    ensures !CutsPower(PowerUp(st, i)) && PowerUp(st, i).st.standbySince.None?
  {
  }

  lemma OnlineNeverCuts(st: Status, i: Inputs)
    requires st.standbySince.None?
    ensures !CutsPower(Online(st, i)) && Online(st, i).st.standbySince.None?
  {
    var on := SetPhase(st, On, i.now).(forcedOffAt := None, standbySince := None);
    assert ProbeSleep(on, i).0.standbySince.None?;
  }

  lemma EnsureOnNeverCuts(st: Status, i: Inputs, p: Option<FailurePolicy>)
    requires st.standbySince.None? && !MayExpire(st, p) && Fixed(p, i)
    ensures !CutsPower(EnsureOn(st, i)) && EnsureOn(st, i).st.standbySince.None?
  {
    PowerUpNeverCuts(st, i);
    OnlineNeverCuts(st, i);
  }

  lemma DriveNeverCuts(st: Status, i: Inputs, p: Option<FailurePolicy>)
    requires i.config.policy == AlwaysOn && Fixed(p, i) && st.standbySince.None? && !MayExpire(st, p)
    ensures !CutsPower(Drive(st, i)) && Drive(st, i).st.standbySince.None?
  {
    EnsureOnNeverCuts(st, i, p);
    assert Observe(st, i.now).standbySince.None?;
  }

  lemma BootNeverCuts(st: Status, event: BootEvent, i: Inputs, p: Option<FailurePolicy>)
    requires i.config.policy == AlwaysOn && st.standbySince.None?
    requires event != Failed ==> UnprovokedOnEntry(st, p)
    ensures var o := Boot(st, event, i).out; !CutsPower(o) && o.st.standbySince.None?
  {
  }

  lemma HandleNeverCuts(st: Status, event: BootEvent, i: Inputs, p: Option<FailurePolicy>)
    requires i.config.policy == AlwaysOn && Fixed(p, i) && st.standbySince.None? && !MayExpire(st, p)
    requires event != Failed ==> UnprovokedOnEntry(st, p)
    ensures !CutsPower(Handle(st, event, i)) && Handle(st, event, i).st.standbySince.None?
  {
    BootNeverCuts(st, event, i, p);
    DriveNeverCuts(st, i, p);
  }

  lemma ConcludedKeepsStandby(before: Status, i: Inputs)
    requires Reads(i) && before.standbySince.None?
    ensures Concluded(before, i).0.standbySince.None?
  {
  }

  lemma AlwaysOnStep(st: Status, t: int, e: Event, p: Option<FailurePolicy>)
    requires StaysOn(st, p) && Settled(st, t) && AlwaysOnEvent(e, p) && (e.Reconcile? ==> e.i.now > t)
    ensures !CutsPower(Next(st, e)) && StaysOn(Next(st, e).st, p) && Settled(Next(st, e).st, TimeAfter(t, e))
  {
    OverrideStep(st, t, e, p);
    if e.Reconcile? && Reads(e.i) {
      ConcludedUnprovoked(st, e.i, p);
      ConcludedKeepsStandby(st, e.i);
      HandleNeverCuts(Concluded(st, e.i).0, Concluded(st, e.i).1, e.i, p);
    }
  }

  lemma KeptInit(t: int, run: seq<Event>, p: Option<FailurePolicy>)
    requires run != [] && KeptAlwaysOn(t, run, p)
    ensures KeptAlwaysOn(t, Init(run), p) && AlwaysOnEvent(Last(run), p)
  {
    assert Last(run) in run && forall e <- Init(run) :: e in run;
  }

  lemma {:induction false} StaysOnForGood(st: Status, t: int, run: seq<Event>, p: Option<FailurePolicy>)
    requires StaysOn(st, p) && Settled(st, t) && KeptAlwaysOn(t, run, p)
    ensures StaysOn(StatusFrom(st, run), p) && Settled(StatusFrom(st, run), TimeFrom(t, run))
    ensures run != [] ==> !CutsPower(Next(StatusFrom(st, Init(run)), Last(run)))
  {
    if run != [] {
      KeptInit(t, run, p);
      StaysOnForGood(st, t, Init(run), p);
      AlwaysOnStep(StatusFrom(st, Init(run)), TimeFrom(t, Init(run)), Last(run), p);
    }
  }

  // ----- and every other status leads to a cut ----------------------------------------------

  /** A run under `AlwaysOn` whose last event cuts the power. */
  predicate Cut(st: Status, t: int, run: seq<Event>, p: Option<FailurePolicy>) {
    run != [] && KeptAlwaysOn(t, run, p) && CutsPower(Next(StatusFrom(st, Init(run)), Last(run)))
  }

  function Latest(a: int, b: Option<int>): int { if b.Some? && b.value > a then b.value else a }

  /** A time long after everything the status records. */
  function LongAfter(st: Status, t: int): int {
    var action := if st.lastAction.Some? then Some(st.lastAction.value.time) else None;
    var failed := if st.bootFailure.Some? then Some(st.bootFailure.value.time) else None;
    var decided := if st.decision.Some? then Some(st.decision.value.time) else None;
    var stamped := Latest(Latest(Latest(t, st.phaseSince), st.notReadySince), st.forcedOffAt);
    Latest(Latest(Latest(stamped, action), failed), decided) + Seconds(1000)
  }

  /** A timeout the attempt has not passed by then. */
  function Unhurried(st: Status, t: int): int {
    if st.decision.Some? then NumSeconds(LongAfter(st, t) - st.decision.value.time) else 0
  }

  /** A Node that is not Ready, and an attempt nobody gives up, long after the status was written. */
  function Afterwards(st: Status, t: int, reading: PowerState, bootTimeout: int, p: Option<FailurePolicy>): Inputs {
    Inputs(LongAfter(st, t), Config(AlwaysOn, ShutDown, 300, 300, false), true, false,
           if st.decision.Some? then [st.decision.value.pool] else [], true, Some(reading), None, None, Pending, [],
           LeaveOn, bootTimeout, p.GetOr(Retry), Unhurried(st, t), true, true, true, true)
  }

  predicate AlwaysOnAt(i: Inputs, t: int, p: Option<FailurePolicy>) {
    i.config.policy == AlwaysOn && Plausible(i) && Fixed(p, i) && i.now > t
  }

  lemma {:induction false} KeptOnce(t: int, e: Event, p: Option<FailurePolicy>)
    requires e.Reconcile? && AlwaysOnAt(e.i, t, p)
    ensures Init([e]) == [] && KeptAlwaysOn(t, [e], p) && TimeFrom(t, [e]) == e.i.now
  {
    var none: seq<Event> := [];
    assert Init([e]) == none && Overridden(t, none, p) && TimeFrom(t, none) == t;
  }

  lemma CutAtOnce(st: Status, t: int, i: Inputs, p: Option<FailurePolicy>)
    requires AlwaysOnAt(i, t, p) && CutsPower(Reconciled(st, i))
    ensures Cut(st, t, [Reconcile(i)], p)
  {
    KeptOnce(t, Reconcile(i), p);
  }

  lemma {:induction false} KeptLater(t: int, e: Event, rest: seq<Event>, p: Option<FailurePolicy>)
    requires e.Reconcile? && AlwaysOnAt(e.i, t, p) && KeptAlwaysOn(e.i.now, rest, p)
    ensures KeptAlwaysOn(t, [e] + rest, p) && TimeFrom(t, [e] + rest) == TimeFrom(e.i.now, rest)
  {
    if rest == [] {
      assert [e] + rest == [e];
      KeptOnce(t, e, p);
    } else {
      KeptInit(e.i.now, rest, p);
      KeptLater(t, e, Init(rest), p);
      assert Init([e] + rest) == [e] + Init(rest);
    }
  }

  lemma {:induction false} CutAfter(st: Status, t: int, e: Event, rest: seq<Event>, p: Option<FailurePolicy>)
    requires rest != [] && KeptAlwaysOn(t, [e] + rest, p)
    requires CutsPower(Next(StatusFrom(Next(st, e).st, Init(rest)), Last(rest)))
    ensures Cut(st, t, [e] + rest, p)
  {
    assert Init([e] + rest) == [e] + Init(rest);
    FirstEvent(st, e, Init(rest));
  }

  lemma CutLater(st: Status, t: int, i: Inputs, rest: seq<Event>, p: Option<FailurePolicy>)
    requires AlwaysOnAt(i, t, p) && Cut(Next(st, Reconcile(i)).st, i.now, rest, p)
    ensures Cut(st, t, [Reconcile(i)] + rest, p)
  {
    KeptLater(t, Reconcile(i), rest, p);
    CutAfter(st, t, Reconcile(i), rest, p);
  }

  /** The status as the handlers see it when nothing can be told about the power. */
  function Unseen(st: Status, i: Inputs): Status {
    st.(nodeReady := false, pools := i.pools, power := ReadsUnknown, inconsistent := false)
  }

  lemma UnseenIsPoweredUp(st: Status, t: int, bootTimeout: int, p: Option<FailurePolicy>)
    ensures var i := Afterwards(st, t, ReadsUnknown, bootTimeout, p);
      AlwaysOnAt(i, t, p) && Reconciled(st, i) == PowerUp(Unseen(st, i), i)
  {
    var i := Afterwards(st, t, ReadsUnknown, bootTimeout, p);
    assert Concluded(st, i) == (Unseen(st, i), NoEvent);
  }

  lemma UnseenWait(st: Status, t: int, bootTimeout: int, p: Option<FailurePolicy>)
    requires st.phase != PoweringOn
    ensures var i := Afterwards(st, t, ReadsUnknown, bootTimeout, p);
      Reconciled(st, i) == RequestPowerOn(Unseen(st, i), i)
  {
    UnseenIsPoweredUp(st, t, bootTimeout, p);
  }

  /** Asked to power on, and not seen to do so. */
  lemma UnseenRequest(st: Status, t: int, bootTimeout: int, p: Option<FailurePolicy>)
    requires st.phase != PoweringOn
    ensures var i := Afterwards(st, t, ReadsUnknown, bootTimeout, p); var o := Next(st, Reconcile(i)).st;
      && o.phase == PoweringOn && o.phaseSince == Some(i.now) && o.standbySince == st.standbySince
      && o.notReadySince == st.notReadySince && o.bootFailure == st.bootFailure && o.decision == st.decision
  {
    UnseenWait(st, t, bootTimeout, p);
  }

  /** A machine in standby that does not wake is cut off for a cold boot. */
  lemma WakingIsCut(st: Status, t: int, p: Option<FailurePolicy>) returns (run: seq<Event>)
    requires st.standbySince.Some?
    ensures Cut(st, t, run, p)
  {
    if st.phase == PoweringOn {
      run := WakingIsCutNow(st, t, p);
    } else {
      var i := Afterwards(st, t, ReadsUnknown, 0, p);
      UnseenIsPoweredUp(st, t, 0, p);
      UnseenRequest(st, t, 0, p);
      var rest := WakingIsCutNow(Next(st, Reconcile(i)).st, i.now, p);
      CutLater(st, t, i, rest, p);
      run := [Reconcile(i)] + rest;
    }
  }

  lemma WakingIsCutNow(st: Status, t: int, p: Option<FailurePolicy>) returns (run: seq<Event>)
    requires st.standbySince.Some? && st.phase == PoweringOn
    ensures Cut(st, t, run, p)
  {
    var i := Afterwards(st, t, ReadsUnknown, 0, p);
    UnseenIsPoweredUp(st, t, 0, p);
    assert PowerUp(Unseen(st, i), i).effects[0] == Issued(ForceOff, ByEnsureOn);
    CutAtOnce(st, t, i, p);
    run := [Reconcile(i)];
  }

  /** The failure is taken for that of the boot as soon as the machine is read on. */
  predicate ActsOnSight(st: Status) {
    && st.bootFailure.Some? && !st.bootFailure.value.leftOn && st.standbySince.None? && st.phase != Off
    && (NotAfter(st.notReadySince, st.bootFailure.value.time)
        || (st.notReadySince.None? && (st.phase == PoweringOn || st.phase == BootFailed)
            && NotAfter(st.phaseSince, st.bootFailure.value.time)))
  }

  lemma SeenOn(st: Status, t: int, p: Option<FailurePolicy>)
    requires ActsOnSight(st)
    ensures var i := Afterwards(st, t, ReadsOn, 0, p); var (c, event) := Concluded(st, i);
      && event == NoEvent && c.bootFailure == st.bootFailure && c.forcedOffAt == st.forcedOffAt
      && c.power == ReadsOn && !c.nodeReady && FailureIsCurrent(c)
  {
    var i := Afterwards(st, t, ReadsOn, 0, p);
    assert ChangeSeen(st, i) == NoChange;
  }

  lemma SightIsCut(st: Status, t: int, p: Option<FailurePolicy>) returns (run: seq<Event>)
    requires ActsOnSight(st)
    ensures Cut(st, t, run, p)
  {
    var i := Afterwards(st, t, ReadsOn, 0, p);
    SeenOn(st, t, p);
    var (c, event) := Concluded(st, i);
    assert Handle(c, event, i).effects == [Issued(ForceOff, ByBoot)];
    assert Reconciled(st, i).effects[0] == Issued(ForceOff, ByBoot);
    CutAtOnce(st, t, i, p);
    run := [Reconcile(i)];
  }

  /** Waiting for a power-on, the machine is read off: the boot clock stops, the phase stays. */
  lemma SeenOff(st: Status, t: int, p: Option<FailurePolicy>)
    requires st.phase == PoweringOn && st.standbySince.None? && st.bootFailure.Some? && !st.bootFailure.value.leftOn
    ensures var i := Afterwards(st, t, ReadsOff, 0, p); var (c, event) := Concluded(st, i);
      && event == NoEvent && c.phase == PoweringOn && c.phaseSince == st.phaseSince && c.standbySince.None?
      && c.notReadySince.None? && c.bootFailure == st.bootFailure && c.power == ReadsOff && !c.inconsistent && !c.nodeReady
  {
    var i := Afterwards(st, t, ReadsOff, 0, p);
    assert ChangeSeen(st, i) != PoweredOn;
  }

  lemma OffIsWaitedFor(c: Status, i: Inputs)
    requires c.phase == PoweringOn && c.standbySince.None? && c.power == ReadsOff && !c.inconsistent && !c.nodeReady
    requires i.config.policy == AlwaysOn && i.nodeFound
    requires !AttemptExpired(c, i.now, i.failurePolicy, i.powerOnTimeout)
    ensures var o := Handle(c, NoEvent, i);
      && o.completed && o.st.phase == PoweringOn && o.st.phaseSince == c.phaseSince && o.st.standbySince.None?
      && o.st.notReadySince == c.notReadySince && o.st.bootFailure == c.bootFailure
  {
    assert Handle(c, NoEvent, i) == WaitForPowerOn(c, i);
  }

  lemma SeenOffWaiting(st: Status, t: int, p: Option<FailurePolicy>)
    requires st.phase == PoweringOn && st.standbySince.None? && st.bootFailure.Some? && !st.bootFailure.value.leftOn
    ensures var i := Afterwards(st, t, ReadsOff, 0, p); var o := Next(st, Reconcile(i)).st;
      && AlwaysOnAt(i, t, p) && o.phase == PoweringOn && o.phaseSince == st.phaseSince && o.standbySince.None?
      && o.notReadySince.None? && o.bootFailure == st.bootFailure
  {
    SeenOff(st, t, p);
    OffIsWaitedFor(Concluded(st, Afterwards(st, t, ReadsOff, 0, p)).0, Afterwards(st, t, ReadsOff, 0, p));
  }

  lemma FailureIsCut(st: Status, t: int, p: Option<FailurePolicy>) returns (run: seq<Event>)
    requires st.standbySince.None? && FailureActs(st)
    ensures Cut(st, t, run, p)
  {
    if ActsOnSight(st) {
      run := SightIsCut(st, t, p);
    } else if st.phase == Off {
      var i := Afterwards(st, t, ReadsUnknown, 0, p);
      UnseenIsPoweredUp(st, t, 0, p);
      UnseenRequest(st, t, 0, p);
      var rest := SightIsCut(Next(st, Reconcile(i)).st, i.now, p);
      CutLater(st, t, i, rest, p);
      run := [Reconcile(i)] + rest;
    } else {
      var i := Afterwards(st, t, ReadsOff, 0, p);
      SeenOffWaiting(st, t, p);
      var rest := SightIsCut(Next(st, Reconcile(i)).st, i.now, p);
      CutLater(st, t, i, rest, p);
      run := [Reconcile(i)] + rest;
    }
  }

  /** A boot timeout the boot in progress has not passed. */
  function Patience(st: Status, t: int): int {
    var now := LongAfter(st, t);
    now - st.notReadySince.GetOr(BootStart(st, now))
  }

  lemma SeenOnConcluded(st: Status, t: int, p: Option<FailurePolicy>)
    requires st.phase == PoweringOn && st.standbySince.None?
    ensures var i := Afterwards(st, t, ReadsOn, Patience(st, t), p); var (c, event) := Concluded(st, i);
      && event == NoEvent && c.notReadySince == Some(st.notReadySince.GetOr(BootStart(st, i.now)))
      && c.phase == PoweringOn && c.standbySince.None? && c.decision == st.decision && c.power == ReadsOn
      && !c.nodeReady && !c.inconsistent
  {
    assert ChangeSeen(st, Afterwards(st, t, ReadsOn, Patience(st, t), p)) == NoChange;
  }

  lemma SeenOnWaiting(st: Status, t: int, p: Option<FailurePolicy>)
    requires st.phase == PoweringOn && st.standbySince.None? && MayExpire(st, p) && !FailureActs(st)
    ensures var i := Afterwards(st, t, ReadsOn, Patience(st, t), p); var o := Next(st, Reconcile(i)).st;
      && AlwaysOnAt(i, t, p) && o.decision == st.decision && o.standbySince.None?
      && o.notReadySince.Some? && o.notReadySince.value <= i.now && o.phase != Off && o.phase != Standby
  {
    var i := Afterwards(st, t, ReadsOn, Patience(st, t), p);
    var (c, event) := Concluded(st, i);
    SeenOnConcluded(st, t, p);
    if Boot(c, event, i).handled {
      assert Handle(c, event, i) == BootStillFailed(c, i);
    } else {
      assert Handle(c, event, i) == WaitForPowerOn(c, i);
    }
  }

  /** An attempt that the pool gives up, seen neither on nor off, leaves a failure that acts. */
  function GivingUp(st: Status, t: int, p: Option<FailurePolicy>): Inputs {
    Afterwards(st, t, ReadsUnknown, 0, p).(failurePolicy := Release, powerOnTimeout := 0)
  }

  lemma GivenUp(st: Status, t: int, p: Option<FailurePolicy>)
    requires MayExpire(st, p) && st.standbySince.None? && st.notReadySince.Some? && st.notReadySince.value <= t
    ensures var i := GivingUp(st, t, p); var o := Next(st, Reconcile(i)).st;
      AlwaysOnAt(i, t, p) && o.standbySince.None? && FailureActs(o)
  {
    var i := GivingUp(st, t, p);
    assert Concluded(st, i) == (Unseen(st, i), NoEvent);
    assert Reconciled(st, i) == ReleaseFailedPowerOn(Unseen(st, i), i);
  }

  lemma WaitingDecisionIsCut(st: Status, t: int, p: Option<FailurePolicy>) returns (run: seq<Event>)
    requires st.phase == PoweringOn && st.standbySince.None? && MayExpire(st, p) && !FailureActs(st)
    ensures Cut(st, t, run, p)
  {
    var i := Afterwards(st, t, ReadsOn, Patience(st, t), p);
    SeenOnWaiting(st, t, p);
    var st1 := Next(st, Reconcile(i)).st;
    var j := GivingUp(st1, i.now, p);
    GivenUp(st1, i.now, p);
    var rest := FailureIsCut(Next(st1, Reconcile(j)).st, j.now, p);
    CutLater(st1, i.now, j, rest, p);
    CutLater(st, t, i, [Reconcile(j)] + rest, p);
    run := [Reconcile(i)] + ([Reconcile(j)] + rest);
  }

  lemma DecisionIsCut(st: Status, t: int, p: Option<FailurePolicy>) returns (run: seq<Event>)
    requires st.standbySince.None? && MayExpire(st, p) && !FailureActs(st) && Settled(st, t)
    ensures Cut(st, t, run, p)
  {
    if st.phase == PoweringOn {
      run := WaitingDecisionIsCut(st, t, p);
    } else {
      var i := Afterwards(st, t, ReadsUnknown, 0, p);
      UnseenIsPoweredUp(st, t, 0, p);
      UnseenRequest(st, t, 0, p);
      var rest := WaitingDecisionIsCut(Next(st, Reconcile(i)).st, i.now, p);
      CutLater(st, t, i, rest, p);
      run := [Reconcile(i)] + rest;
    }
  }

  /** `AlwaysOn` keeps a machine's power uncut, whatever is read from then on, if and only if the status
      it begins with holds no failure that would act, no On decision that can expire under the failure
      policy, and no standby to wake from. */
  lemma AlwaysOnExact(st: Status, t: int, p: Option<FailurePolicy>)
    requires Settled(st, t)
    ensures (forall run: seq<Event> :: !Cut(st, t, run, p)) <==> StaysOn(st, p)
  {
    if StaysOn(st, p) {
      forall run: seq<Event> ensures !Cut(st, t, run, p) {
        if run != [] && KeptAlwaysOn(t, run, p) {
          StaysOnForGood(st, t, run, p);
        }
      }
    } else if st.standbySince.Some? {
      var run := WakingIsCut(st, t, p);
    } else if FailureActs(st) {
      var run := FailureIsCut(st, t, p);
    } else {
      var run := DecisionIsCut(st, t, p);
    }
  }

  /** The case of a stored On decision at its shortest: once it has expired, a suspended machine that
      its interface reads as on is cut off under `AlwaysOn` too. */
  lemma StaleDecisionOverrulesAlwaysOn(st: Status, i: Inputs)
    requires i.config.policy == AlwaysOn && i.nodeFound && !st.inconsistent && st.bootFailure.None?
    requires st.power == ReadsOn && st.standbySince.Some?
    requires AttemptExpired(st, i.now, i.failurePolicy, i.powerOnTimeout)
    ensures Handle(st, NoEvent, i).effects == [Issued(ForceOff, ByRelease)]
  {
  }
}
