/** `manualPowerOnPolicy: LeaveOn`: what protects a machine a person powered on
    (`src/controller/node_power_management_config.rs`). */
module LeaveOnSafety {
  import opened Prelude
  import opened Clock
  import opened MachineStatus
  import opened MachineStep
  import opened MachineRuns
  import BootSafety

  /** The reconcile reads the machine off and its Node not Ready: back under management. */
  predicate SeenOff(i: Inputs) {
    Reads(i) && i.reading == Some(ReadsOff) && !i.nodeReady
  }

  predicate LeftToThePerson(i: Inputs) {
    i.config.policy == Auto && i.manualPolicy == LeaveOn && !SeenOff(i)
  }

  /** The boot that the status is timing, if any, was not started by a PowerOn of ours; any boot first
      seen from `since` on would not be taken for ours either. */
  predicate NoBootIsOurs(st: Status, since: int) {
    st.lastAction.Some? && st.lastAction.value.action == PowerOn ==>
      && st.lastAction.value.time < since - Seconds(120)
      && (st.notReadySince.Some? ==> st.lastAction.value.time < st.notReadySince.value - Seconds(120))
  }

  /** A person has the machine, and nothing in its status would be taken for a boot of ours. */
  predicate Unclaimed(st: Status, since: int) {
    && st.manualOn.Some?
    && NoBootIsOurs(st, since)
    && (st.phase == PoweringOn || st.phase == BootFailed ==> st.phaseSince.Some? && st.phaseSince.value >= since)
  }

  /** What keeps a machine hands-off after a manual power-on seen at `since`. */
  predicate HandsOff(st: Status, since: int) {
    Unclaimed(st, since) && (st.bootFailure.Some? ==> st.bootFailure.value.leftOn)
  }

  lemma SetPhaseHandsOff(st: Status, phase: Phase, since: int, now: int)
    requires HandsOff(st, since) && since <= now
    ensures HandsOff(SetPhase(st, phase, now), since)
  {
  }

  lemma ObserveHandsOff(st: Status, since: int, now: int)
    requires HandsOff(st, since) && since <= now
    ensures HandsOff(Observe(st, now), since)
  {
    SetPhaseHandsOff(st, if st.nodeReady then On else PoweringOn, since, now);
    SetPhaseHandsOff(st, Off, since, now);
    SetPhaseHandsOff(st, Unknown, since, now);
  }

  lemma BootHandsOff(st: Status, event: BootEvent, since: int, i: Inputs)
    requires LeftToThePerson(i) && since <= i.now && Unclaimed(st, since)
    requires event == Failed ==> st.notReadySince.Some?
    requires event != Failed ==> HandsOff(st, since)
    ensures var o := Boot(st, event, i).out; o.effects == [] && HandsOff(o.st, since)
    ensures !Boot(st, event, i).handled ==> Boot(st, event, i).out.st == st
  {
  }

  lemma HandleHandsOff(st: Status, event: BootEvent, since: int, i: Inputs)
    requires LeftToThePerson(i) && since <= i.now && Unclaimed(st, since)
    requires event == Failed ==> st.notReadySince.Some?
    requires event != Failed ==> HandsOff(st, since)
    ensures var o := Handle(st, event, i); o.completed && o.effects == [] && HandsOff(o.st, since)
  {
    BootHandsOff(st, event, since, i);
    if !Boot(st, event, i).handled {
      ObserveHandsOff(st, since, i.now);
    }
  }

  lemma TrackBootHandsOff(st: Status, since: int, i: Inputs)
    requires HandsOff(st, since) && since <= i.now
    ensures var (o, event) := TrackBoot(st, i.now, i.bootTimeout);
      && Unclaimed(o, since)
      && (event == Failed ==> o.notReadySince.Some?)
      && (event != Failed ==> HandsOff(o, since))
  {
  }

  lemma ConcludedHandsOff(before: Status, since: int, i: Inputs)
    requires Reads(i) && LeftToThePerson(i) && since <= i.now && HandsOff(before, since)
    ensures var (st, event) := Concluded(before, i);
      && Unclaimed(st, since)
      && (event == Failed ==> st.notReadySince.Some?)
      && (event != Failed ==> HandsOff(st, since))
  {
    var st := BeforeBoot(before, i);
    assert HandsOff(st, since);
    TrackBootHandsOff(st, since, i);
    assert ChangeSeen(before, i) != PoweredOff;
  }

  /** One event of the time the machine is left alone; the clock may stand still in between. */
  predicate Harmless(e: Event, since: int) {
    match e
    case Reconcile(i) => LeftToThePerson(i) && since <= i.now
    case Decide(_) => true
    case ForgetManual => false
  }

  lemma ReconciledHandsOff(st: Status, since: int, i: Inputs)
    requires HandsOff(st, since) && LeftToThePerson(i) && since <= i.now
    ensures var o := Reconciled(st, i); o.completed && o.effects == [] && HandsOff(o.st, since)
  {
    if Reads(i) {
      ConcludedHandsOff(st, since, i);
      HandleHandsOff(Concluded(st, i).0, Concluded(st, i).1, since, i);
    } else {
      assert HandsOff(Unread(st, i), since);
    }
  }

  lemma StaysHandsOff(st: Status, since: int, e: Event)
    requires HandsOff(st, since) && Harmless(e, since)
    ensures Next(st, e).effects == [] && HandsOff(Next(st, e).st, since)
  {
    if e.Reconcile? {
      ReconciledHandsOff(st, since, e.i);
    }
  }

  /** Our last action is a PowerOn no more than 120 seconds before `time`, or after it. */
  predicate OurPowerOnReaches(st: Status, time: int) {
    st.lastAction.Some? && st.lastAction.value.action == PowerOn && st.lastAction.value.time >= time - Seconds(120)
  }

  /** When the first boot that could be timed from now on begins: it is in progress, or, with the Node
      Ready now, it begins later than now. */
  function NextBoot(before: Status, i: Inputs): int {
    if i.nodeReady then i.now + 1 else before.notReadySince.GetOr(i.now)
  }

  /** The guard that decides it, when the machine is seen powered on by hand: that boot would be taken
      for one that a PowerOn of ours started. */
  predicate ClaimsNextBoot(before: Status, i: Inputs) { OurPowerOnReaches(before, NextBoot(before, i)) }

  /** The first instant at which it could begin, if it is not in progress. */
  function From(i: Inputs): int { if i.nodeReady then i.now + 1 else i.now }

  /** The boot clock was not set in the future. */
  predicate ClockIsPast(before: Status, i: Inputs) { before.notReadySince.Some? ==> before.notReadySince.value <= i.now }

  /** The reconcile that finds, and records, the machine powered on by hand. */
  predicate FindsManualPowerOn(before: Status, i: Inputs) {
    Reads(i) && LeftToThePerson(i) && ChangeSeen(before, i) == PoweredOn && i.storedOk
  }

  /** The machine is the person's, and no boot is timed. */
  predicate ReadyByHand(st: Status) {
    && (st.phase == On || st.phase == Off || st.phase == Unknown)
    && st.manualOn.Some? && st.standbySince.None? && st.notReadySince.None? && st.bootFailure.None?
  }

  /** With the Node Ready, that reconcile stops the boot clock and mirrors the reading. */
  lemma FoundReady(before: Status, i: Inputs)
    requires FindsManualPowerOn(before, i) && i.nodeReady
    ensures var o := Reconciled(before, i);
      o.completed && o.effects == [] && ReadyByHand(o.st) && o.st.lastAction == before.lastAction
  {
    var (c, event) := Concluded(before, i);
    assert c.manualOn.Some? && c.standbySince.None? && c.notReadySince.None? && c.bootFailure.None? && c.nodeReady;
    assert Handle(c, event, i) == Stay(Observe(c, i.now));
  }

  lemma FoundBooting(before: Status, i: Inputs)
    requires FindsManualPowerOn(before, i) && !i.nodeReady && !ClaimsNextBoot(before, i) && ClockIsPast(before, i)
    ensures var o := Reconciled(before, i); o.completed && o.effects == [] && HandsOff(o.st, i.now)
  {
    var st := BeforeBoot(before, i);
    assert st.notReadySince == before.notReadySince && st.lastAction == before.lastAction && st.phase == before.phase;
    var (tracked, event) := TrackBoot(st, i.now, i.bootTimeout);
    assert NoBootIsOurs(tracked, i.now);
    var concluded := Concluded(before, i).0;
    assert concluded == AfterManualChange(tracked, PoweredOn, i);
    HandleHandsOff(concluded, event, i.now, i);
  }

  lemma DetectionHandsOff(before: Status, i: Inputs)
    requires FindsManualPowerOn(before, i) && !ClaimsNextBoot(before, i) && ClockIsPast(before, i)
    ensures var o := Reconciled(before, i); o.completed && o.effects == [] && HandsOff(o.st, From(i))
  {
    if i.nodeReady {
      FoundReady(before, i);
    } else {
      FoundBooting(before, i);
    }
  }

  /** From the reconcile that finds a manual power-on until one reads the machine off, under constant
      `Auto` and `LeaveOn`: no power action and no cordon change, whatever is read meanwhile, whatever
      decisions pools store, and even when that boot fails. */
  lemma {:induction false} LeaveOnHolds(before: Status, i: Inputs, later: seq<Event>)
    requires FindsManualPowerOn(before, i) && !ClaimsNextBoot(before, i) && ClockIsPast(before, i)
    requires forall e <- later :: Harmless(e, From(i))
    ensures Reconciled(before, i).completed && Reconciled(before, i).effects == []
    ensures HandsOff(StatusFrom(Reconciled(before, i).st, later), From(i))
    ensures forall k :: 0 <= k < |later| ==>
      Next(StatusFrom(Reconciled(before, i).st, later[..k]), later[k]).effects == []
  {
    var start := Reconciled(before, i).st;
    DetectionHandsOff(before, i);
    if later != [] {
      LeaveOnHolds(before, i, Init(later));
      StaysHandsOff(StatusFrom(start, Init(later)), From(i), Last(later));
      forall k | 0 <= k < |later|
        ensures Next(StatusFrom(start, later[..k]), later[k]).effects == []
      {
        assert k < |later| - 1 ==> Init(later)[..k] == later[..k] && Init(later)[k] == later[k];
      }
    }
  }

  // ----- with the guard, the machine is powered off after all -------------------------------

  /** How it may go on after time `t` without the operator having a reason to act: the clock increases,
      the machine is never seen off, and the person's claim is not withdrawn. */
  predicate Follows(t: int, later: seq<Event>) {
    later == [] ||
    (Follows(t, Init(later)) &&
     match Last(later)
     case Reconcile(i) => LeftToThePerson(i) && Plausible(i) && i.now > TimeFrom(t, Init(later))
     case Decide(_) => true
     case ForgetManual => false)
  }

  lemma {:induction false} FollowingIsHarmless(t: int, later: seq<Event>)
    requires Follows(t, later)
    ensures TimeFrom(t, later) >= t
    ensures forall e <- later :: Harmless(e, t + 1)
  {
    if later != [] {
      FollowingIsHarmless(t, Init(later));
      assert later == Init(later) + [Last(later)];
    }
  }

  /** A reading of the machine on and its Node not Ready. */
  function ReadingOn(i: Inputs, now: int): Inputs {
    i.(now := now, nodeFound := true, reading := Some(ReadsOn), nodeReady := false, leaseAge := None, storedOk := true,
       chainBuilt := true, bootTimeout := Patience(i))
  }

  function Patience(i: Inputs): int { if i.bootTimeout > 0 then i.bootTimeout else 0 }

  /** A time after `now` at which a boot that began at `start` has failed. */
  function FailingTime(i: Inputs, start: int, now: int): int {
    (if start > now then start else now) + Seconds(Patience(i) + 1)
  }

  predicate ReadsOnUnready(i: Inputs) {
    LeftToThePerson(i) && Reads(i) && i.reading == Some(ReadsOn) && !i.nodeReady
  }

  lemma UnreadyConcluded(st: Status, i: Inputs)
    requires ReadyByHand(st) && ReadsOnUnready(i) && i.bootTimeout >= 0
    ensures var (c, event) := Concluded(st, i);
      && event == NoEvent && c.manualOn.Some? && c.standbySince.None? && c.notReadySince == Some(i.now)
      && c.bootFailure.None? && c.phase == st.phase && c.power == ReadsOn && !c.nodeReady && c.lastAction == st.lastAction
  {
  }

  /** The Node is Ready no more: a boot is timed from now. */
  lemma AfterUnready(st: Status, i: Inputs)
    requires ReadyByHand(st) && ReadsOnUnready(i) && i.bootTimeout >= 0
    ensures var o := Reconciled(st, i);
      && o.completed && o.effects == [] && o.st.phase == PoweringOn && o.st.phaseSince.Some? && o.st.standbySince.None?
      && o.st.notReadySince == Some(i.now) && o.st.bootFailure.None? && o.st.lastAction == st.lastAction
  {
    UnreadyConcluded(st, i);
    var (c, event) := Concluded(st, i);
    assert Handle(c, event, i) == Stay(Observe(c, i.now));
  }

  /** A continuation in which the person has a right to expect nothing, and the operator acts. */
  predicate ActsInTheEnd(st: Status, t: int, later: seq<Event>) {
    later != [] && Follows(t, later) && ActsOnPower(Next(StatusFrom(st, Init(later)), Last(later)))
  }

  /** The status times a boot that a PowerOn of ours is taken to have started. */
  predicate TimesOurBoot(st: Status) {
    && st.phase == PoweringOn && st.phaseSince.Some? && st.standbySince.None? && st.bootFailure.None?
    && OurPowerOnReaches(st, st.notReadySince.GetOr(st.phaseSince.value))
  }

  lemma OurBootFails(st: Status, i: Inputs)
    requires ReadsOnUnready(i) && TimesOurBoot(st)
    requires var start := st.notReadySince.GetOr(st.phaseSince.value);
      start < i.now && NumSeconds(i.now - start) > i.bootTimeout
    ensures Issues(Reconciled(st, i), PowerOff)
  {
    assert ChangeSeen(st, i) == NoChange;
    var (c, event) := Concluded(st, i);
    assert event == Failed && BootIsOurs(c) && c.bootFailure.Some?;
    assert Handle(c, event, i).effects == [Issued(PowerOff, ByBoot)];
    assert Reconciled(st, i).effects[0] == Issued(PowerOff, ByBoot);
  }

  lemma {:induction false} OneEvent(st: Status, t: int, i: Inputs)
    requires LeftToThePerson(i) && Plausible(i) && i.now > t && Issues(Reconciled(st, i), PowerOff)
    ensures ActsInTheEnd(st, t, [Reconcile(i)])
  {
    var none: seq<Event> := [];
    assert Init([Reconcile(i)]) == none && StatusFrom(st, none) == st && Follows(t, none) && TimeFrom(t, none) == t;
  }

  lemma {:induction false} TwoEvents(st: Status, t: int, i: Inputs, j: Inputs)
    requires LeftToThePerson(i) && Plausible(i) && LeftToThePerson(j) && Plausible(j) && j.now > i.now > t
    requires Issues(Reconciled(Next(st, Reconcile(i)).st, j), PowerOff)
    ensures ActsInTheEnd(st, t, [Reconcile(i), Reconcile(j)])
  {
    var none: seq<Event> := [];
    assert Init([Reconcile(i), Reconcile(j)]) == [Reconcile(i)] && Init([Reconcile(i)]) == none;
    assert StatusFrom(st, none) == st && Follows(t, none) && TimeFrom(t, none) == t;
    assert StatusFrom(st, [Reconcile(i)]) == Next(st, Reconcile(i)).st && Follows(t, [Reconcile(i)]);
  }

  lemma UnreadyFails(st: Status, i: Inputs, j: Inputs)
    requires ReadyByHand(st) && ReadsOnUnready(i) && i.bootTimeout >= 0 && OurPowerOnReaches(st, i.now)
    requires ReadsOnUnready(j) && i.now < j.now && NumSeconds(j.now - i.now) > j.bootTimeout
    ensures Reconciled(st, i).completed && Issues(Reconciled(Reconciled(st, i).st, j), PowerOff)
  {
    AfterUnready(st, i);
    OurBootFails(Reconciled(st, i).st, j);
  }

  /** Found with the Node Ready: it is Ready no more at once, and stays so. */
  lemma ReadyIsActedOn(before: Status, i: Inputs) returns (later: seq<Event>)
    requires FindsManualPowerOn(before, i) && ClaimsNextBoot(before, i) && i.nodeReady
    ensures ActsInTheEnd(Reconciled(before, i).st, i.now, later)
  {
    var unready := ReadingOn(i, i.now + 1);
    var failing := ReadingOn(i, FailingTime(i, i.now + 1, i.now));
    FoundReady(before, i);
    UnreadyFails(Reconciled(before, i).st, unready, failing);
    TwoEvents(Reconciled(before, i).st, i.now, unready, failing);
    later := [Reconcile(unready), Reconcile(failing)];
  }

  /** What the reconcile that finds the machine starts from, with the Node not Ready. */
  lemma FindsOurBoot(before: Status, i: Inputs)
    requires FindsManualPowerOn(before, i) && ClaimsNextBoot(before, i) && !i.nodeReady
    ensures var (c, event) := Concluded(before, i);
      && c.power == ReadsOn && !c.nodeReady && c.phase == Off && c.standbySince.None? && c.decision.None?
      && c.manualOn.Some? && c.lastAction == before.lastAction
      && c.notReadySince.GetOr(i.now) == NextBoot(before, i)
      && (event == Failed || (event == NoEvent && c.bootFailure.None?))
  {
    var st := BeforeBoot(before, i);
    assert st.notReadySince == before.notReadySince && st.lastAction == before.lastAction && st.phase == Off;
    assert st.power == ReadsOn && !st.nodeReady;
  }

  lemma PoweredOffAtOnce(st: Status, i: Inputs)
    requires BootIsOurs(st) && i.config.policy == Auto
    ensures ActsOnPower(Handle(st, Failed, i))
  {
    assert Handle(st, Failed, i).effects == [Issued(PowerOff, ByBoot)];
    assert Handle(st, Failed, i).effects[0] == Issued(PowerOff, ByBoot);
  }

  lemma StaysOnRecord(before: Status, i: Inputs)
    requires FindsManualPowerOn(before, i) && ClaimsNextBoot(before, i) && !i.nodeReady
    requires !ActsOnPower(Reconciled(before, i))
    ensures var o := Reconciled(before, i).st;
      TimesOurBoot(o) && o.notReadySince.GetOr(o.phaseSince.value) == NextBoot(before, i)
  {
    FindsOurBoot(before, i);
    var (c, event) := Concluded(before, i);
    if event == Failed {
      PoweredOffAtOnce(c, i);
    }
    assert Handle(c, event, i) == Stay(Observe(c, i.now));
  }

  /** Found while it boots, and not acted on at once: nothing changes until that boot fails. */
  lemma BootingIsActedOn(before: Status, i: Inputs) returns (later: seq<Event>)
    requires FindsManualPowerOn(before, i) && ClaimsNextBoot(before, i) && !i.nodeReady
    requires !ActsOnPower(Reconciled(before, i))
    ensures ActsInTheEnd(Reconciled(before, i).st, i.now, later)
  {
    var failing := ReadingOn(i, FailingTime(i, NextBoot(before, i), i.now));
    StaysOnRecord(before, i);
    OurBootFails(Reconciled(before, i).st, failing);
    OneEvent(Reconciled(before, i).st, i.now, failing);
    later := [Reconcile(failing)];
  }

  /** The guard is exact: with it, the machine is powered off by the detecting reconcile itself, or in
      some continuation in which it only reads on. */
  lemma LeaveOnNeedsTheGuard(before: Status, i: Inputs) returns (later: seq<Event>)
    requires FindsManualPowerOn(before, i) && ClaimsNextBoot(before, i)
    ensures ActsOnPower(Reconciled(before, i)) || ActsInTheEnd(Reconciled(before, i).st, i.now, later)
  {
    later := [];
    if i.nodeReady {
      later := ReadyIsActedOn(before, i);
    } else if !ActsOnPower(Reconciled(before, i)) {
      later := BootingIsActedOn(before, i);
    }
  }

  /** However it goes on, and with an increasing clock, the operator does nothing. */
  ghost predicate LeftAloneForGood(before: Status, i: Inputs) {
    var start := Reconciled(before, i);
    && start.effects == []
    && forall later: seq<Event>, k: nat | k < |later| && Follows(i.now, later) ::
         Next(StatusFrom(start.st, later[..k]), later[k]).effects == []
  }

  lemma GuardedIsLeftAlone(before: Status, i: Inputs)
    requires FindsManualPowerOn(before, i) && !ClaimsNextBoot(before, i) && ClockIsPast(before, i)
    ensures LeftAloneForGood(before, i)
  {
    LeaveOnHolds(before, i, []);
    var start := Reconciled(before, i).st;
    forall later: seq<Event>, k: nat | k < |later| && Follows(i.now, later)
      ensures Next(StatusFrom(start, later[..k]), later[k]).effects == []
    {
      FollowingIsHarmless(i.now, later);
      LeaveOnHolds(before, i, later);
    }
  }

  lemma UnguardedIsNotLeftAlone(before: Status, i: Inputs)
    requires FindsManualPowerOn(before, i) && ClaimsNextBoot(before, i)
    ensures !LeftAloneForGood(before, i)
  {
    var start := Reconciled(before, i);
    var later := LeaveOnNeedsTheGuard(before, i);
    if !ActsOnPower(start) {
      var k := |later| - 1;
      assert later[..k] == Init(later) && later[k] == Last(later);
      assert Next(StatusFrom(start.st, later[..k]), later[k]).effects != [];
    }
  }

  /** `LeaveOn` keeps its promise, whatever the boot timeout, if and only if no PowerOn of ours is so
      close to the first boot timed from then on that this boot is taken for ours. */
  lemma LeaveOnExact(before: Status, i: Inputs)
    requires FindsManualPowerOn(before, i) && ClockIsPast(before, i)
    ensures LeftAloneForGood(before, i) <==> !ClaimsNextBoot(before, i)
  {
    if ClaimsNextBoot(before, i) {
      UnguardedIsNotLeftAlone(before, i);
    } else {
      GuardedIsLeftAlone(before, i);
    }
  }

  /** So it is in every run, where the boot clock is never set in the future. */
  lemma {:induction false} LeaveOnExactInRuns(run: seq<Event>, i: Inputs)
    requires Orderly(run + [Reconcile(i)]) && FindsManualPowerOn(StatusAfter(run), i)
    ensures LeftAloneForGood(StatusAfter(run), i) <==> !ClaimsNextBoot(StatusAfter(run), i)
  {
    OneMore(run, Reconcile(i));
    BootSafety.BootClockIsPast(run);
    var before := StatusAfter(run);
    assert ClockIsPast(before, i);
    LeaveOnExact(before, i);
  }

  // ----- the guard can fail in a real run ---------------------------------------------------

  const MACHINE := Config(Auto, ShutDown, 300, 300, false)

  function Reading(seconds: int, power: PowerState): Inputs {
    Inputs(Seconds(seconds), MACHINE, true, false, ["pool"], true, Some(power), None, None, Pending, [],
           LeaveOn, 1200, Release, 1200, true, true, true, true)
  }

  function Decided(): Status {
    DEFAULT_STATUS.(decision := Some(Decision("pool", TurnOn, 0)))
  }

  function Asked(): Status {
    Decided().(phase := PoweringOn, phaseSince := Some(Seconds(1)), power := ReadsOff, pools := ["pool"],
               lastAction := Some(ActionRecord(PowerOn, Seconds(1), true)))
  }

  function Booting(): Status {
    Asked().(power := ReadsOn, notReadySince := Some(Seconds(1)))
  }

  /** Released on an Unknown reading: phase Off, yet the boot clock still runs. */
  function Released(): Status {
    Booting().(phase := Off, phaseSince := Some(Seconds(2000)), power := ReadsUnknown, decision := None,
               bootFailure := Some(BootFailure(Seconds(2000), false)))
  }

  lemma DecidedRun() returns (run: seq<Event>)
    ensures Reached(run, None, Decided()) && FaultlessRun(run)
  {
    var none: seq<Event> := [];
    OneMore(none, Decide(Decision("pool", TurnOn, 0)));
    run := none + [Decide(Decision("pool", TurnOn, 0))];
  }

  lemma AskedRun() returns (run: seq<Event>)
    ensures Reached(run, Some(Seconds(1)), Asked()) && FaultlessRun(run)
  {
    var i := Reading(1, ReadsOff);
    var c := Decided().(power := ReadsOff, pools := ["pool"]);
    assert Concluded(Decided(), i) == (c, NoEvent);
    assert Handle(c, NoEvent, i) == PowerUp(c, i);
    run := DecidedRun();
    OneReconcileMore(run, None, Decided(), i, Asked());
    run := run + [Reconcile(i)];
  }

  lemma BootingRun() returns (run: seq<Event>)
    ensures Reached(run, Some(Seconds(2)), Booting()) && FaultlessRun(run)
  {
    var i := Reading(2, ReadsOn);
    assert Concluded(Asked(), i) == (Booting(), NoEvent);
    assert Handle(Booting(), NoEvent, i) == PowerUp(Booting(), i);
    run := AskedRun();
    OneReconcileMore(run, Some(Seconds(1)), Asked(), i, Booting());
    run := run + [Reconcile(i)];
  }

  lemma ReleasedRun() returns (run: seq<Event>)
    ensures Reached(run, Some(Seconds(2000)), Released()) && FaultlessRun(run)
  {
    var i := Reading(2000, ReadsUnknown);
    var c := Booting().(power := ReadsUnknown);
    assert Concluded(Booting(), i) == (c, NoEvent);
    assert Handle(c, NoEvent, i) == ReleaseFailedPowerOn(c, i);
    run := BootingRun();
    OneReconcileMore(run, Some(Seconds(2)), Booting(), i, Released());
    run := run + [Reconcile(i)];
  }

  lemma ReleasedFindsManualPowerOn()
    ensures var i := Reading(2001, ReadsOn);
      FindsManualPowerOn(Released(), i) && ClaimsNextBoot(Released(), i)
  {
  }

  /** The guard does fail in an orderly run: a power-on that the interface loses sight of is released
      on an Unknown reading, and seeing the machine on again then counts as a manual power-on whose
      boot is still taken for ours. So `LeaveOn` as documented does not hold of the code. */
  lemma LeaveOnCanFail() returns (run: seq<Event>, i: Inputs)
    ensures Orderly(run + [Reconcile(i)])
    ensures FindsManualPowerOn(StatusAfter(run), i) && !LeftAloneForGood(StatusAfter(run), i)
  {
    run := ReleasedRun();
    i := Reading(2001, ReadsOn);
    OneMore(run, Reconcile(i));
    ReleasedFindsManualPowerOn();
    LeaveOnExactInRuns(run, i);
  }
}
