/** The drain and power-off ladder over whole runs (`src/controller/node_power_management_config.rs`). */
module DrainSafety {
  import opened Prelude
  import opened Clock
  import opened MachineStatus
  import opened MachineStep
  import opened MachineRuns

  // ----- one reconcile ----------------------------------------------------------------------

  /** The drain gives this reconcile leave to power off: no pod is left, or it may force. */
  predicate MayPowerOff(st: Status, i: Inputs) {
    NothingLeftToDrain(i.pods) || (i.config.forceAfterDrain && InPhaseFor(st, i.now) > i.config.drainTimeout)
  }

  /** The first power-off request: graceful, remembered in the status, at the start of the stay. */
  predicate AskedPolitely(o: Outcome, now: int) {
    && o.st.phase == PoweringOff
    && o.st.phaseSince == Some(now)
    && (o.effects == [Issued(PowerOff, ByDrain)]
        || (o.effects == [Issued(SuspendHost, ByDrain)] && o.st.standbySince == Some(now)))
  }

  lemma StartPowerOffAsks(st: Status, i: Inputs)
    requires st.phase == Draining
    ensures StartPowerOff(st, i).completed && AskedPolitely(StartPowerOff(st, i), i.now)
  {
  }

  lemma DrainedAsks(st: Status, i: Inputs)
    requires st.phase == Draining
    ensures var o := Drained(st, i);
      && o.completed
      && (AskedPolitely(o, i.now) || (o.st.phase == Draining && o.effects == []))
      && (InPhaseFor(st, i.now) > PROBE_WAIT_SECS ==> o.st.phase == PoweringOff)
  {
    var probed := ProbeSleep(st, i).0;
    assert probed.phase == Draining && probed.phaseSince == st.phaseSince;
    StartPowerOffAsks(st, i);
    StartPowerOffAsks(probed, i);
  }

  lemma DrainTimedOutStays(st: Status, i: Inputs)
    requires st.phase == Draining
    ensures var o := DrainTimedOut(st, i); o.st.phase == On || (o.st.phase == Draining && o.effects == [])
  {
  }

  lemma DrainLadder(st: Status, i: Inputs)
    requires st.phase == Draining
    ensures var o := Drain(st, i);
      && (o.st.phase == PoweringOff ==> MayPowerOff(st, i) && AskedPolitely(o, i.now))
      && (o.st.phase == Draining ==> o.effects == [])
      && (o.st.phase == PoweringOff || o.st.phase == Draining || o.st.phase == On)
  {
    if NothingLeftToDrain(i.pods) {
      DrainedAsks(st, i);
    } else {
      StartPowerOffAsks(st, i);
      DrainTimedOutStays(st, i);
    }
  }

  /** Under `Auto`, a drain that has lasted longer than its timeout and the probe wait is over: the
      machine is powering off, or the scale-down is aborted, unless lifting the cordon fails. */
  lemma DrainEnds(st: Status, i: Inputs)
    requires st.phase == Draining && i.config.policy == Auto
    requires InPhaseFor(st, i.now) > i.config.drainTimeout && InPhaseFor(st, i.now) > PROBE_WAIT_SECS
    ensures Drain(st, i).completed <==> MayPowerOff(st, i) || !i.nodeFound || i.cordonOk
    ensures var o := Drain(st, i).st;
      if MayPowerOff(st, i) then o.phase == PoweringOff
      else o.drainFailedAt == Some(i.now) && (Drain(st, i).completed ==> o.phase == On)
           && o.decision.Some? && o.decision.value.target == TurnOn && o.decision.value.time == i.now
  {
    DrainedAsks(st, i);
    StartPowerOffAsks(st, i);
    if !MayPowerOff(st, i) {
      assert Drain(st, i) == DrainTimedOut(st, i);
    }
  }

  /** A forced power-off here comes after a stay in PoweringOff longer than the shutdown timeout. */
  lemma WaitLadder(st: Status, i: Inputs)
    requires st.phase == PoweringOff
    ensures var o := WaitForPowerOff(st, i);
      && o.completed && o.st.phase == PoweringOff
      && (st.phaseSince.Some? ==> o.st.phaseSince.Some?)
      && (st.standbySince.Some? && o.st.standbySince.None? ==> Issues(o, PowerOff))
      && (Issued(ForceOff, ByEnsureOff) in o.effects ==>
            st.standbySince.None? && InPhaseFor(st, i.now) > i.config.shutdownTimeout)
      && UncordonNode !in o.effects
  {
    var shutdown := i.config.shutdownTimeout;
    var settle := if shutdown < STANDBY_SETTLE_SECS then shutdown else STANDBY_SETTLE_SECS;
    if st.standbySince.Some? && InPhaseFor(st, i.now) > settle {
      assert WaitForPowerOff(st, i).effects[0] == Issued(PowerOff, ByEnsureOff);
    }
  }

  lemma EnsureOffLadder(st: Status, i: Inputs)
    ensures var o := EnsureOff(st, i);
      && (o.completed && o.st.phase == PoweringOff && st.phase != PoweringOff ==>
            st.phase == Draining && MayPowerOff(st, i) && AskedPolitely(o, i.now))
      && (o.completed && o.st.phase == PoweringOff && st.phase == PoweringOff ==> o == WaitForPowerOff(st, i))
      && (o.completed && o.st.phase == Draining ==>
            o.effects == [CordonNode] || (st.phase == Draining && o.effects == []) || !i.nodeFound)
      && (Issued(ForceOff, ByEnsureOff) in o.effects ==> st.phase == PoweringOff && o == WaitForPowerOff(st, i))
  {
    var woken := WokeByItself(st, i.now);
    assert st.phase != Standby ==> woken == st;
    if woken.power == ReadsOff || InStandby(woken.phase, woken.standbySince.Some?, woken.nodeReady) {
    } else if st.phase == Draining {
      DrainLadder(st, i);
      DrainNeverForces(st, i);
    }
  }

  lemma DrainNeverForces(st: Status, i: Inputs)
    ensures Issued(ForceOff, ByEnsureOff) !in Drain(st, i).effects
  {
  }

  /** What one completed handler run may do on the ladder. */
  predicate LadderStep(st: Status, o: Outcome, i: Inputs) {
    && (o.completed && o.st.phase == PoweringOff && st.phase != PoweringOff ==>
          st.phase == Draining && MayPowerOff(st, i) && AskedPolitely(o, i.now))
    && (o.completed && o.st.phase == PoweringOff && st.phase == PoweringOff ==>
          && (st.phaseSince.Some? ==> o.st.phaseSince.Some?)
          && (st.standbySince.Some? && o.st.standbySince.None? ==> Issues(o, PowerOff)))
    && (o.completed && o.st.phase == Draining ==>
          o.effects == [CordonNode] || (st.phase == Draining && o.effects == []))
    && (Issued(ForceOff, ByEnsureOff) in o.effects ==>
          st.phase == PoweringOff && st.standbySince.None? && InPhaseFor(st, i.now) > i.config.shutdownTimeout)
  }

  lemma EnsureOffSteps(st: Status, i: Inputs)
    requires i.nodeFound
    ensures LadderStep(st, EnsureOff(st, i), i)
  {
    EnsureOffLadder(st, i);
    if st.phase == PoweringOff {
      WaitLadder(st, i);
    }
  }

  lemma WaitForPowerOnSteps(st: Status, i: Inputs)
    requires st.phase == PoweringOn
    ensures LadderStep(st, WaitForPowerOn(st, i), i)
  {
  }

  lemma RequestPowerOnSteps(st: Status, i: Inputs)
    ensures LadderStep(st, RequestPowerOn(st, i), i)
  {
  }

  lemma LiftCordonSteps(st: Status, i: Inputs)
    ensures LadderStep(st, LiftCordonWhileBooting(st, i), i)
  {
  }

  lemma PowerUpSteps(st: Status, i: Inputs)
    ensures LadderStep(st, PowerUp(st, i), i)
  {
    if st.phase == PoweringOn {
      WaitForPowerOnSteps(st, i);
    } else {
      RequestPowerOnSteps(st, i);
      LiftCordonSteps(st, i);
    }
  }

  lemma OnlineSteps(st: Status, i: Inputs)
    ensures LadderStep(st, Online(st, i), i)
  {
    var on := SetPhase(st, On, i.now).(forcedOffAt := None, standbySince := None);
    assert ProbeSleep(on, i).0.phase == On;
  }

  lemma ReleaseSteps(st: Status, i: Inputs)
    ensures LadderStep(st, ReleaseFailedPowerOn(st, i), i)
  {
  }

  lemma ObserveSteps(st: Status, i: Inputs)
    ensures LadderStep(st, Stay(Observe(st, i.now)), i)
  {
  }

  lemma BootSteps(st: Status, event: BootEvent, i: Inputs)
    requires Boot(st, event, i).handled
    ensures LadderStep(st, Boot(st, event, i).out, i)
  {
  }

  lemma HandleSteps(st: Status, event: BootEvent, i: Inputs)
    ensures LadderStep(st, Handle(st, event, i), i)
  {
    if Boot(st, event, i).handled {
      BootSteps(st, event, i);
    } else if !i.nodeFound || st.inconsistent {
      ObserveSteps(st, i);
    } else {
      match ManagedTarget(i.config.policy, st, i.manualPolicy)
      case None => ObserveSteps(st, i);
      case Some(TurnOn) =>
        OnlineSteps(st, i);
        ReleaseSteps(st, i);
        PowerUpSteps(st, i);
      case Some(TurnOff) => EnsureOffSteps(st, i);
    }
  }

  /** Reading, boot tracking and manual changes leave a machine's place on the ladder alone. */
  lemma ConcludedKeepsPlace(before: Status, i: Inputs)
    requires Reads(i)
    ensures var st := Concluded(before, i).0;
      && st.phase == before.phase && st.phaseSince == before.phaseSince
      && (before.phase != Off && before.phase != Standby ==> st.standbySince == before.standbySince)
  {
  }

  lemma ReconcileSteps(before: Status, i: Inputs)
    ensures LadderStep(before, Reconciled(before, i), i)
  {
    if Reads(i) {
      var (st, event) := Concluded(before, i);
      ConcludedKeepsPlace(before, i);
      HandleSteps(st, event, i);
    }
  }

  // ----- whole runs -------------------------------------------------------------------------

  /** The operator's last change of the cordon was to set it. */
  predicate CordonInForce(run: seq<Event>) {
    run != [] &&
    var effects := LastOutcome(run).effects;
    UncordonNode !in effects && (CordonNode in effects || CordonInForce(Init(run)))
  }

  /** No reconcile of the machine's present stay in Draining has lifted the cordon. */
  predicate TidyDrain(run: seq<Event>) {
    run != [] && StatusAfter(run).phase == Draining
    && (StatusAfter(Init(run)).phase == Draining ==>
          TidyDrain(Init(run)) && UncordonNode !in LastOutcome(run).effects)
  }

  /** Entering Draining is the reconcile that sets the cordon; staying there does not touch it, unless
      the status that would have left Draining was lost. */
  lemma DrainingSteps(run: seq<Event>)
    requires run != [] && StatusAfter(run).phase == Draining
    ensures StatusAfter(Init(run)).phase != Draining ==> LastOutcome(run).effects == [CordonNode]
    ensures StatusAfter(Init(run)).phase == Draining ==> CordonNode !in LastOutcome(run).effects
  {
    var before, e := StatusAfter(Init(run)), Last(run);
    if e.Reconcile? {
      ReconcileSteps(before, e.i);
      if before.phase == Draining {
        NeverCordonedTwice(before, e.i);
      }
    }
  }

  lemma NeverCordonedTwice(st: Status, i: Inputs)
    requires st.phase == Draining
    ensures CordonNode !in Reconciled(st, i).effects
  {
    if Reads(i) {
      ConcludedKeepsPlace(st, i);
      DrainNeverCordons(Concluded(st, i).0, Concluded(st, i).1, i);
    }
  }

  lemma DrainNeverCordons(st: Status, event: BootEvent, i: Inputs)
    requires st.phase == Draining
    ensures CordonNode !in Handle(st, event, i).effects
  {
    assert CordonNode !in Drain(st, i).effects;
  }

  /** While a machine drains, the operator's cordon is in force if and only if no reconcile of this
      stay has lifted it (and then lost its status, or the stay would be over). */
  lemma {:induction false} CordonExact(run: seq<Event>)
    requires StatusAfter(run).phase == Draining
    ensures CordonInForce(run) <==> TidyDrain(run)
  {
    if run != [] {
      DrainingSteps(run);
      if StatusAfter(Init(run)).phase == Draining {
        CordonExact(Init(run));
      }
    }
  }

  /** A drain powers a machine off only from phase Draining, with no pod left to evict or block unless
      it may be forced, with a graceful request, and under the operator's cordon exactly when the stay
      has been tidy; whether or not that reconcile's status is then stored. */
  lemma DrainPowersOff(run: seq<Event>)
    requires run != [] && Last(run).Reconcile? && IssuesBy(LastOutcome(run), ByDrain)
    ensures var before, i := StatusAfter(Init(run)), Last(run).i;
      && before.phase == Draining && MayPowerOff(before, i)
      && (LastOutcome(run).effects == [Issued(PowerOff, ByDrain)] || LastOutcome(run).effects == [Issued(SuspendHost, ByDrain)])
      && (CordonInForce(Init(run)) <==> TidyDrain(Init(run)))
  {
    DrainIssues(StatusAfter(Init(run)), Last(run).i);
    CordonExact(Init(run));
  }

  lemma DrainIssues(before: Status, i: Inputs)
    requires IssuesBy(Reconciled(before, i), ByDrain)
    ensures before.phase == Draining && MayPowerOff(before, i)
    ensures var effects := Reconciled(before, i).effects;
      effects == [Issued(PowerOff, ByDrain)] || effects == [Issued(SuspendHost, ByDrain)]
  {
    var (c, event) := Concluded(before, i);
    ConcludedKeepsPlace(before, i);
    OnlyDrainIssues(c, event, i);
    DrainAsks(c, i);
  }

  lemma EnsureOnIsNoDrain(st: Status, i: Inputs)
    ensures !IssuesBy(EnsureOn(st, i), ByDrain)
  {
    assert !IssuesBy(PowerUp(st, i), ByDrain) && !IssuesBy(Online(st, i), ByDrain);
  }

  lemma EnsureOffDrains(st: Status, i: Inputs)
    requires IssuesBy(EnsureOff(st, i), ByDrain)
    ensures st.phase == Draining && EnsureOff(st, i) == Drain(st, i)
  {
    assert !IssuesBy(WaitForPowerOff(WokeByItself(st, i.now), i), ByDrain);
  }

  lemma OnlyDrainIssues(st: Status, event: BootEvent, i: Inputs)
    requires IssuesBy(Handle(st, event, i), ByDrain)
    ensures st.phase == Draining && Handle(st, event, i) == Drain(st, i)
  {
    assert !Boot(st, event, i).handled;
    EnsureOnIsNoDrain(st, i);
    if IssuesBy(EnsureOff(st, i), ByDrain) {
      EnsureOffDrains(st, i);
    }
  }

  lemma DrainAsks(st: Status, i: Inputs)
    requires st.phase == Draining && IssuesBy(Drain(st, i), ByDrain)
    ensures MayPowerOff(st, i)
    ensures Drain(st, i).effects == [Issued(PowerOff, ByDrain)] || Drain(st, i).effects == [Issued(SuspendHost, ByDrain)]
  {
    DrainLadder(st, i);
    assert !IssuesBy(DrainTimedOut(st, i), ByDrain);
    DrainedAsks(st, i);
    StartPowerOffAsks(st, i);
  }

  /** PoweringOff is entered only so. */
  lemma PoweringOffNeedsCordonAndDrain(run: seq<Event>)
    requires run != []
    requires StatusAfter(Init(run)).phase != PoweringOff && StatusAfter(run).phase == PoweringOff
    ensures StatusAfter(Init(run)).phase == Draining
    ensures CordonInForce(Init(run)) <==> TidyDrain(Init(run))
    ensures Last(run).Reconcile? && MayPowerOff(StatusAfter(Init(run)), Last(run).i)
    ensures AskedPolitely(LastOutcome(run), Last(run).i.now)
  {
    ReconcileSteps(StatusAfter(Init(run)), Last(run).i);
    CordonExact(Init(run));
  }

  /** The stay can be untidy: a reconcile that lifts the cordon of a draining machine loses its status
      when a later call fails, or when storing the status does, and the machine still counts as
      draining. */
  lemma LostUncordonLeavesDraining(st: Status, i: Inputs)
    requires st.phase == Draining && UncordonNode in Reconciled(st, i).effects
    requires !Reconciled(st, i).completed || !i.storedOk
    ensures Next(st, Reconcile(i)).st == st && UncordonNode in Next(st, Reconcile(i)).effects
  {
  }

  /** Removing the powered-off marker fails, on the way back to On. */
  lemma MarkerCanFail(st: Status, i: Inputs)
    requires st.phase == Draining && Reads(i) && i.reading == Some(ReadsOn) && i.nodeReady && i.nodeFound
    requires i.config.policy == AlwaysOn && i.cordonOk && !i.unmarkOk
    ensures Reconciled(st, i).effects == [UncordonNode] && !Reconciled(st, i).completed
  {
    var (c, event) := Concluded(st, i);
    assert c.power == ReadsOn && c.nodeReady && !c.inconsistent;
    assert Handle(c, event, i) == Online(c, i);
  }

  /** Storing the status of an aborted drain fails. */
  lemma AbortCanBeLost(st: Status, i: Inputs)
    requires st.phase == Draining && Reads(i) && i.reading == Some(ReadsOn) && i.nodeReady && i.nodeFound
    requires i.config.policy == Auto && i.cordonOk && !MayPowerOff(st, i) && !i.storedOk && st.manualOn.None?
    requires InPhaseFor(st, i.now) > i.config.drainTimeout
    requires st.decision.Some? && st.decision.value.target == TurnOff && st.decision.value.pool in i.pools
    ensures Reconciled(st, i).effects == [UncordonNode]
  {
    var (c, event) := Concluded(st, i);
    ConcludedKeepsPlace(st, i);
    assert c.power == ReadsOn && c.nodeReady && !c.inconsistent && c.decision == st.decision && c.pools == i.pools;
    assert Handle(c, event, i) == EnsureOff(c, i) == Drain(c, i) == DrainTimedOut(c, i);
  }

  /** So the power-off that follows is not covered by any cordon: the first reconcile lifts it and is
      lost, the second powers off, and neither sets it. */
  lemma UntidyPowersOffUncordoned(st: Status, lifting: Inputs, ending: Inputs)
    requires st.phase == Draining && st.standbySince.None?
    requires Reconciled(st, lifting).effects == [UncordonNode]
    requires !Reconciled(st, lifting).completed || !lifting.storedOk
    requires Reads(ending) && ending.reading == Some(ReadsOn) && ending.nodeReady && ending.nodeFound && ending.storedOk
    requires ending.config.policy == AlwaysOff && ending.config.offMode == ShutDown && NothingLeftToDrain(ending.pods)
    ensures var first := Next(st, Reconcile(lifting)); var second := Next(first.st, Reconcile(ending));
      && first.effects == [UncordonNode] && !first.completed
      && second.st.phase == PoweringOff && second.effects == [Issued(PowerOff, ByDrain)]
  {
    LostUncordonLeavesDraining(st, lifting);
    DrainedIsPoweredOff(st, ending);
  }

  lemma DrainedIsPoweredOff(st: Status, i: Inputs)
    requires st.phase == Draining && st.standbySince.None?
    requires Reads(i) && i.reading == Some(ReadsOn) && i.nodeReady && i.nodeFound
    requires i.config.policy == AlwaysOff && i.config.offMode == ShutDown && NothingLeftToDrain(i.pods)
    ensures var o := Reconciled(st, i);
      o.completed && o.st.phase == PoweringOff && o.effects == [Issued(PowerOff, ByDrain)]
  {
    var (c, event) := Concluded(st, i);
    ConcludedKeepsPlace(st, i);
    assert c.power == ReadsOn && c.nodeReady && !c.inconsistent && c.standbySince.None?;
    assert Handle(c, event, i) == EnsureOff(c, i) == Drain(c, i) == StartPowerOff(c, i);
  }

  /** The machine asked for a graceful shutdown at some point of its present stay in PoweringOff. */
  predicate AskedInThisStay(run: seq<Event>) {
    && run != []
    && StatusAfter(run).phase == PoweringOff
    && (Issues(LastOutcome(run), PowerOff) || AskedInThisStay(Init(run)))
  }

  lemma {:induction false} PoweringOffWasAsked(run: seq<Event>)
    requires StatusAfter(run).phase == PoweringOff
    ensures StatusAfter(run).phaseSince.Some?
    ensures StatusAfter(run).standbySince.Some? || AskedInThisStay(run)
  {
    if run != [] {
      var before, e, o := StatusAfter(Init(run)), Last(run), LastOutcome(run);
      if before.phase == PoweringOff {
        PoweringOffWasAsked(Init(run));
      }
      if e.Reconcile? {
        ReconcileSteps(before, e.i);
        assert AskedPolitely(o, e.i.now) && o.st.standbySince.None? ==> o.effects[0] == Issued(PowerOff, ByDrain);
      }
    }
  }

  /** Step `k` asked for a graceful shutdown, and the machine has been in PoweringOff ever since. */
  predicate AskedAt(run: seq<Event>, k: nat)
    requires k < |run|
  {
    && Issues(LastOutcome(run[..k + 1]), PowerOff)
    && forall j | k < j <= |run| :: StatusAfter(run[..j]).phase == PoweringOff
  }

  lemma AskedAtPersists(run: seq<Event>, k: nat)
    requires k < |run| - 1 && AskedAt(Init(run), k) && StatusAfter(run).phase == PoweringOff
    ensures AskedAt(run, k)
  {
    assert Init(run)[..k + 1] == run[..k + 1];
    forall j | k < j <= |run| ensures StatusAfter(run[..j]).phase == PoweringOff {
      if j < |run| {
        assert Init(run)[..j] == run[..j];
      } else {
        assert run[..j] == run;
      }
    }
  }

  lemma AskedJustNow(run: seq<Event>)
    requires run != [] && Issues(LastOutcome(run), PowerOff) && StatusAfter(run).phase == PoweringOff
    ensures AskedAt(run, |run| - 1)
  {
    assert run[..|run|] == run;
  }

  lemma {:induction false} AskedInThisStayExact(run: seq<Event>)
    requires AskedInThisStay(run)
    ensures exists k :: 0 <= k < |run| && AskedAt(run, k)
  {
    if Issues(LastOutcome(run), PowerOff) {
      AskedJustNow(run);
    } else {
      AskedInThisStayExact(Init(run));
      var k :| 0 <= k < |Init(run)| && AskedAt(Init(run), k);
      AskedAtPersists(run, k);
    }
  }

  /** The ladder to a hard power-off: when the off handler cuts the power, the machine has been in
      PoweringOff for longer than the shutdown timeout, and an earlier reconcile of that same stay
      asked for a graceful shutdown. */
  lemma ForceOffIsTheLastRung(run: seq<Event>)
    requires run != [] && Last(run).Reconcile?
    requires Issued(ForceOff, ByEnsureOff) in LastOutcome(run).effects
    ensures var before, i := StatusAfter(Init(run)), Last(run).i;
      && before.phase == PoweringOff && before.phaseSince.Some?
      && NumSeconds(i.now - before.phaseSince.value) > i.config.shutdownTimeout
    ensures exists k :: 0 <= k < |run| - 1 && AskedAt(Init(run), k)
  {
    ReconcileSteps(StatusAfter(Init(run)), Last(run).i);
    PoweringOffWasAsked(Init(run));
    AskedInThisStayExact(Init(run));
  }
}
