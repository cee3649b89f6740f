/** The reconciler object: a working copy of the status that its handlers update in place, each
    handler proved against its step function
    (`src/controller/node_power_management_config.rs`). */
module Reconciler {
  import opened Prelude
  import opened Clock
  import opened MachineStatus
  import Step = MachineStep
  import Scheduling

  class Reconciler {
    const i: Step.Inputs
    var st: Status
    var effects: seq<Step.Effect>

    constructor (before: Status, i: Step.Inputs)
      ensures this.i == i && st == before && effects == []
    {
      this.i := i;
      st := before;
      effects := [];
    }

    /** The handler ended as `o` says, adding its effects to those issued before. */
    twostate predicate Did(o: Step.Outcome, completed: bool)
      reads this
    {
      st == o.st && effects == old(effects) + o.effects && completed == o.completed
    }

    method SetPhase(phase: Phase)
      modifies this`st
      ensures st == Step.SetPhase(old(st), phase, i.now)
    {
      if st.phase != phase {
        st := st.(phase := phase);
        st := st.(phaseSince := Some(i.now));
      }
    }

    method Act(action: Action, issuer: Step.Issuer) returns (ok: bool)
      modifies this
      ensures st == Step.Acted(old(st), action, i) && ok == i.accepted
      ensures effects == old(effects) + [Step.Issued(action, issuer)]
    {
      ok := i.accepted;
      effects := effects + [Step.Issued(action, issuer)];
      if action == SuspendHost {
        st := st.(standbySince := Some(i.now));
      } else if action == PowerOff {
        st := st.(standbySince := None);
      }
      st := st.(lastAction := Some(ActionRecord(action, i.now, ok)));
    }

    method StandbyFailed()
      modifies this`st
      ensures st == old(st).(standbyFailedAt := Some(i.now))
    {
      st := st.(standbyFailedAt := Some(i.now));
    }

    method ProbeSleep() returns (s3: Option<bool>)
      modifies this`st
      ensures (st, s3) == Step.ProbeSleep(old(st), i)
    {
      s3 := Step.S3Known(st, i);
      if s3.Some? {
        return;
      }
      if i.bootId.None? {
        return None;
      }
      var bootId, found := i.bootId.value, false;
      match i.probe {
        case Pending =>
          return None;
        case Done(ran, offers) =>
          if ran != bootId {
            return None;                          // ran before a reboot: probe again
          }
          found := offers;
        case ProbeFailed =>
      }
      st := st.(sleepSupport := Some(SleepSupport(bootId, found)));
      s3 := Some(found);
    }

    method TrackBoot() returns (event: BootEvent)
      modifies this`st
      ensures (st, event) == MachineStatus.TrackBoot(old(st), i.now, i.bootTimeout)
    {
      if st.nodeReady {
        st := st.(notReadySince := None);
        event := if st.bootFailure.Some? then Recovered else NoEvent;
        st := st.(bootFailure := None);
        return;
      }
      event := NoEvent;
      if !CountsAsBooting(st) {
        if st.power == ReadsOff {
          st := st.(notReadySince := None);
        }
        return;
      }
      if st.notReadySince.None? {
        st := st.(notReadySince := Some(BootStart(st, i.now)));
      }
      var since := st.notReadySince.value;
      var newBoot := st.bootFailure.None? || since > st.bootFailure.value.time;
      if newBoot && NumSeconds(i.now - since) > i.bootTimeout {
        st := st.(bootFailure := Some(BootFailure(i.now, false)));
        event := Failed;
      }
    }

    method ManualChangeSeen(change: ManualChange)
      modifies this`st
      ensures st == Step.AfterManualChange(old(st), change, i)
    {
      match change {
        case NoChange =>
        case PoweredOn =>
          st := st.(manualOn := Some(ManualChangeRecord(i.now, Some(i.manualPolicy))));
          st := st.(decision := None);
          st := st.(standbySince := None);
          st := st.(bootFailure := None);
        case PoweredOff =>
          st := st.(manualOn := None);
          st := st.(manualOff := Some(ManualChangeRecord(i.now, None)));
          st := st.(decision := None);
          if st.bootFailure.Some? && st.bootFailure.value.leftOn {
            st := st.(bootFailure := None);
          }
      }
    }

    method Boot(event: BootEvent) returns (handled: bool)
      modifies this
      ensures handled == Step.Boot(old(st), event, i).handled
      ensures Did(Step.Boot(old(st), event, i).out, true)
    {
      if event == Recovered {
        return false;
      }
      if event == Failed {
        var leave := BootFailureLeavesOn(st, i.config.policy, i.manualPolicy);
        if st.bootFailure.Some? {
          st := st.(bootFailure := Some(st.bootFailure.value.(leftOn := leave)));
        }
        st := st.(decision := None);
        SetPhase(BootFailed);
        if !leave {
          var _ := Act(PowerOff, Step.ByBoot);
        }
        return true;
      }
      if st.bootFailure.None? || st.nodeReady || st.power != ReadsOn || !FailureIsCurrent(st) {
        return false;
      }
      var failure := st.bootFailure.value;
      SetPhase(BootFailed);
      if !failure.leftOn {
        var sinceFailure := NumSeconds(i.now - failure.time);
        var shutdown := i.config.shutdownTimeout;
        var patience := if shutdown < STANDBY_SETTLE_SECS then shutdown else STANDBY_SETTLE_SECS;
        if sinceFailure > patience && !Step.ForcedLately(st, i.now) {
          var _ := Act(ForceOff, Step.ByBoot);
          st := st.(forcedOffAt := Some(i.now));
        }
      }
      return true;
    }

    method ReleaseFailedPowerOn()
      modifies this
      ensures Did(Step.ReleaseFailedPowerOn(old(st), i), true)
    {
      if st.standbySince.Some? {
        st := st.(standbyFailedAt := Some(i.now));
      }
      st := st.(bootFailure := Some(BootFailure(i.now, false)));
      st := st.(decision := None);
      st := st.(standbySince := None);
      if st.power == ReadsOn {
        st := st.(notReadySince := Some(i.now));
        var _ := Act(ForceOff, Step.ByRelease);
        st := st.(forcedOffAt := Some(i.now));
        SetPhase(BootFailed);
      } else {
        SetPhase(Off);
      }
    }

    method RequestPowerOn()
      modifies this
      ensures Did(Step.RequestPowerOn(old(st), i), true)
    {
      var ok := Act(PowerOn, Step.ByEnsureOn);
      if ok {
        SetPhase(PoweringOn);
      } else {
        SetPhase(Error);
      }
    }

    /** Lifts our own cordon; false when the API call failed. */
    method Uncordon() returns (ok: bool)
      modifies this`effects
      ensures ok == (!i.nodeFound || i.cordonOk)
      ensures effects == old(effects) + if i.nodeFound && ok then [Step.UncordonNode] else []
    {
      ok := !i.nodeFound || i.cordonOk;
      if i.nodeFound && ok {
        effects := effects + [Step.UncordonNode];
      }
    }

    method PowerUp() returns (completed: bool)
      modifies this
      ensures Did(Step.PowerUp(old(st), i), completed)
    {
      completed := true;
      if st.phase == PoweringOn {
        if Step.InPhaseFor(st, i.now) > i.bootTimeout && st.standbySince.Some? {
          StandbyFailed();
          var _ := Act(ForceOff, Step.ByEnsureOn);
          SetPhase(Error);
        } else if (st.power == ReadsOff || st.standbySince.Some?)
                  && Step.SinceLastAction(st, PowerOn, i.now) > RETRY_ACTION_AFTER {
          var _ := Act(PowerOn, Step.ByEnsureOn);
        }
      } else if (st.phase == PoweringOff || st.phase == Standby) && st.standbySince.Some? {
        RequestPowerOn();
      } else if st.phase == PoweringOff && st.power == ReadsOn
                && Step.InPhaseFor(st, i.now) <= i.config.shutdownTimeout {
      } else if st.power == ReadsOn && st.standbySince.None? {
        completed := Uncordon();
        if completed {
          SetPhase(PoweringOn);
        }
      } else if !(st.phase == Error && Step.SinceLastAction(st, PowerOn, i.now) < RETRY_ACTION_AFTER) {
        RequestPowerOn();
      }
    }

    method EnsureOn() returns (completed: bool)
      modifies this
      ensures Did(Step.EnsureOn(old(st), i), completed)
    {
      completed := true;
      if st.power == ReadsOn && st.nodeReady {
        completed := Uncordon();
        if !completed {
          return;
        }
        if i.nodeFound && !i.unmarkOk {
          return false;
        }
        SetPhase(On);
        st := st.(forcedOffAt := None);
        st := st.(standbySince := None);
        if i.config.offMode == SuspendIfS3 {
          var _ := ProbeSleep();                  // early, so a scale-down need not wait for it
        }
        return;
      }
      if AttemptExpired(st, i.now, i.failurePolicy, i.powerOnTimeout) {
        ReleaseFailedPowerOn();
        return;
      }
      completed := PowerUp();
    }

    method StartPowerOff()
      modifies this
      ensures Did(Step.StartPowerOff(old(st), i), true)
    {
      var _ := Act(Step.MachineOffAction(st, i), Step.ByDrain);
      SetPhase(PoweringOff);                      // even if refused: this phase retries and forces
    }

    method Drained()
      modifies this
      ensures Did(Step.Drained(old(st), i), true)
    {
      if i.config.offMode == SuspendIfS3 {
        var s3 := ProbeSleep();
        if s3.None? && Step.InPhaseFor(st, i.now) <= PROBE_WAIT_SECS {
          return;                                 // not known yet; after the wait it is a shutdown
        }
      }
      StartPowerOff();
    }

    method Drain() returns (completed: bool)
      modifies this
      ensures Did(Step.Drain(old(st), i), completed)
    {
      completed := true;
      var remaining, blocked := 0, 0;
      for k := 0 to |i.pods|
        invariant remaining >= 0 && blocked >= 0
        invariant remaining == 0 && blocked == 0
          <==> forall j :: 0 <= j < k ==> i.pods[j] == Scheduling.Ignore
      {
        match i.pods[k] {
          case Ignore =>
          case Block => blocked := blocked + 1;
          case Evict => remaining := remaining + 1;
        }
      }
      if remaining == 0 && blocked == 0 {
        Drained();
        return;
      }
      if Step.InPhaseFor(st, i.now) <= i.config.drainTimeout {
        return;
      }
      if i.config.forceAfterDrain {
        StartPowerOff();
        return;
      }
      st := st.(drainFailedAt := Some(i.now));
      if i.config.policy == Auto {
        var pool := if st.decision.Some? then st.decision.value.pool
                    else if st.pools != [] then st.pools[0] else "";
        st := st.(decision := Some(Decision(pool, TurnOn, i.now)));
        completed := Uncordon();
        if completed {
          SetPhase(On);
        }
      } else {
        st := st.(phaseSince := Some(i.now));
      }
    }

    method WaitForPowerOff()
      modifies this
      ensures Did(Step.WaitForPowerOff(old(st), i), true)
    {
      var shutdown := i.config.shutdownTimeout;
      var settle := if shutdown < STANDBY_SETTLE_SECS then shutdown else STANDBY_SETTLE_SECS;
      if st.standbySince.Some? && Step.InPhaseFor(st, i.now) > settle {
        StandbyFailed();
        var _ := Act(PowerOff, Step.ByEnsureOff);
        st := st.(phaseSince := Some(i.now));
      } else if Step.InPhaseFor(st, i.now) > shutdown {
        if !Step.ForcedLately(st, i.now) {
          var _ := Act(ForceOff, Step.ByEnsureOff);
          st := st.(forcedOffAt := Some(i.now));
          st := st.(standbySince := None);
        }
      } else {
        var action := Step.MachineOffAction(st, i);
        if st.lastAction.Some? && !st.lastAction.value.succeeded
           && Step.SinceLastAction(st, action, i.now) > RETRY_ACTION_AFTER / 3 {
          var _ := Act(action, Step.ByEnsureOff);
        }
      }
    }

    method EnsureOff() returns (completed: bool)
      modifies this
      ensures Did(Step.EnsureOff(old(st), i), completed)
    {
      completed := true;
      if st.phase == Standby && st.standbySince.Some? && st.nodeReady && st.power != ReadsOff {
        StandbyFailed();
        st := st.(standbySince := None);
      }
      if st.power == ReadsOff || InStandby(st.phase, st.standbySince.Some?, st.nodeReady) {
        SetPhase(if st.standbySince.Some? then Standby else Off);
        st := st.(forcedOffAt := None);
        return;
      }
      if st.phase == PoweringOff {
        WaitForPowerOff();
      } else if st.phase == Draining {
        completed := Drain();
      } else if i.nodeFound {
        completed := i.cordonOk;
        if completed {
          effects := effects + [Step.CordonNode];
          SetPhase(Draining);
        }
      }
    }

    method Observe()
      modifies this`st
      ensures st == Step.Observe(old(st), i.now)
    {
      if InStandby(st.phase, st.standbySince.Some?, st.nodeReady) {
        return;
      }
      match st.power {
        case ReadsOn => SetPhase(if st.nodeReady then On else PoweringOn);
        case ReadsOff => SetPhase(Off);
        case ReadsUnknown => SetPhase(Unknown);
      }
    }

    /** Node readiness and membership; a decision of a pool this machine left is dropped. */
    method Refresh()
      modifies this`st
      ensures st == Step.Refreshed(old(st), i)
    {
      st := st.(nodeReady := i.nodeReady);
      st := st.(pools := i.pools);
      if st.decision.Some? && st.decision.value.pool !in st.pools {
        st := st.(decision := None);
      }
    }

    /** Reading, consistency gate, manual change and boot tracking. */
    method Conclude(before: Status) returns (event: BootEvent)
      requires i.reading.Some? && st == Step.Refreshed(before, i)
      modifies this`st
      ensures (st, event) == Step.Concluded(before, i)
    {
      st := st.(power := i.reading.value);
      st := st.(inconsistent := !Step.ReadingIsConsistent(st, i));
      var change := DetectManualChange(before, st, i.now, i.bootTimeout, i.config.shutdownTimeout);
      if st.power == ReadsOff && !st.nodeReady && change != PoweredOn {
        st := st.(manualOn := None);
      }
      event := TrackBoot();
      ManualChangeSeen(change);
    }

    method Drive() returns (completed: bool)
      modifies this
      ensures Did(Step.Drive(old(st), i), completed)
    {
      completed := true;
      if !i.nodeFound || st.inconsistent {
        Observe();                                // safety gates failed: never act
        return;
      }
      match ManagedTarget(i.config.policy, st, i.manualPolicy) {
        case None => Observe();
        case Some(TurnOn) => completed := EnsureOn();
        case Some(TurnOff) => completed := EnsureOff();
      }
    }

    method Run() returns (completed: bool)
      modifies this
      ensures Did(Step.Reconciled(old(st), i), completed)
    {
      var before := st;
      completed := true;
      Refresh();
      if !i.chainBuilt {
        st := st.(phase := Error);
        st := st.(power := ReadsUnknown);
        return;
      }
      if i.reading.None? {
        st := st.(power := ReadsUnknown);
        return;
      }
      var event := Conclude(before);
      var handled := Boot(event);
      if !handled {
        completed := Drive();
      }
    }
  }

  /** Reads the stored status, reconciles, and stores the result unless a Kubernetes call failed on
      the way or in storing it. */
  method Reconcile(before: Status, i: Step.Inputs) returns (stored: Status, effects: seq<Step.Effect>)
    ensures effects == Step.Reconciled(before, i).effects
    ensures stored == var o := Step.Reconciled(before, i); if o.completed && i.storedOk then o.st else before
  {
    var r := new Reconciler(before, i);
    var completed := r.Run();
    effects := r.effects;
    stored := if completed && i.storedOk then r.st else before;
  }
}
