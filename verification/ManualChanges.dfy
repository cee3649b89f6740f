/** Whether our own power changes are told apart from those made by hand, over whole runs
    (`detect_manual_change` in `src/controller/node_power_management_config.rs`). */
module ManualChanges {
  import opened Prelude
  import opened Clock
  import opened MachineStatus
  import opened MachineStep
  import opened MachineRuns
  import BootSafety
  import LeaveOnSafety
  import FailureRuns

  // ----- what the operator did --------------------------------------------------------------

  /** A power action that was issued, and whether the status recording it was stored. */
  datatype Deed = Deed(record: ActionRecord, stored: bool)

  /** The power action the last event of a run issued. */
  function DeedNow(run: seq<Event>): Option<Deed>
    requires run != []
  {
    var o := LastOutcome(run);
    if Last(run).Reconcile? && o.effects != [] && o.effects[0].Issued?
    then Some(Deed(ActionRecord(o.effects[0].action, Last(run).i.now, Last(run).i.accepted), o.completed)) else None
  }

  /** The last power action issued in a run. */
  function LastDeed(run: seq<Event>): Option<Deed> {
    if run == [] then None else if DeedNow(run).Some? then DeedNow(run) else LastDeed(Init(run))
  }

  /** The last one whose status was stored. */
  function LastStored(run: seq<Event>): Option<Deed> {
    if run == [] then None
    else if DeedNow(run).Some? && DeedNow(run).value.stored then DeedNow(run)
    else LastStored(Init(run))
  }

  /** An action that was stored is the one known. */
  lemma {:induction false} StoredDeedIsKnown(run: seq<Event>)
    ensures LastDeed(run).Some? && LastDeed(run).value.stored ==> LastStored(run) == LastDeed(run)
  {
    if run != [] {
      StoredDeedIsKnown(Init(run));
    }
  }

  // ----- the status records what was done ---------------------------------------------------

  /** The action on record changes with an action issued, and only then. */
  predicate Records(st: Status, o: Outcome, i: Inputs) {
    o.st.lastAction ==
      if o.effects != [] && o.effects[0].Issued? then Some(ActionRecord(o.effects[0].action, i.now, i.accepted))
      else st.lastAction
  }

  lemma OnlineRecords(st: Status, i: Inputs)
    ensures Records(st, Online(st, i), i)
  {
    var on := SetPhase(st, On, i.now).(forcedOffAt := None, standbySince := None);
    assert ProbeSleep(on, i).0.lastAction == st.lastAction;
  }

  lemma PowerUpRecords(st: Status, i: Inputs)
    ensures Records(st, PowerUp(st, i), i)
  {
  }

  lemma StartPowerOffRecords(st: Status, i: Inputs)
    ensures Records(st, StartPowerOff(st, i), i) && StartPowerOff(st, i).effects != []
  {
  }

  lemma DrainedRecords(st: Status, i: Inputs)
    ensures Records(st, Drained(st, i), i)
  {
    var probed := ProbeSleep(st, i).0;
    assert probed.lastAction == st.lastAction;
    StartPowerOffRecords(st, i);
    StartPowerOffRecords(probed, i);
  }

  lemma DrainRecords(st: Status, i: Inputs)
    ensures Records(st, Drain(st, i), i)
  {
    DrainedRecords(st, i);
    StartPowerOffRecords(st, i);
    assert Records(st, DrainTimedOut(st, i), i);
  }

  lemma WaitForPowerOffRecords(st: Status, i: Inputs)
    ensures Records(st, WaitForPowerOff(st, i), i)
  {
  }

  lemma EnsureOffRecords(st: Status, i: Inputs)
    ensures Records(st, EnsureOff(st, i), i)
  {
    var woken := WokeByItself(st, i.now);
    assert woken.lastAction == st.lastAction;
    WaitForPowerOffRecords(woken, i);
    DrainRecords(woken, i);
  }

  lemma EnsureOnRecords(st: Status, i: Inputs)
    ensures Records(st, EnsureOn(st, i), i)
  {
    OnlineRecords(st, i);
    PowerUpRecords(st, i);
    assert Records(st, ReleaseFailedPowerOn(st, i), i);
  }

  lemma BootRecords(st: Status, event: BootEvent, i: Inputs)
    ensures Records(st, Boot(st, event, i).out, i)
  {
  }

  lemma DriveRecords(st: Status, i: Inputs)
    ensures Records(st, Drive(st, i), i)
  {
    EnsureOnRecords(st, i);
    EnsureOffRecords(st, i);
    assert Observe(st, i.now).lastAction == st.lastAction;
  }

  lemma HandleRecords(st: Status, event: BootEvent, i: Inputs)
    ensures Records(st, Handle(st, event, i), i)
  {
    BootRecords(st, event, i);
    if !Boot(st, event, i).handled {
      DriveRecords(st, i);
    }
  }

  lemma ConcludedKeepsAction(before: Status, i: Inputs)
    requires Reads(i)
    ensures Concluded(before, i).0.lastAction == before.lastAction
  {
    var st := BeforeBoot(before, i);
    assert st.lastAction == before.lastAction && TrackBoot(st, i.now, i.bootTimeout).0.lastAction == st.lastAction;
  }

  lemma ReconciledRecords(st: Status, i: Inputs)
    ensures Records(st, Reconciled(st, i), i)
  {
    if Reads(i) {
      ConcludedKeepsAction(st, i);
      HandleRecords(Concluded(st, i).0, Concluded(st, i).1, i);
    }
  }

  /** In every run the action on record is the last one issued whose status was stored. */
  lemma {:induction false} RecordedActionExact(run: seq<Event>)
    ensures StatusAfter(run).lastAction ==
      if LastStored(run).Some? then Some(LastStored(run).value.record) else None
  {
    if run != [] {
      RecordedActionExact(Init(run));
      if Last(run).Reconcile? {
        ReconciledRecords(StatusAfter(Init(run)), Last(run).i);
      }
    }
  }

  // ----- when a change of ours is taken for a manual one ------------------------------------

  predicate ExplainsOn(d: Option<Deed>, i: Inputs) {
    d.Some? && d.value.record.action == PowerOn && NumSeconds(i.now - d.value.record.time) <= i.bootTimeout
  }

  predicate ExplainsOff(d: Option<Deed>, i: Inputs) {
    d.Some? && d.value.record.action != PowerOn && NumSeconds(i.now - d.value.record.time) <= i.config.shutdownTimeout + 300
  }

  /** Stored as off, and seen on; or in standby for too long to have woken by itself, and seen Ready. */
  predicate ComesOn(before: Status, i: Inputs) {
    || (before.phase == Off && (i.reading == Some(ReadsOn) || i.nodeReady))
    || (before.phase == Standby && i.nodeReady
        && (before.standbySince.None? || NumSeconds(i.now - before.standbySince.value) > SPONTANEOUS_WAKE_SECS))
  }

  /** Stored as on and reading on, booting or not, and seen off. */
  predicate GoesOff(before: Status, i: Inputs) {
    && (before.phase == On || before.phase == PoweringOn || before.phase == BootFailed)
    && before.power == ReadsOn && i.reading == Some(ReadsOff) && !i.nodeReady
  }

  /** The last power action was ours and was accepted, and the next reconcile reports the change that it
      makes as done by hand. */
  predicate TakenForManual(run: seq<Event>, i: Inputs) {
    && Reads(i) && LastDeed(run).Some? && LastDeed(run).value.record.succeeded
    && ChangeSeen(StatusAfter(run), i) == if LastDeed(run).value.record.action == PowerOn then PoweredOn else PoweredOff
  }

  lemma ReadingKeepsAction(before: Status, i: Inputs)
    requires Reads(i)
    ensures var st := WithReading(before, i);
      st.lastAction == before.lastAction && st.power == i.reading.value && st.nodeReady == i.nodeReady
  {
  }

  lemma ChangeExact(before: Status, i: Inputs)
    requires Reads(i)
    ensures ChangeSeen(before, i) == PoweredOn
      <==> ComesOn(before, i) && !AtMost(OnActionAge(before, i.now), i.bootTimeout)
    ensures ChangeSeen(before, i) == PoweredOff
      <==> GoesOff(before, i) && !AtMost(OffActionAge(before, i.now), i.config.shutdownTimeout + 300)
  {
    ReadingKeepsAction(before, i);
  }

  lemma {:induction false} AgesAreThoseOfDeeds(run: seq<Event>, i: Inputs)
    ensures var st := StatusAfter(run);
      && (AtMost(OnActionAge(st, i.now), i.bootTimeout) <==> ExplainsOn(LastStored(run), i))
      && (AtMost(OffActionAge(st, i.now), i.config.shutdownTimeout + 300) <==> ExplainsOff(LastStored(run), i))
  {
    RecordedActionExact(run);
  }

  /** After every run, a power change of ours is taken for a manual one if and only if the machine
      comes on from stored Off or a long standby, or goes off from stored on, and no action whose
      status was stored explains it: ours was lost, or is older than the boot timeout (for a
      power-off, the shutdown timeout and 300 seconds). */
  lemma {:induction false} OursTakenForManualExact(run: seq<Event>, i: Inputs)
    requires Reads(i) && LastDeed(run).Some? && LastDeed(run).value.record.succeeded
    ensures TakenForManual(run, i) <==>
      if LastDeed(run).value.record.action == PowerOn
      then ComesOn(StatusAfter(run), i) && !ExplainsOn(LastStored(run), i)
      else GoesOff(StatusAfter(run), i) && !ExplainsOff(LastStored(run), i)
    ensures LastDeed(run).value.stored ==> LastStored(run) == LastDeed(run)
  {
    ChangeExact(StatusAfter(run), i);
    AgesAreThoseOfDeeds(run, i);
    StoredDeedIsKnown(run);
  }

  // ----- a stored PowerOn, as long as the machine is not seen down --------------------------

  /** A completed reconcile after time `t` read the power, and not as on. */
  ghost predicate SeenDownAfter(run: seq<Event>, t: int) {
    run != [] &&
    (SeenDownAfter(Init(run), t) ||
     (Last(run).Reconcile? && LastOutcome(run).completed && Last(run).i.now > t
      && Reads(Last(run).i) && Last(run).i.reading != Some(ReadsOn)))
  }

  predicate Up(phase: Phase) { phase != Off && phase != Standby && phase != PoweringOff }

  predicate ReadsUp(i: Inputs) { Reads(i) ==> i.reading == Some(ReadsOn) }

  /** An outcome that leaves the machine up, or acted on. */
  predicate LeftUp(o: Outcome) { Up(o.st.phase) || (o.effects != [] && o.effects[0].Issued?) }

  lemma OnlineLeavesUp(st: Status, i: Inputs)
    requires Up(st.phase)
    ensures LeftUp(Online(st, i))
  {
    var on := SetPhase(st, On, i.now).(forcedOffAt := None, standbySince := None);
    assert ProbeSleep(on, i).0.phase == On;
  }

  lemma EnsureOnLeavesUp(st: Status, i: Inputs)
    requires Up(st.phase) && st.power == ReadsOn
    ensures LeftUp(EnsureOn(st, i))
  {
    OnlineLeavesUp(st, i);
    assert LeftUp(ReleaseFailedPowerOn(st, i));
    assert LeftUp(PowerUp(st, i));
  }

  lemma StartPowerOffActs(st: Status, i: Inputs)
    ensures LeftUp(StartPowerOff(st, i))
  {
    assert StartPowerOff(st, i).effects[0].Issued?;
  }

  lemma DrainedLeavesUp(st: Status, i: Inputs)
    requires Up(st.phase)
    ensures LeftUp(Drained(st, i))
  {
    var probed := ProbeSleep(st, i).0;
    assert probed.phase == st.phase;
    StartPowerOffActs(st, i);
    StartPowerOffActs(probed, i);
  }

  lemma DrainLeavesUp(st: Status, i: Inputs)
    requires Up(st.phase)
    ensures LeftUp(Drain(st, i))
  {
    DrainedLeavesUp(st, i);
    StartPowerOffActs(st, i);
    BootSafety.DrainTimedOutSameBoot(st, i);
  }

  lemma EnsureOffLeavesUp(st: Status, i: Inputs)
    requires Up(st.phase) && st.power == ReadsOn
    ensures LeftUp(EnsureOff(st, i))
  {
    var woken := WokeByItself(st, i.now);
    assert woken == st;
    DrainLeavesUp(st, i);
  }

  lemma HandleLeavesUp(st: Status, event: BootEvent, i: Inputs)
    requires Up(st.phase) && st.power == ReadsOn
    ensures LeftUp(Handle(st, event, i))
  {
    assert Boot(st, event, i).handled ==> Boot(st, event, i).out.st.phase == BootFailed;
    EnsureOnLeavesUp(st, i);
    EnsureOffLeavesUp(st, i);
  }

  lemma ConcludedKeepsPhase(before: Status, i: Inputs)
    requires Reads(i)
    ensures var c := Concluded(before, i).0; c.phase == before.phase && c.power == i.reading.value
  {
  }

  lemma ReconciledLeavesUp(st: Status, i: Inputs)
    requires Up(st.phase) && ReadsUp(i)
    ensures LeftUp(Reconciled(st, i))
  {
    if Reads(i) {
      ConcludedKeepsPhase(st, i);
      HandleLeavesUp(Concluded(st, i).0, Concluded(st, i).1, i);
    }
  }

  lemma {:induction false} DeedIsPast(run: seq<Event>)
    requires Orderly(run) && LastDeed(run).Some?
    ensures LastTime(run).Some? && LastDeed(run).value.record.time <= LastTime(run).value
  {
    if DeedNow(run).None? {
      DeedIsPast(Init(run));
    }
  }

  /** What the comment at the detection says: our PowerOn passes through PoweringOn, and the machine
      stays up in the status as long as no reading contradicts that. */
  lemma {:induction false} PowerOnPassesThrough(run: seq<Event>)
    requires Orderly(run) && LastDeed(run).Some?
    requires LastDeed(run).value.stored && LastDeed(run).value.record.action == PowerOn
    requires !SeenDownAfter(run, LastDeed(run).value.record.time)
    ensures Up(StatusAfter(run).phase)
  {
    var st, e := StatusAfter(Init(run)), Last(run);
    if DeedNow(run).Some? {
      assert Reconciled(st, e.i).effects[0].action == PowerOn;
      BootSafety.PowerOnLeavesOff(st, e.i);
    } else {
      PowerOnPassesThrough(Init(run));
      if e.Reconcile? && LastOutcome(run).completed {
        DeedIsPast(Init(run));
        ReconciledLeavesUp(st, e.i);
      }
    }
  }

  lemma {:induction false} DownWasSeen(run: seq<Event>)
    requires Orderly(run) && LastDeed(run).Some? && !Up(StatusAfter(run).phase)
    requires LastDeed(run).value.stored && LastDeed(run).value.record.action == PowerOn
    ensures SeenDownAfter(run, LastDeed(run).value.record.time)
  {
    if !SeenDownAfter(run, LastDeed(run).value.record.time) {
      PowerOnPassesThrough(run);
    }
  }

  lemma ComesOnFromDown(before: Status, i: Inputs)
    requires Reads(i) && ChangeSeen(before, i) == PoweredOn
    ensures !Up(before.phase) && !AtMost(OnActionAge(before, i.now), i.bootTimeout)
  {
    ChangeExact(before, i);
  }

  lemma {:induction false} OldWhenUnexplained(run: seq<Event>, i: Inputs)
    requires LastDeed(run).Some? && LastDeed(run).value.stored && LastDeed(run).value.record.action == PowerOn
    requires !AtMost(OnActionAge(StatusAfter(run), i.now), i.bootTimeout)
    ensures !ExplainsOn(LastDeed(run), i)
  {
    AgesAreThoseOfDeeds(run, i);
    StoredDeedIsKnown(run);
  }

  /** So a stored PowerOn is taken for a manual one only when a reconcile since then did not read the
      machine on, and only past the boot timeout, when it explains nothing any more. */
  lemma {:induction false} StoredPowerOnTaken(run: seq<Event>, i: Inputs)
    requires Orderly(run) && TakenForManual(run, i)
    requires LastDeed(run).value.stored && LastDeed(run).value.record.action == PowerOn
    ensures SeenDownAfter(run, LastDeed(run).value.record.time)
    ensures !ExplainsOn(LastDeed(run), i)
  {
    ComesOnFromDown(StatusAfter(run), i);
    DownWasSeen(run);
    OldWhenUnexplained(run, i);
  }

  // ----- it happens, with and without a failure ---------------------------------------------

  lemma FaultlessCompletes(st: Status, i: Inputs)
    requires Faultless(i)
    ensures Reconciled(st, i).completed
  {
    if Reads(i) {
      FaultlessHandles(Concluded(st, i).0, Concluded(st, i).1, i);
    }
  }

  lemma FaultlessDrains(st: Status, i: Inputs)
    requires Faultless(i)
    ensures Drain(st, i).completed
  {
  }

  lemma FaultlessEnsuresOff(st: Status, i: Inputs)
    requires Faultless(i)
    ensures EnsureOff(st, i).completed
  {
    var woken := WokeByItself(st, i.now);
    FaultlessDrains(woken, i);
    assert WaitForPowerOff(woken, i).completed;
  }

  lemma FaultlessPowersUp(st: Status, i: Inputs)
    requires Faultless(i)
    ensures PowerUp(st, i).completed
  {
  }

  lemma FaultlessEnsuresOn(st: Status, i: Inputs)
    requires Faultless(i)
    ensures EnsureOn(st, i).completed
  {
    FaultlessPowersUp(st, i);
    assert Online(st, i).completed && ReleaseFailedPowerOn(st, i).completed;
  }

  lemma FaultlessHandles(st: Status, event: BootEvent, i: Inputs)
    requires Faultless(i)
    ensures Handle(st, event, i).completed
  {
    assert Boot(st, event, i).out.completed;
    FaultlessEnsuresOff(st, i);
    FaultlessEnsuresOn(st, i);
  }

  lemma {:induction false} FaultlessIsKnown(run: seq<Event>)
    requires FaultlessRun(run)
    ensures LastStored(run) == LastDeed(run)
    ensures LastDeed(run).Some? ==> LastDeed(run).value.stored
  {
    if run != [] {
      assert Last(run) in run && forall e <- Init(run) :: e in run;
      FaultlessIsKnown(Init(run));
      if Last(run).Reconcile? {
        FaultlessCompletes(StatusAfter(Init(run)), Last(run).i);
      }
    }
  }

  /** With nothing failing: a power-on the interface lost sight of, released on an Unknown reading, is
      seen on after all, longer than the boot timeout after our PowerOn. */
  lemma ReleasedPowerOnLooksManual() returns (run: seq<Event>, i: Inputs)
    ensures Orderly(run + [Reconcile(i)]) && FaultlessRun(run)
    ensures LastDeed(run) == Some(Deed(ActionRecord(PowerOn, Seconds(1), true), true)) && TakenForManual(run, i)
  {
    run := LeaveOnSafety.ReleasedRun();
    i := LeaveOnSafety.Reading(2001, ReadsOn);
    OneMore(run, Reconcile(i));
    FaultlessIsKnown(run);
    RecordedActionExact(run);
    LeaveOnSafety.ReleasedFindsManualPowerOn();
  }

  /** With nothing failing: the machine took longer to shut down after a failed boot than the shutdown
      timeout and 300 seconds, and nothing was reconciled meanwhile. */
  lemma SlowPowerOffLooksManual() returns (run: seq<Event>, i: Inputs)
    ensures Orderly(run + [Reconcile(i)]) && FaultlessRun(run)
    ensures LastDeed(run) == Some(Deed(ActionRecord(PowerOff, Seconds(2000), true), true)) && TakenForManual(run, i)
  {
    run := FailureRuns.FailedRun();
    i := FailureRuns.Reading(2601, FailureRuns.Watched(), Some(ReadsOff), false);
    OneMore(run, Reconcile(i));
    FaultlessIsKnown(run);
    RecordedActionExact(run);
    OursTakenForManualExact(run, i);
  }

  function CutUnstored(): Inputs {
    FailureRuns.Reading(3000, FailureRuns.Watched(), Some(ReadsOn), false).(storedOk := false)
  }

  lemma CutUnstoredRun() returns (run: seq<Event>)
    ensures Reached(run, Some(Seconds(3000)), FailureRuns.FailedToBoot())
    ensures LastDeed(run) == Some(Deed(ActionRecord(ForceOff, Seconds(3000), true), false))
    ensures LastStored(run) == Some(Deed(ActionRecord(PowerOff, Seconds(2000), true), true))
  {
    var start := FailureRuns.FailedRun();
    BootSafety.StillFailedIsForced(FailureRuns.FailedToBoot(), CutUnstored());
    OneMore(start, Reconcile(CutUnstored()));
    FaultlessIsKnown(start);
    RecordedActionExact(start);
    run := start + [Reconcile(CutUnstored())];
    assert Init(run) == start;
  }

  /** The power is cut after a failed boot and the status lost: going off is then taken for manual. */
  lemma LostForceOffLooksManual() returns (run: seq<Event>, i: Inputs)
    ensures Orderly(run + [Reconcile(i)])
    ensures LastDeed(run) == Some(Deed(ActionRecord(ForceOff, Seconds(3000), true), false)) && TakenForManual(run, i)
  {
    run := CutUnstoredRun();
    i := FailureRuns.Reading(3010, FailureRuns.Watched(), Some(ReadsOff), false);
    OneMore(run, Reconcile(i));
    OursTakenForManualExact(run, i);
  }
}
