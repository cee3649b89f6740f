/** The power-state consistency gate: when a reading is not believed, and what then happens
    (`src/controller/node_power_management_config.rs`). */
module GateSafety {
  import opened Prelude
  import opened Clock
  import opened MachineStatus
  import opened MachineStep
  import opened MachineRuns
  import ManualChanges

  /** The action was to take the machine offline, at most 90 seconds ago. */
  predicate OffLately(action: Option<ActionRecord>, now: int) {
    action.Some? && action.value.action != PowerOn && NumSeconds(now - action.value.time) <= 90
  }

  /** The interface says Off while the kubelet is demonstrably alive: its Node is Ready and its lease at
      most 15 seconds old; and no power-off or suspend of ours is recent enough to explain that. */
  predicate Contradicted(before: Status, i: Inputs) {
    && i.reading == Some(ReadsOff) && i.nodeReady
    && i.leaseAge.Some? && i.leaseAge.value <= 15
    && !OffLately(before.lastAction, i.now)
  }

  lemma MarkedByReading(before: Status, i: Inputs)
    requires Reads(i)
    ensures WithReading(before, i).inconsistent <==> Contradicted(before, i)
  {
  }

  // ----- nothing but a reading changes the mark ---------------------------------------------

  predicate SameMark(o: Status, st: Status) { o.inconsistent == st.inconsistent }

  lemma ConcludedKeepsMark(before: Status, i: Inputs)
    requires Reads(i)
    ensures SameMark(Concluded(before, i).0, WithReading(before, i))
  {
    var st := BeforeBoot(before, i);
    assert SameMark(st, WithReading(before, i)) && SameMark(TrackBoot(st, i.now, i.bootTimeout).0, st);
  }

  lemma StartPowerOffKeepsMark(st: Status, i: Inputs)
    ensures SameMark(StartPowerOff(st, i).st, st)
  {
  }

  lemma DrainedKeepsMark(st: Status, i: Inputs)
    ensures SameMark(Drained(st, i).st, st)
  {
    var probed := ProbeSleep(st, i).0;
    assert SameMark(probed, st);
    StartPowerOffKeepsMark(st, i);
    StartPowerOffKeepsMark(probed, i);
  }

  lemma DrainKeepsMark(st: Status, i: Inputs)
    ensures SameMark(Drain(st, i).st, st)
  {
    DrainedKeepsMark(st, i);
    StartPowerOffKeepsMark(st, i);
    assert SameMark(DrainTimedOut(st, i).st, st);
  }

  lemma WaitForPowerOffKeepsMark(st: Status, i: Inputs)
    ensures SameMark(WaitForPowerOff(st, i).st, st)
  {
  }

  lemma EnsureOffKeepsMark(st: Status, i: Inputs)
    ensures SameMark(EnsureOff(st, i).st, st)
  {
    var woken := WokeByItself(st, i.now);
    assert SameMark(woken, st);
    WaitForPowerOffKeepsMark(woken, i);
    DrainKeepsMark(woken, i);
  }

  lemma PowerUpKeepsMark(st: Status, i: Inputs)
    ensures SameMark(PowerUp(st, i).st, st)
  {
  }

  lemma OnlineKeepsMark(st: Status, i: Inputs)
    ensures SameMark(Online(st, i).st, st)
  {
    var on := SetPhase(st, On, i.now).(forcedOffAt := None, standbySince := None);
    assert SameMark(ProbeSleep(on, i).0, st);
  }

  lemma ReleaseKeepsMark(st: Status, i: Inputs)
    ensures SameMark(ReleaseFailedPowerOn(st, i).st, st)
  {
  }

  lemma EnsureOnKeepsMark(st: Status, i: Inputs)
    ensures SameMark(EnsureOn(st, i).st, st)
  {
    OnlineKeepsMark(st, i);
    ReleaseKeepsMark(st, i);
    PowerUpKeepsMark(st, i);
  }

  lemma BootKeepsMark(st: Status, event: BootEvent, i: Inputs)
    ensures SameMark(Boot(st, event, i).out.st, st)
  {
  }

  lemma DriveKeepsMark(st: Status, i: Inputs)
    ensures SameMark(Drive(st, i).st, st)
  {
    assert SameMark(Observe(st, i.now), st);
    EnsureOnKeepsMark(st, i);
    EnsureOffKeepsMark(st, i);
  }

  lemma HandleKeepsMark(st: Status, event: BootEvent, i: Inputs)
    ensures SameMark(Handle(st, event, i).st, st)
  {
    BootKeepsMark(st, event, i);
    if !Boot(st, event, i).handled {
      DriveKeepsMark(st, i);
    }
  }

  // ----- the gate ---------------------------------------------------------------------------

  /** A reconcile marks the machine inconsistent if and only if its reading is contradicted; without a
      reading the mark stays as it was. */
  lemma MarkExact(before: Status, i: Inputs)
    ensures Reconciled(before, i).st.inconsistent <==> if Reads(i) then Contradicted(before, i) else before.inconsistent
  {
    if Reads(i) {
      MarkedByReading(before, i);
      ConcludedKeepsMark(before, i);
      HandleKeepsMark(Concluded(before, i).0, Concluded(before, i).1, i);
    }
  }

  /** A contradicted reading has no effect at all. */
  lemma ContradictedIsNotActedOn(before: Status, i: Inputs)
    requires Reads(i) && Contradicted(before, i)
    ensures Reconciled(before, i).effects == [] && Reconciled(before, i).completed
  {
    MarkedByReading(before, i);
    ConcludedKeepsMark(before, i);
    var (c, event) := Concluded(before, i);
    assert c.nodeReady && c.inconsistent && event != Failed;
    assert Handle(c, event, i) == Stay(Observe(c, i.now));
  }

  /** After every run: the reading is contradicted unless the last action whose status was stored took
      the machine offline within 90 seconds. */
  lemma {:induction false} ContradictedAfterExact(run: seq<Event>, i: Inputs)
    requires Reads(i)
    ensures Reconciled(StatusAfter(run), i).st.inconsistent <==>
      && i.reading == Some(ReadsOff) && i.nodeReady && i.leaseAge.Some? && i.leaseAge.value <= 15
      && !(ManualChanges.LastStored(run).Some? && OffLately(Some(ManualChanges.LastStored(run).value.record), i.now))
  {
    MarkExact(StatusAfter(run), i);
    ManualChanges.RecordedActionExact(run);
  }
}
