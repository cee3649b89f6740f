/** Concrete runs from an untouched object in which a boot failure, or a standby, cuts the power where
    the documentation promises otherwise (`src/controller/node_power_management_config.rs`). */
module FailureRuns {
  import opened Prelude
  import opened Clock
  import opened MachineStatus
  import opened MachineStep
  import opened MachineRuns
  import BootSafety
  import OverrideSafety
  import DrainSafety

  function Settings(policy: PowerPolicy, mode: OffMode): Config { Config(policy, mode, 300, 300, false) }

  /** A reconcile of a machine no pool selects, with nothing failing. */
  function Reading(seconds: int, config: Config, power: Option<PowerState>, ready: bool): Inputs {
    Inputs(Seconds(seconds), config, true, ready, [], true, power, None, None, Pending, [],
           Adopt, 1200, Release, 1200, true, true, true, true)
  }

  /** A run without pool decisions that reached `st` at time `at`. */
  predicate Came(run: seq<Event>, at: Option<int>, st: Status) {
    Reached(run, at, st) && forall e <- run :: !e.Decide?
  }

  lemma OneMoreReading(run: seq<Event>, at: Option<int>, before: Status, i: Inputs, after: Status)
    requires Came(run, at, before) && Plausible(i) && Later(at, i.now) && Next(before, Reconcile(i)).st == after
    ensures Came(run + [Reconcile(i)], Some(i.now), after)
    ensures LastOutcome(run + [Reconcile(i)]) == Next(before, Reconcile(i))
  {
    OneReconcileMore(run, at, before, i, after);
    assert Init(run + [Reconcile(i)]) == run;
  }

  // ----- a boot that failed under Auto ------------------------------------------------------

  function Watched(): Config { Settings(Auto, ShutDown) }

  function Booting(): Status {
    DEFAULT_STATUS.(phase := PoweringOn, phaseSince := Some(Seconds(1)), power := ReadsOn,
                    notReadySince := Some(Seconds(1)))
  }

  function FailedToBoot(): Status {
    Booting().(phase := BootFailed, phaseSince := Some(Seconds(2000)),
               bootFailure := Some(BootFailure(Seconds(2000), false)),
               lastAction := Some(ActionRecord(PowerOff, Seconds(2000), true)))
  }

  lemma BootingRun() returns (run: seq<Event>)
    ensures Came(run, Some(Seconds(1)), Booting()) && |run| == 1 && LastOutcome(run).effects == [] && FaultlessRun(run)
  {
    var i := Reading(1, Watched(), Some(ReadsOn), false);
    var c := DEFAULT_STATUS.(power := ReadsOn, notReadySince := Some(Seconds(1)));
    assert Concluded(DEFAULT_STATUS, i) == (c, NoEvent);
    assert Handle(c, NoEvent, i) == Stay(Observe(c, i.now));
    var none: seq<Event> := [];
    assert Came(none, None, DEFAULT_STATUS);
    OneMoreReading(none, None, DEFAULT_STATUS, i, Booting());
    run := none + [Reconcile(i)];
  }

  lemma FailedRun() returns (run: seq<Event>)
    ensures Came(run, Some(Seconds(2000)), FailedToBoot()) && |run| == 2 && FaultlessRun(run)
  {
    var i := Reading(2000, Watched(), Some(ReadsOn), false);
    var c := Booting().(bootFailure := Some(BootFailure(Seconds(2000), false)));
    assert Concluded(Booting(), i) == (c, Failed);
    assert Handle(c, Failed, i) == BootJustFailed(c, i);
    run := BootingRun();
    OneMoreReading(run, Some(Seconds(1)), Booting(), i, FailedToBoot());
    run := run + [Reconcile(i)];
  }

  /** That power-off has no cordon: a machine whose boot failed was never drained. */
  lemma FailedBootHasNoCordon() returns (run: seq<Event>)
    ensures Orderly(run) && run != [] && LastOutcome(run).effects == [Issued(PowerOff, ByBoot)]
    ensures !DrainSafety.CordonInForce(run)
  {
    var i := Reading(2000, Watched(), Some(ReadsOn), false);
    var c := Booting().(bootFailure := Some(BootFailure(Seconds(2000), false)));
    assert Concluded(Booting(), i) == (c, Failed);
    assert Handle(c, Failed, i) == BootJustFailed(c, i);
    run := BootingRun();
    NeverCordoned(run);
    OneMoreReading(run, Some(Seconds(1)), Booting(), i, FailedToBoot());
    assert Init(run + [Reconcile(i)]) == run;
    run := run + [Reconcile(i)];
  }

  lemma {:induction false} NeverCordoned(run: seq<Event>)
    requires |run| == 1 && LastOutcome(run).effects == []
    ensures !DrainSafety.CordonInForce(run)
  {
    assert Init(run) == [];
  }

  /** Whatever the policy by then, the failure is acted on while the machine reads on and not Ready. */
  lemma FailureIsActedOn(config: Config)
    requires config.shutdownTimeout == 300
    ensures Reconciled(FailedToBoot(), Reading(3000, config, Some(ReadsOn), false)).effects == [Issued(ForceOff, ByBoot)]
  {
    BootSafety.StillFailedIsForced(FailedToBoot(), Reading(3000, config, Some(ReadsOn), false));
  }

  lemma ThenActedOn(start: seq<Event>, at: int, config: Config)
    requires Came(start, Some(at), FailedToBoot()) && at < Seconds(3000) && config.shutdownTimeout == 300
    ensures var run := start + [Reconcile(Reading(3000, config, Some(ReadsOn), false))];
      Orderly(run) && (forall e <- run :: !e.Decide?) && LastOutcome(run).effects == [Issued(ForceOff, ByBoot)]
  {
    var i := Reading(3000, config, Some(ReadsOn), false);
    FailureIsActedOn(config);
    OneMoreReading(start, Some(at), FailedToBoot(), i, Next(FailedToBoot(), Reconcile(i)).st);
  }

  /** A boot fails under `Auto`; the operator then sets `AlwaysOn`, and the machine is cut off all the
      same: the handler acts on what was decided when the boot failed. */
  lemma OverrideComesTooLate() returns (run: seq<Event>)
    ensures Orderly(run) && run != [] && Last(run).Reconcile? && Last(run).i.config.policy == AlwaysOn
    ensures forall e <- run :: !e.Decide?
    ensures LastOutcome(run).effects == [Issued(ForceOff, ByBoot)]
  {
    var start := FailedRun();
    ThenActedOn(start, Seconds(2000), Settings(AlwaysOn, ShutDown));
    run := start + [Reconcile(Reading(3000, Settings(AlwaysOn, ShutDown), Some(ReadsOn), false))];
  }

  /** The Node becomes Ready, but that reconcile's status cannot be stored. */
  function ReadyUnstored(): Inputs { Reading(2500, Watched(), Some(ReadsOn), true).(storedOk := false) }

  /** The Node becomes Ready while no interface can be read. */
  function ReadyUnread(): Inputs { Reading(2500, Watched(), None, true) }

  /** The failure as it is stored after that: nothing of it has changed. */
  lemma UnstoredChangesNothing()
    ensures Next(FailedToBoot(), Reconcile(ReadyUnstored())).st == FailedToBoot()
  {
  }

  lemma UnstoredRun() returns (run: seq<Event>)
    ensures Came(run, Some(Seconds(2500)), FailedToBoot()) && |run| == 3 && run[2] == Reconcile(ReadyUnstored())
  {
    run := FailedRun();
    UnstoredChangesNothing();
    OneMoreReading(run, Some(Seconds(2000)), FailedToBoot(), ReadyUnstored(), FailedToBoot());
    run := run + [Reconcile(ReadyUnstored())];
  }

  /** A reconcile read the Node Ready after the failure, and lost its status: the old failure is then
      acted on as if that had not been. */
  lemma ReadyButUnstored() returns (run: seq<Event>)
    ensures Orderly(run) && |run| == 4 && run[2] == Reconcile(ReadyUnstored())
    ensures LastOutcome(run).effects == [Issued(ForceOff, ByBoot)]
  {
    run := UnstoredRun();
    ThenActedOn(run, Seconds(2500), Watched());
    run := run + [Reconcile(Reading(3000, Watched(), Some(ReadsOn), false))];
  }

  function SeenUnread(): Status { Unread(FailedToBoot(), ReadyUnread()) }

  lemma UnreadRun() returns (run: seq<Event>)
    ensures Came(run, Some(Seconds(2500)), SeenUnread()) && |run| == 3 && run[2] == Reconcile(ReadyUnread())
  {
    run := FailedRun();
    OneMoreReading(run, Some(Seconds(2000)), FailedToBoot(), ReadyUnread(), SeenUnread());
    run := run + [Reconcile(ReadyUnread())];
  }

  lemma UnreadThenActedOn()
    ensures Reconciled(SeenUnread(), Reading(3000, Watched(), Some(ReadsOn), false)).effects == [Issued(ForceOff, ByBoot)]
  {
    BootSafety.StillFailedIsForced(SeenUnread(), Reading(3000, Watched(), Some(ReadsOn), false));
  }

  /** The same when the power could not be read at that moment. */
  lemma ReadyButUnread() returns (run: seq<Event>)
    ensures Orderly(run) && |run| == 4 && run[2] == Reconcile(ReadyUnread())
    ensures LastOutcome(run).effects == [Issued(ForceOff, ByBoot)]
  {
    var i := Reading(3000, Watched(), Some(ReadsOn), false);
    run := UnreadRun();
    UnreadThenActedOn();
    OneMoreReading(run, Some(Seconds(2500)), SeenUnread(), i, Next(SeenUnread(), Reconcile(i)).st);
    run := run + [Reconcile(i)];
  }

  // ----- a machine suspended under AlwaysOff ------------------------------------------------

  function Sleeping(): Config { Settings(AlwaysOff, Suspend) }

  function Cordoned(): Status {
    DEFAULT_STATUS.(phase := Draining, phaseSince := Some(Seconds(1)), power := ReadsOn, nodeReady := true)
  }

  function Suspended(): Status {
    Cordoned().(phase := PoweringOff, phaseSince := Some(Seconds(2)), standbySince := Some(Seconds(2)),
                lastAction := Some(ActionRecord(SuspendHost, Seconds(2), true)))
  }

  function Waking(): Status {
    Suspended().(phase := PoweringOn, phaseSince := Some(Seconds(3)), nodeReady := false,
                 lastAction := Some(ActionRecord(PowerOn, Seconds(3), true)))
  }

  /** A run under overrides from the start. */
  predicate CameOverridden(run: seq<Event>, at: int, st: Status) {
    Reached(run, if run == [] then None else Some(at), st)
    && OverrideSafety.Overridden(0, run, None) && TimeFrom(0, run) == at
  }

  lemma OneMoreOverride(run: seq<Event>, at: int, before: Status, i: Inputs, after: Status)
    requires CameOverridden(run, at, before) && at < i.now
    requires i.config.policy != Auto && Plausible(i) && Next(before, Reconcile(i)).st == after
    ensures CameOverridden(run + [Reconcile(i)], i.now, after)
    ensures LastOutcome(run + [Reconcile(i)]) == Next(before, Reconcile(i))
  {
    OneReconcileMore(run, if run == [] then None else Some(at), before, i, after);
    assert Init(run + [Reconcile(i)]) == run;
  }

  lemma CordonedRun() returns (run: seq<Event>)
    ensures CameOverridden(run, Seconds(1), Cordoned())
  {
    var i := Reading(1, Sleeping(), Some(ReadsOn), true);
    var c := DEFAULT_STATUS.(power := ReadsOn, nodeReady := true);
    assert Concluded(DEFAULT_STATUS, i) == (c, NoEvent);
    assert Handle(c, NoEvent, i) == EnsureOff(c, i);
    var none: seq<Event> := [];
    assert CameOverridden(none, 0, DEFAULT_STATUS);
    OneMoreOverride(none, 0, DEFAULT_STATUS, i, Cordoned());
    run := none + [Reconcile(i)];
  }

  lemma SuspendedRun() returns (run: seq<Event>)
    ensures CameOverridden(run, Seconds(2), Suspended())
  {
    var i := Reading(2, Sleeping(), Some(ReadsOn), true);
    assert Concluded(Cordoned(), i) == (Cordoned(), NoEvent);
    assert Handle(Cordoned(), NoEvent, i) == StartPowerOff(Cordoned(), i);
    run := CordonedRun();
    OneMoreOverride(run, Seconds(1), Cordoned(), i, Suspended());
    run := run + [Reconcile(i)];
  }

  function Awake(): Config { Settings(AlwaysOn, Suspend) }

  lemma WakingRun() returns (run: seq<Event>)
    ensures CameOverridden(run, Seconds(3), Waking())
  {
    var i := Reading(3, Awake(), Some(ReadsOn), false);
    var c := Suspended().(nodeReady := false);
    assert Concluded(Suspended(), i) == (c, NoEvent);
    assert Handle(c, NoEvent, i) == RequestPowerOn(c, i);
    run := SuspendedRun();
    OneMoreOverride(run, Seconds(2), Suspended(), i, Waking());
    run := run + [Reconcile(i)];
  }

  lemma WakingIsForced()
    ensures Reconciled(Waking(), Reading(2000, Awake(), Some(ReadsOn), false)).effects == [Issued(ForceOff, ByEnsureOn)]
  {
    var i := Reading(2000, Awake(), Some(ReadsOn), false);
    assert Concluded(Waking(), i) == (Waking(), NoEvent);
    assert Handle(Waking(), NoEvent, i) == WaitForPowerOn(Waking(), i);
  }

  /** Under overrides from the start and without any pool: a machine suspended under `AlwaysOff` that
      does not wake under `AlwaysOn` is cut off for a cold boot. */
  lemma AlwaysOnCutsAMachineThatDoesNotWake() returns (run: seq<Event>)
    ensures Orderly(run) && OverrideSafety.Overridden(0, run, None) && run != []
    ensures Last(run).Reconcile? && Last(run).i.config.policy == AlwaysOn
    ensures LastOutcome(run).effects == [Issued(ForceOff, ByEnsureOn)]
  {
    var i := Reading(2000, Awake(), Some(ReadsOn), false);
    run := WakingRun();
    WakingIsForced();
    OneMoreOverride(run, Seconds(3), Waking(), i, Next(Waking(), Reconcile(i)).st);
    run := run + [Reconcile(i)];
  }
}
