/** A power-on whose cycle could not store the pool's status: the hold that should follow it does not
    (`src/controller/node_scaling_pool.rs`, `src/scaling.rs`). */
module ForgottenPowerOn {
  import opened Prelude
  import opened Clock
  import opened Resources
  import opened PoolModel
  import opened ScaleUp
  import opened ScaleDown
  import opened Scheduling
  import opened PlannerRuns
  import opened PlannerLimits
  import opened StatusPatch
  import ScaleDownSafety

  // ----- when the hold is kept --------------------------------------------------------------

  /** The planner, not above `maxOnline`, powers a machine off within the hold of cycle `c`. */
  ghost predicate BreaksHold(c: Cycle, s: Snapshot) {
    WellNamed(s) && PowerOff(s) != [] && OverMax(s) == 0 && s.now < c.s.now + Seconds(s.spec.Hold())
  }

  /** However the pool goes on after `run` and cycle `c`, the hold of `c` is kept. */
  ghost predicate HeldAfter(run: seq<Cycle>, c: Cycle) {
    forall later: seq<Cycle> | later != [] && Linked(run + [c] + later) :: !BreaksHold(c, Newest(later).s)
  }

  lemma {:induction false} StoredWith(run: seq<Cycle>, c: Cycle)
    ensures Front(run + [c]) == run && Newest(run + [c]) == c
    ensures !c.saved ==> Stored(run + [c]) == Stored(run)
    ensures c.saved && PowerOn(c.s) != [] ==> Stored(run + [c]).lastScaleUp == Some(c.s.now)
  {
    assert (run + [c])[..|run|] == run;
  }

  /** A pool remembers that it powered a machine on if and only if that cycle stored its status. */
  lemma {:induction false} RememberedExact(run: seq<Cycle>, c: Cycle)
    requires PowerOn(c.s) != [] && Stored(run).lastScaleUp != Some(c.s.now)
    ensures Stored(run + [c]).lastScaleUp == Some(c.s.now) <==> c.saved
  {
    StoredWith(run, c);
  }

  lemma {:induction false} SavedIsHeld(run: seq<Cycle>, c: Cycle)
    requires PowerOn(c.s) != [] && c.saved
    ensures HeldAfter(run, c)
  {
    forall later: seq<Cycle> | later != [] && Linked(run + [c] + later) ensures !BreaksHold(c, Newest(later).s) {
      var all := run + [c] + later;
      assert all[|run|] == c && all[|all| - 1] == Newest(later);
      if BreaksHold(c, Newest(later).s) {
        PowerOffWaitsForTheHold(all, |run|, |all| - 1);
      }
    }
  }

  /** Another cycle of the same second stored a power-on: its hold is that of `c`. */
  lemma {:induction false} SameInstantIsHeld(run: seq<Cycle>, c: Cycle)
    requires !c.saved && Stored(run).lastScaleUp == Some(c.s.now)
    ensures HeldAfter(run, c)
  {
    StoredWith(run, c);
    forall later: seq<Cycle> | later != [] && Linked(run + [c] + later) ensures !BreaksHold(c, Newest(later).s) {
      var all := run + [c] + later;
      assert all[|all| - 1] == Newest(later) && all[..|all| - 1][..|run| + 1] == run + [c];
      ReadsWhatIsStored(all, |all| - 1);
      RememberedSince(all[..|all| - 1], |run| + 1, c.s.now);
      if BreaksHold(c, Newest(later).s) {
        HoldIsKept(Newest(later).s);
      }
    }
  }

  /** What is remembered of the last power-on never goes back. */
  lemma {:induction false} RememberedSince(run: seq<Cycle>, k: nat, t: int)
    requires 0 < k <= |run| && Linked(run) && run[k - 1].s.now >= t
    requires Stored(run[..k]).lastScaleUp.Some? && Stored(run[..k]).lastScaleUp.value >= t
    ensures Stored(run).lastScaleUp.Some? && Stored(run).lastScaleUp.value >= t
  {
    if k < |run| {
      assert Front(run)[..k] == run[..k];
      RememberedSince(Front(run), k, t);
      ClockNeverGoesBack(run, k - 1, |run| - 1);
    } else {
      assert run[..k] == run;
    }
  }

  // ----- a continuation that breaks it ------------------------------------------------------

  lemma {:induction false} IdleIsPoweredOff(s: Snapshot, a: Member)
    requires Quiet(s) && DistinctNames(s.members) && Idle(s, a) && a.movable == []
    ensures WellNamed(s) && PowerOff(s) != [] && OverMax(s) == 0
  {
    QuietRuns(s);
    FilterExact(Counts, s.members);
    ScaleDownSafety.ExpiredExact(s, a);
    assert a in Filter(Counts, s.members) && a in EligibleMembers(s);
    if PowerOff(s) == [] {
      var i :| 0 <= i < |EligibleMembers(s)| && EligibleMembers(s)[i] == a;
      ScaleDownSafety.IdleMachinesGo(s, EligibleMembers(s), i);
    }
  }

  /** An idle machine that may go at once, seen when the hold of the power-on remembered is just over. */
  function Breaking(stored: Memory, now: int): Snapshot {
    Snapshot(PLAIN.(holdAfterPowerOn := Some(1)), [Machine("a", Online, Amounts(2, 2, 9))], [], now,
             stored.lastScaleUp, stored.unneededSince, [], map[])
  }

  /** Not before `now`, nor before that hold is over. */
  function SoonAfter(remembered: Option<int>, now: int): int {
    if remembered.Some? && remembered.value + Seconds(1) > now then remembered.value + Seconds(1) else now
  }

  lemma BreakingIsQuiet(stored: Memory, now: int)
    requires stored.lastScaleUp.Some? ==> now >= stored.lastScaleUp.value + Seconds(1)
    ensures Quiet(Breaking(stored, now)) && DistinctNames(Breaking(stored, now).members)
  {
  }

  lemma BreakingIsIdle(stored: Memory, now: int)
    requires "a" in stored.unneededSince ==> stored.unneededSince["a"] <= now
    ensures Idle(Breaking(stored, now), Breaking(stored, now).members[0])
  {
    var s := Breaking(stored, now);
    assert SelectedPods(s) == [];
  }

  lemma {:induction false} TimesArePast(run: seq<Cycle>, c: Cycle, name: string)
    requires Linked(run + [c]) && name in Stored(run).unneededSince
    ensures Stored(run).unneededSince[name] <= c.s.now
  {
    StoredWith(run, c);
    var i := StoredTimeIsFirstNoted(run, name);
    assert (run + [c])[i] == run[i] && (run + [c])[|run|] == c;
    ClockNeverGoesBack(run + [c], i, |run|);
  }

  lemma {:induction false} LinkedWith(run: seq<Cycle>, d: Cycle)
    requires run != [] && Linked(run) && Newest(run).s.now <= d.s.now
    requires d.s.unneededSince == Stored(run).unneededSince && d.s.lastScaleUp == Stored(run).lastScaleUp
    requires DistinctNames(d.s.members) && WellNamed(d.s)
    ensures Linked(run + [d])
  {
    StoredWith(run, d);
    assert (run + [d])[|run| - 1] == Newest(run);
  }

  /** After a power-on whose status was lost, every snapshot of a quiet pool with an idle machine that is
      taken within its hold, and past that of the power-on remembered, breaks it. */
  lemma {:induction false} ForgottenPowerOnIsNotHeld(run: seq<Cycle>, on: Cycle, off: Cycle, a: Member)
    requires Linked(run + [on]) && !on.saved
    requires off.s.unneededSince == Stored(run).unneededSince && off.s.lastScaleUp == Stored(run).lastScaleUp
    requires on.s.now <= off.s.now < on.s.now + Seconds(off.s.spec.Hold())
    requires Quiet(off.s) && DistinctNames(off.s.members) && Idle(off.s, a) && a.movable == []
    ensures Linked(run + [on] + [off]) && BreaksHold(on, off.s)
  {
    StoredWith(run, on);
    IdleIsPoweredOff(off.s, a);
    LinkedWith(run + [on], off);
  }

  lemma {:induction false} LostIsNotHeld(run: seq<Cycle>, c: Cycle) returns (d: Cycle)
    requires Linked(run + [c]) && !c.saved
    requires Stored(run).lastScaleUp.Some? ==> Stored(run).lastScaleUp.value < c.s.now
    ensures Linked(run + [c] + [d]) && BreaksHold(c, d.s)
  {
    var stored, now := Stored(run), SoonAfter(Stored(run).lastScaleUp, c.s.now);
    d := Cycle(Breaking(stored, now), true);
    if "a" in stored.unneededSince {
      TimesArePast(run, c, "a");
    }
    BreakingIsQuiet(stored, now);
    BreakingIsIdle(stored, now);
    ForgottenPowerOnIsNotHeld(run, c, d, d.s.members[0]);
  }

  lemma {:induction false} RememberedIsPast(run: seq<Cycle>, c: Cycle)
    requires Linked(run + [c]) && Stored(run).lastScaleUp.Some?
    ensures Stored(run).lastScaleUp.value <= c.s.now
  {
    StoredWith(run, c);
    var i := RememberedCycle(run);
    assert (run + [c])[i] == run[i] && (run + [c])[|run|] == c;
    ClockNeverGoesBack(run + [c], i, |run|);
  }

  lemma {:induction false} RememberedCycle(run: seq<Cycle>) returns (i: nat)
    requires Stored(run).lastScaleUp.Some?
    ensures i < |run| && Stored(run).lastScaleUp == Some(run[i].s.now)
  {
    if Newest(run).saved && PowerOn(Newest(run).s) != [] {
      i := |run| - 1;
    } else {
      i := RememberedCycle(Front(run));
    }
  }

  /** However the pool goes on, the hold after a power-on is kept if and only if the cycle that powered
      on stored its status (or an earlier one stored a power-on at the very same instant). */
  lemma {:induction false} HoldIsKeptExact(run: seq<Cycle>, c: Cycle)
    requires Linked(run + [c]) && PowerOn(c.s) != []
    ensures HeldAfter(run, c) <==> c.saved || Stored(run).lastScaleUp == Some(c.s.now)
  {
    if c.saved {
      SavedIsHeld(run, c);
    } else if Stored(run).lastScaleUp == Some(c.s.now) {
      SameInstantIsHeld(run, c);
    } else {
      if Stored(run).lastScaleUp.Some? {
        RememberedIsPast(run, c);
      }
      var d := LostIsNotHeld(run, c);
      assert Newest([d]) == d && !(!BreaksHold(c, Newest([d]).s));
    }
  }

  // ----- with the same machines throughout --------------------------------------------------

  /** One machine off, another on, and one pod that fits on the first. */
  predicate Wanted(s: Snapshot, off: Member, other: Member, pod: PodView) {
    && s.spec.upEnabled && s.spec.maxOnline.None? && s.members == [off, other] && CanOpen(off) && other.state == Online
    && s.pending == [pod] && Selected(s, pod) && FitsOn(pod, off, off.allocatable)
  }

  lemma {:induction false} WantedStarts(s: Snapshot, off: Member, other: Member)
    requires s.members == [off, other] && CanOpen(off) && other.state == Online
    ensures Start(s) == Packing([], [off], [], [])
  {
    assert [off, other][..1] == [off] && [off][..0] == [];
    assert BootingBins([]) == [] && BootingBins([off]) == [] && BootingBins([off, other]) == [];
    FilterThree(CanOpen, off, other, other);
    RankOne(s.spec, off);
  }

  lemma {:induction false} FilterOne(keep: PodView -> bool, pod: PodView)
    requires keep(pod)
    ensures Filter(keep, [pod]) == [pod]
  {
    assert [pod][..0] == [];
  }

  lemma {:induction false} WantedQueue(s: Snapshot, off: Member, other: Member, pod: PodView)
    requires Wanted(s, off, other, pod)
    ensures Decreasing(RelevantPods(s)) == [pod]
  {
    assert off in s.members && Hostable(s, pod);
    FilterOne(p => Selected(s, p), pod);
    FilterOne(p => Hostable(s, p), pod);
    SortOne((x: PodView, y: PodView) => Larger(x.requests, y.requests), pod);
  }

  lemma {:induction false} OpensTheOnly(s: Snapshot, off: Member, other: Member, pod: PodView)
    requires Wanted(s, off, other, pod)
    ensures Place(s, Packing([], [off], [], []), pod).chosen == [off]
  {
  }

  lemma {:induction false} WantedIsPoweredOn(s: Snapshot, off: Member, other: Member, pod: PodView)
    requires Wanted(s, off, other, pod)
    ensures PowerOn(s) != []
  {
    WantedQueue(s, off, other, pod);
    WantedStarts(s, off, other);
    OpensTheOnly(s, off, other, pod);
    assert [pod][..0] == [];
    assert Packed(s) == Place(s, Pack(s, []), pod);
    TopUpKeeps(s, Packed(s));
  }

  lemma {:induction false} TopUpKeeps(s: Snapshot, st: Packing)
    requires st.chosen != []
    ensures TopUp(s, st).chosen != []
    decreases |st.offline|
  {
    if BelowMin(s, st) && st.offline != [] {
      TopUpKeeps(s, OpenNext(st));
    }
  }

  /** Nothing to place and nothing below the minimum: nothing is powered on. */
  lemma NothingWanted(s: Snapshot)
    requires s.pending == [] && s.spec.minOnline == 0
    ensures PowerOn(s) == []
  {
    assert SelectedPods(s) == [] && RelevantPods(s) == [];
    assert Packed(s) == Start(s);
  }

  /** Ten minutes unneeded, and the usual hold of ten minutes. */
  const TEN_MINUTES := PLAIN.(unneeded := 600)

  function Worker(state: MemberState, used: Amounts): Member {
    Machine("worker", state, Amounts(2, 2, 9)).(requested := used, counted := used)
  }

  function Spare(): Member { Machine("spare", Online, Amounts(2, 2, 9)) }

  function Cycling(worker: Member, pending: seq<PodView>, seconds: int, since: map<string, int>): Snapshot {
    Snapshot(TEN_MINUTES, [worker, Spare()], pending, Seconds(seconds), None, since, [], map[])
  }

  function Job(): PodView { Demand("job", Amounts(2, 2, 1)) }

  /** The worker is off and the other machine idle. */
  function Idling(): Cycle { Cycle(Cycling(Worker(Offline, ZERO), [], 0, map[]), true) }

  /** A pod that takes a whole machine turns up: the worker is powered on, and the status is lost. */
  function Losing(): Cycle {
    Cycle(Cycling(Worker(Offline, ZERO), [Job()], 500, map["spare" := 0]), false)
  }

  /** The worker is up and runs the pod. */
  function Working(): Cycle {
    Cycle(Cycling(Worker(Online, Amounts(2, 2, 1)), [], 900, map["spare" := 0]), true)
  }

  lemma SpareIsUnneeded(worker: Member, seconds: int, since: map<string, int>)
    ensures JudgedUnneeded(Cycling(worker, [], seconds, since), Spare())
  {
    assert SelectedPods(Cycling(worker, [], seconds, since)) == [];
  }

  lemma {:induction false} SpareIsNoted()
    ensures UnneededNow(Idling().s) == map["spare" := 0]
  {
    var s := Idling().s;
    SpareIsUnneeded(Worker(Offline, ZERO), 0, map[]);
    assert Spare() == s.members[1];
    forall name ensures name in UnneededNow(s) <==> name == "spare" {
      UnneededNowExact(s, name);
    }
    UnneededNowExact(s, "spare");
  }

  lemma {:induction false} FirstStored(c: Cycle, times: map<string, int>)
    requires c.saved && PowerOn(c.s) == [] && UnneededNow(c.s) == times
    ensures Stored([c]) == Memory(times, None)
  {
    var none: seq<Cycle> := [];
    StoredWith(none, c);
    assert none + [c] == [c] && Patched(map[], times) == times;
  }

  lemma {:induction false} FirstLinked(s: Snapshot)
    requires s.unneededSince == map[] && s.lastScaleUp.None? && DistinctNames(s.members) && WellNamed(s)
    ensures Linked([Cycle(s, true)])
  {
    var none: seq<Cycle> := [];
    StoredWith(none, Cycle(s, true));
    assert none + [Cycle(s, true)] == [Cycle(s, true)];
  }

  lemma IdlingIsStored()
    ensures Linked([Idling()]) && Stored([Idling()]) == Memory(map["spare" := 0], None)
  {
    SpareIsNoted();
    NothingWanted(Idling().s);
    FirstStored(Idling(), map["spare" := 0]);
    FirstLinked(Idling().s);
  }

  lemma {:induction false} LosingStoresNothing()
    ensures Linked([Idling(), Losing()]) && Stored([Idling(), Losing()]) == Memory(map["spare" := 0], None)
  {
    IdlingIsStored();
    LinkedWith([Idling()], Losing());
    StoredWith([Idling()], Losing());
    assert [Idling()] + [Losing()] == [Idling(), Losing()];
  }

  lemma WorkingGoesOff()
    ensures BreaksHold(Losing(), Working().s)
  {
    var s := Working().s;
    SpareIsUnneeded(Worker(Online, Amounts(2, 2, 1)), 900, map["spare" := 0]);
    assert Spare() == s.members[1];
    assert Idle(s, Spare());
    IdleIsPoweredOff(s, Spare());
  }

  lemma LosingPowersOn()
    ensures PowerOn(Losing().s) != []
  {
    OnlyRoomMatters("job", Amounts(2, 2, 1), Worker(Offline, ZERO), Amounts(2, 2, 9));
    WantedIsPoweredOn(Losing().s, Worker(Offline, ZERO), Spare(), Job());
  }

  /** The cycle sees these two machines under that spec. */
  predicate SameMachines(c: Cycle) {
    |c.s.members| == 2 && c.s.members[0].name == "worker" && c.s.members[1] == Spare() && c.s.spec == TEN_MINUTES
  }

  lemma MachinesStayTheSame()
    ensures SameMachines(Idling()) && SameMachines(Losing()) && SameMachines(Working())
  {
  }

  lemma {:induction false} LostRunIsLinked()
    ensures Linked([Idling(), Losing(), Working()])
  {
    LosingStoresNothing();
    LinkedWith([Idling(), Losing()], Working());
    assert [Idling(), Losing()] + [Working()] == [Idling(), Losing(), Working()];
  }

  /** The same two machines and the same spec in every cycle, with an unneeded period of ten minutes:
      the idle machine's time is stored, then the status of a power-on is lost, and within the hold the
      idle machine is powered off. */
  lemma {:induction false} LostPowerOnRun()
    ensures Linked([Idling(), Losing(), Working()])
    ensures SameMachines(Idling()) && SameMachines(Losing()) && SameMachines(Working())
    ensures Idling().saved && "spare" in UnneededNow(Idling().s)
    ensures PowerOn(Losing().s) != [] && !Losing().saved && BreaksHold(Losing(), Working().s)
  {
    MachinesStayTheSame();
    SpareIsNoted();
    LostRunIsLinked();
    LosingPowersOn();
    WorkingGoesOff();
  }
}
