/** What lets a pool scale down, said of its spec, members and pods only (`src/scaling.rs`). */
module ScaleDownGate {
  import opened Prelude
  import opened Clock
  import opened Scheduling
  import opened PoolModel
  import opened ScaleUp
  import opened ScaleDown
  import ScaleUpSafety
  import ScaleDownSafety

  // ----- pods that wait ---------------------------------------------------------------------

  /** The grace period of the pod is over, and it aims at this pool where the pool asks for that. */
  predicate Waits(s: Snapshot, pod: PodView) {
    && pod in s.pending
    && (pod.created.Some? ==> pod.created.value + Seconds(s.spec.pendingGrace) <= s.now)
    && (s.spec.requireSelection ==> ExplicitlySelects(pod, s.spec.selector))
  }

  /** The machine is on its way up, or could be started, and would have room for the pod. */
  predicate CouldTake(m: Member, pod: PodView) {
    && (m.state == Booting || (m.state == Offline && m.auto))
    && m.allocatable.cpu >= pod.requests.cpu && m.allocatable.memory >= pod.requests.memory
    && m.allocatable.pods >= pod.requests.pods
    && PodMatchesNode(pod, m.labels, m.taints)
  }

  lemma WaitingExact(s: Snapshot, pod: PodView)
    ensures pod in SelectedPods(s) <==> Waits(s, pod)
  {
    FilterExact(p => Selected(s, p), s.pending);
  }

  /** The pods a pool counts as pending are those that wait and that some machine could take. */
  lemma RelevantExact(s: Snapshot, pod: PodView)
    ensures pod in RelevantPods(s) <==> Waits(s, pod) && exists m <- s.members :: CouldTake(m, pod)
  {
    WaitingExact(s, pod);
    FilterExact(p => Hostable(s, p), SelectedPods(s));
    assert forall m <- s.members :: (FitsOn(pod, m, m.allocatable) && (IsBooting(m) || CanOpen(m))) <==> CouldTake(m, pod);
  }

  /** A pod that does not wait has no influence on the plan: the pods pending are as if it were not. */
  lemma {:induction false} OthersDoNotCount(s: Snapshot, keep: PodView -> bool)
    requires forall pod <- s.pending :: Waits(s, pod) ==> keep(pod)
    ensures SelectedPods(s.(pending := Filter(keep, s.pending))) == SelectedPods(s)
  {
    var t := s.(pending := Filter(keep, s.pending));
    FilterTwice(p => Selected(s, p), p => Selected(t, p), keep, s.pending);
  }

  lemma {:induction false} FilterTwice(p: PodView -> bool, q: PodView -> bool, keep: PodView -> bool, pods: seq<PodView>)
    requires forall pod <- pods :: p(pod) == q(pod) && (p(pod) ==> keep(pod))
    ensures Filter(q, Filter(keep, pods)) == Filter(p, pods)
  {
    if pods != [] {
      var front, last := pods[..|pods| - 1], pods[|pods| - 1];
      assert last in pods && forall pod <- front :: pod in pods;
      FilterTwice(p, q, keep, front);
      assert (Filter(keep, front) + [last])[..|Filter(keep, front)|] == Filter(keep, front);
    }
  }

  // ----- what holds scale-down back ---------------------------------------------------------

  /** How many members are in that state. */
  function MachinesIn(s: Snapshot, state: MemberState): nat { |Filter((m: Member) => m.state == state, s.members)| }

  lemma {:induction false} OnlineCount(ms: seq<Member>)
    ensures |Filter(Counts, ms)|
      == |Filter((m: Member) => m.state == Online, ms)| + |Filter((m: Member) => m.state == Booting, ms)|
  {
    if ms != [] {
      OnlineCount(ms[..|ms| - 1]);
    }
  }

  /** Machines on their way up count as online; those on their way down are counted apart. */
  lemma CountsExact(s: Snapshot)
    ensures OnlineNow(s) == MachinesIn(s, Online) + MachinesIn(s, Booting)
    ensures LeavingNow(s) == MachinesIn(s, Leaving)
  {
    OnlineCount(s.members);
    ScaleUpSafety.FilterSame(IsLeaving, (m: Member) => m.state == Leaving, s.members);
  }

  predicate AboveMax(s: Snapshot) { s.spec.maxOnline.Some? && OnlineNow(s) > s.spec.maxOnline.value }

  /** The hold of the spec, under its new name or else its old one; ten minutes if it has neither. */
  function HoldSeconds(spec: Spec): int {
    match (spec.holdAfterPowerOn, spec.delayAfterScaleUp)
    case (Some(hold), _) => hold
    case (None, Some(delay)) => delay
    case (None, None) => 600
  }

  /** The hold after a power-on at that time, if there was one, is over. */
  predicate HoldOver(s: Snapshot, t: Option<int>) { t.Some? ==> t.value + Seconds(HoldSeconds(s.spec)) <= s.now }

  /** Scale-down is enabled, no pod waits that a machine could take, no machine is booting, and the hold
      after the pool's last power-on, and after each it took over, has passed. */
  ghost predicate Settled(s: Snapshot) {
    && s.spec.downEnabled
    && (forall pod <- s.pending, m <- s.members :: Waits(s, pod) ==> !CouldTake(m, pod))
    && (forall m <- s.members :: m.state != Booting)
    && HoldOver(s, s.lastScaleUp) && (forall m <- s.members :: HoldOver(s, m.adoptedAt))
  }

  /** Nothing holds the pool's scale-down back: it is above `maxOnline`, or it has settled. */
  ghost predicate NothingHolds(s: Snapshot) { AboveMax(s) || Settled(s) }

  lemma NothingPendingExact(s: Snapshot)
    ensures RelevantPods(s) == [] <==> forall pod <- s.pending, m <- s.members :: Waits(s, pod) ==> !CouldTake(m, pod)
  {
    if RelevantPods(s) != [] {
      var pod := RelevantPods(s)[0];
      RelevantExact(s, pod);
      var m :| m in s.members && CouldTake(m, pod);
    }
    forall pod, m | pod in s.pending && m in s.members && Waits(s, pod) && CouldTake(m, pod) ensures RelevantPods(s) != [] {
      RelevantExact(s, pod);
    }
  }

  lemma {:induction false} AdoptedExact(s: Snapshot, ms: seq<Member>)
    ensures HoldOver(s, LastAdopted(ms)) <==> forall m <- ms :: HoldOver(s, m.adoptedAt)
  {
    if ms != [] {
      AdoptedExact(s, ms[..|ms| - 1]);
      assert forall m :: m in ms <==> m in ms[..|ms| - 1] || m == ms[|ms| - 1];
    }
  }

  lemma HoldExact(s: Snapshot)
    ensures HoldsAfterPowerOn(s) <==> !(HoldOver(s, s.lastScaleUp) && forall m <- s.members :: HoldOver(s, m.adoptedAt))
  {
    AdoptedExact(s, s.members);
  }

  lemma NothingToStart(s: Snapshot)
    requires RelevantPods(s) == [] && OnlineNow(s) >= s.spec.minOnline
    ensures PowerOn(s) == []
  {
    assert Packed(s) == Start(s);
  }

  lemma FullStartsNothing(s: Snapshot)
    requires AboveMax(s)
    ensures PowerOn(s) == []
  {
    ScaleUpSafety.PowerOnBounds(s);
  }

  /** With more machines online than `minOnline`, that is exactly when the planner goes on to remove. */
  lemma HinderedExact(s: Snapshot)
    requires OnlineNow(s) > s.spec.minOnline
    ensures Hindered(s).None? <==> NothingHolds(s)
  {
    NothingPendingExact(s);
    HoldExact(s);
    if AboveMax(s) {
      FullStartsNothing(s);
    } else if RelevantPods(s) == [] {
      NothingToStart(s);
    }
  }

  // ----- machines that may go ---------------------------------------------------------------

  /** The share in use reaches the threshold; nothing is in use of what there is none of. */
  predicate InUse(used: int, total: int, percent: nat) {
    if total <= 0 then percent == 0 else percent * total <= 100 * used
  }

  /** The pod waits for a device of this machine that its plugin has yet to register, and fits otherwise. */
  ghost predicate AwaitsDevice(s: Snapshot, m: Member, pod: PodView) {
    && Waits(s, pod) && FitsOn(pod, m, m.allocatable.Minus(m.requested))
    && exists k :: k in pod.extended && k in m.registering && pod.extended[k] <= m.registering[k]
  }

  /** The machine is not needed: no pod blocks it, its last drain did not fail lately, neither CPU nor
      memory is in use up to the threshold, and no pod waits for a device of it. */
  ghost predicate NotNeeded(s: Snapshot, m: Member) {
    && m.blocking == []
    && (m.drainFailedAt.Some? ==> m.drainFailedAt.value + Seconds(s.spec.drainFailureBackoff) <= s.now)
    && !InUse(m.counted.cpu, m.allocatable.cpu, s.spec.utilizationThreshold)
    && !InUse(m.counted.memory, m.allocatable.memory, s.spec.utilizationThreshold)
    && forall pod <- s.pending :: !AwaitsDevice(s, m, pod)
  }

  lemma AwaitingExact(s: Snapshot, m: Member)
    ensures WaitingForRegistration(m, SelectedPods(s)) <==> exists pod <- s.pending :: AwaitsDevice(s, m, pod)
  {
    forall pod ensures pod in SelectedPods(s) && AwaitsRegistration(pod, m) <==> AwaitsDevice(s, m, pod) {
      WaitingExact(s, pod);
    }
    if WaitingForRegistration(m, SelectedPods(s)) {
      var pod :| pod in SelectedPods(s) && AwaitsRegistration(pod, m);
      assert AwaitsDevice(s, m, pod);
    }
    if pod :| pod in s.pending && AwaitsDevice(s, m, pod) {
      assert pod in SelectedPods(s) && AwaitsRegistration(pod, m);
    }
  }

  lemma JudgedExact(s: Snapshot, m: Member)
    ensures JudgedUnneeded(s, m) <==> NotNeeded(s, m)
  {
    AwaitingExact(s, m);
  }

  /** Not needed for as long as the pool asks for, or powered on by hand and past its grace with no pod
      that blocks it. */
  ghost predicate LongIdle(s: Snapshot, m: Member) {
    || (NotNeeded(s, m) && Since(s, m.name) + Seconds(s.spec.unneeded) <= s.now)
    || (m.blocking == [] && m.releaseAfter.Some? && m.releaseAfter.value <= s.now)
  }

  lemma LongIdleExact(s: Snapshot, m: Member)
    requires DistinctNames(s.members) && m in s.members && Candidate(m)
    ensures Expired(s, m) || Released(s, m) <==> LongIdle(s, m)
  {
    ScaleDownSafety.ExpiredExact(s, m);
    JudgedExact(s, m);
  }

  /** The machine may go: Auto and on, no other pool keeps it, it is idle (or the pool is above its
      maximum and no pod blocks it), and its pods fit elsewhere. */
  ghost predicate MayGo(s: Snapshot, m: Member)
    requires WellNamed(s)
  {
    && m in s.members && m.auto && m.state == Online
    && (m.name in s.keptByOthers ==> s.keptByOthers[m.name] == [])
    && (LongIdle(s, m) || (AboveMax(s) && m.blocking == []))
    && FitsElsewhere(s, m)
  }

  ghost predicate FitsElsewhere(s: Snapshot, m: Member)
    requires WellNamed(s) && m in s.members
  {
    InitiallyKeyed(s);
    TargetsAreKnown(s, Removals(InitialFree(s), []), m);
    assert RemovedNames([]) == {};
    MoveAll(Targets(s, m.name, {}), InitialFree(s) - {m.name}, Decreasing(m.movable)).Moved?
  }

  lemma GoesFirst(s: Snapshot, m: Member)
    requires WellNamed(s) && m in s.members
    ensures InitiallyKeyedFor(s)
    ensures Consider(s, Removals(InitialFree(s), []), m).done != [] <==> Tries(s, 0, m) && FitsElsewhere(s, m)
  {
    InitiallyKeyed(s);
    assert RemovedNames([]) == {};
  }

  ghost predicate InitiallyKeyedFor(s: Snapshot) { Keyed(s, Removals(InitialFree(s), [])) }

  /** The removal loop removes something if and only if some machine can go first. */
  lemma {:induction false} RemovesExact(s: Snapshot, ms: seq<Member>)
    requires WellNamed(s) && Within(ms, s.members)
    ensures RemoveAll(s, ms).done == [] ==> RemoveAll(s, ms) == Removals(InitialFree(s), [])
    ensures RemoveAll(s, ms).done != [] <==> exists m <- ms :: m in s.members && Tries(s, 0, m) && FitsElsewhere(s, m)
  {
    if ms != [] {
      var front, last := ms[..|ms| - 1], ms[|ms| - 1];
      assert Within(front, s.members) by { assert forall m <- front :: m in ms; }
      RemovesExact(s, front);
      GoesFirst(s, last);
      assert forall m :: m in ms <==> m in front || m == last;
      assert RemoveAll(s, front).done != [] ==> Consider(s, RemoveAll(s, front), last).done != [];
    }
  }

  lemma EligibleExact(s: Snapshot, m: Member)
    requires DistinctNames(s.members)
    ensures m in EligibleMembers(s)
      <==> m in s.members && m.auto && m.state == Online && (LongIdle(s, m) || (AboveMax(s) && m.blocking == []))
  {
    if m in s.members && Candidate(m) {
      LongIdleExact(s, m);
    }
  }

  function AtLeastOne(step: nat): nat { if step == 0 then 1 else step }

  lemma TriesExact(s: Snapshot, m: Member)
    requires MachinesIn(s, Leaving) < AtLeastOne(s.spec.downStep) || AboveMax(s)
    ensures Tries(s, 0, m)
      <==> (m.name in s.keptByOthers ==> s.keptByOthers[m.name] == []) && OnlineNow(s) > s.spec.minOnline
  {
    CountsExact(s);
  }

  /** The removal loop removes something if and only if some machine may go and the pool is above its
      minimum. */
  lemma {:induction false} SomeMayGo(s: Snapshot)
    requires WellNamed(s) && DistinctNames(s.members)
    requires MachinesIn(s, Leaving) < AtLeastOne(s.spec.downStep) || AboveMax(s)
    ensures RemoveAll(s, EligibleMembers(s)).done != [] <==>
      OnlineNow(s) > s.spec.minOnline && exists m <- s.members :: MayGo(s, m)
  {
    var ms := EligibleMembers(s);
    RemovesExact(s, ms);
    forall m | m in s.members
      ensures m in ms && Tries(s, 0, m) && FitsElsewhere(s, m) <==> OnlineNow(s) > s.spec.minOnline && MayGo(s, m)
    {
      EligibleExact(s, m);
      TriesExact(s, m);
    }
  }

  /** A plan powers something off if and only if the pool is above `minOnline`, nothing holds it back,
      fewer machines than its step are leaving already (or it is above `maxOnline`), and some machine
      may go. */
  lemma PowerOffExact(s: Snapshot)
    requires WellNamed(s) && DistinctNames(s.members)
    ensures PowerOff(s) != [] <==>
      && OnlineNow(s) > s.spec.minOnline && NothingHolds(s)
      && (MachinesIn(s, Leaving) < AtLeastOne(s.spec.downStep) || AboveMax(s))
      && exists m <- s.members :: MayGo(s, m)
  {
    CountsExact(s);
    if OnlineNow(s) > s.spec.minOnline {
      HinderedExact(s);
    }
    if MachinesIn(s, Leaving) < AtLeastOne(s.spec.downStep) || AboveMax(s) {
      SomeMayGo(s);
    }
  }

  // ----- how many go, and where their pods go -----------------------------------------------

  /** With those leaving already, no more go than the step allows, or than the pool has above its
      maximum; and never so many that fewer than `minOnline` stay. */
  lemma PowerOffWithin(s: Snapshot)
    requires WellNamed(s) && DistinctNames(s.members) && PowerOff(s) != []
    ensures var online, gone := MachinesIn(s, Online) + MachinesIn(s, Booting), |PowerOff(s)|;
      && (gone + MachinesIn(s, Leaving) <= AtLeastOne(s.spec.downStep)
          || (s.spec.maxOnline.Some? && gone <= online - s.spec.maxOnline.value))
      && online - gone >= s.spec.minOnline
  {
    CountsExact(s);
    ScaleDownSafety.PowerOffBounds(s);
  }

  /** Pods may go to members that are on, under management or by hand, and still stand, and to nodes
      outside. */
  lemma TargetsExact(s: Snapshot, self: string, removed: set<string>, t: Target)
    ensures t in Targets(s, self, removed) <==>
      || (exists m <- s.members ::
            && t == Target(m.name, m.labels, m.taints) && (m.state == Online || m.state == MemberState.Manual)
            && m.name != self && m.name !in removed)
      || (exists e <- s.external :: t == Target(EXTERNAL + e.name, e.labels, e.taints))
  {
    StandingExact(s.members, self, removed, t);
    OutsideExact(s.external, t);
  }

  lemma {:induction false} HostsFreeAt(ms: seq<Member>, m: Member)
    requires DistinctNames(ms) && m in ms && Hosts(m)
    ensures m.name in HostsFree(ms) && HostsFree(ms)[m.name] == m.allocatable.Minus(m.requested)
  {
    if m != ms[|ms| - 1] {
      var k :| 0 <= k < |ms| && ms[k] == m;
      assert ms[..|ms| - 1][k] == m;
      HostsFreeAt(ms[..|ms| - 1], m);
    }
  }

  lemma {:induction false} ExternalsKeep(free: Free, es: seq<ExternalNode>, key: string)
    requires key in free && !(EXTERNAL <= key)
    ensures key in WithExternals(free, es) && WithExternals(free, es)[key] == free[key]
  {
    if es != [] {
      assert EXTERNAL <= ExternalKey(es[|es| - 1].name);
      ExternalsKeep(free, es[..|es| - 1], key);
    }
  }

  /** What a member that is on has left at first: what it has, less what its pods request. */
  lemma RoomAtFirst(s: Snapshot, m: Member)
    requires WellNamed(s) && DistinctNames(s.members) && m in s.members
    requires m.state == Online || m.state == MemberState.Manual
    ensures m.name in InitialFree(s)
    ensures var room := InitialFree(s)[m.name];
      && room.cpu + m.requested.cpu == m.allocatable.cpu
      && room.memory + m.requested.memory == m.allocatable.memory
      && room.pods + m.requested.pods == m.allocatable.pods
  {
    HostsFreeAt(s.members, m);
    ExternalsKeep(HostsFree(s.members), s.external, m.name);
  }
}
