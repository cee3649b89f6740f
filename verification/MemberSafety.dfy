/** What a pool makes of each machine it selects, said of the machine's status and its pods
    (`member_state`, `classify` and `build_member` in `src/controller/node_scaling_pool.rs`). */
module MemberSafety {
  import opened Prelude
  import opened Clock
  import opened Resources
  import opened Scheduling
  import opened PoolModel
  import opened PoolMembers
  import M = MachineStatus
  import SchedulingSafety

  // ----- the state of a machine -------------------------------------------------------------

  /** A pool that still selects the machine has decided that. */
  predicate DecidedFor(st: M.Status, pools: seq<string>, target: M.PowerTarget) {
    exists pool <- pools :: st.decision.Some? && st.decision.value.pool == pool && st.decision.value.target == target
  }

  predicate Undecided(st: M.Status, pools: seq<string>) {
    !DecidedFor(st, pools, M.TurnOn) && !DecidedFor(st, pools, M.TurnOff)
  }

  predicate Managed(policy: M.PowerPolicy, st: M.Status) { policy == M.Auto && !st.inconsistent }

  predicate Up(st: M.Status) { st.phase == M.On && st.nodeReady }

  predicate Down(st: M.Status) { st.phase == M.Off || st.phase == M.Standby }

  predicate GivenUp(st: M.Status) { st.phase == M.Error || st.phase == M.BootFailed }

  /** On and Ready; kept on by the operator, or with no Off decided for it. */
  predicate IsOnline(policy: M.PowerPolicy, st: M.Status, pools: seq<string>) {
    Up(st) && !st.inconsistent && (policy == M.AlwaysOn || (policy == M.Auto && !DecidedFor(st, pools, M.TurnOff)))
  }

  /** On is decided and it is not on and Ready yet, nor given up; or nothing is decided and it is on its
      way by itself. */
  predicate IsPoweringUp(policy: M.PowerPolicy, st: M.Status, pools: seq<string>) {
    && Managed(policy, st) && !Up(st)
    && ((DecidedFor(st, pools, M.TurnOn) && !GivenUp(st))
        || (Undecided(st, pools) && (st.phase == M.PoweringOn || st.phase == M.On)))
  }

  /** Down, with no On decided for it. */
  predicate IsOffline(policy: M.PowerPolicy, st: M.Status, pools: seq<string>) {
    Managed(policy, st) && Down(st) && !DecidedFor(st, pools, M.TurnOn)
  }

  /** Off is decided and it is not down yet, or nothing is decided and it is being taken down. */
  predicate IsGoing(policy: M.PowerPolicy, st: M.Status, pools: seq<string>) {
    && Managed(policy, st) && !Down(st)
    && (DecidedFor(st, pools, M.TurnOff)
        || (Undecided(st, pools) && (st.phase == M.Draining || st.phase == M.PoweringOff)))
  }

  /** Each state means exactly that; every other machine is unavailable. */
  lemma StateExact(policy: M.PowerPolicy, st: M.Status, pools: seq<string>)
    ensures StateOf(policy, st, pools) == Online <==> IsOnline(policy, st, pools)
    ensures StateOf(policy, st, pools) == Booting <==> IsPoweringUp(policy, st, pools)
    ensures StateOf(policy, st, pools) == Offline <==> IsOffline(policy, st, pools)
    ensures StateOf(policy, st, pools) == Leaving <==> IsGoing(policy, st, pools)
    ensures StateOf(policy, st, pools) != MemberState.Manual
  {
    DecidedExact(st, pools, M.TurnOn);
    DecidedExact(st, pools, M.TurnOff);
  }

  lemma DecidedExact(st: M.Status, pools: seq<string>, target: M.PowerTarget)
    ensures DecidedFor(st, pools, target) <==> InForce(st, pools) == Some(target)
  {
  }

  // ----- failures and manual changes --------------------------------------------------------

  /** A boot that failed, or a power-off by hand, still keeps a machine that is down from being woken. */
  predicate KeptDown(st: M.Status, spec: Spec, cooldown: int, now: int) {
    || (st.bootFailure.Some? && !st.bootFailure.value.leftOn
        && now < st.bootFailure.value.time + Seconds(spec.bootFailureBackoff))
    || (cooldown > 0 && st.manualOff.Some? && now < st.manualOff.value.time + Seconds(cooldown))
  }

  /** The machine's boot has failed and it is still in that phase. */
  predicate BootOver(st: M.Status) { st.phase == M.BootFailed && st.bootFailure.Some? }

  /** A person has powered the machine on, and it is neither down nor failed. */
  predicate OnByHand(policy: M.PowerPolicy, st: M.Status, pools: seq<string>) {
    st.manualOn.Some? && !IsOffline(policy, st, pools) && !BootOver(st)
  }

  /** The state of the member as the pool plans with it: failures and manual changes withhold the
      machine, and change nothing else. */
  lemma MemberStateExact(name: string, st: M.Status, f: Facts, pools: seq<string>, spec: Spec, rules: Ignoring, now: int)
    ensures var m := BuildMember(name, st, f, pools, spec, rules, now);
      var byHand := OnByHand(f.policy, st, pools) && f.manualPolicy == M.LeaveOn;
      && (m.state == Online <==> IsOnline(f.policy, st, pools) && !byHand)
      && (m.state == Booting <==> IsPoweringUp(f.policy, st, pools) && !byHand)
      && (m.state == Offline <==> IsOffline(f.policy, st, pools) && !KeptDown(st, spec, f.cooldown, now))
      && (m.state == Leaving <==> IsGoing(f.policy, st, pools) && !byHand && !BootOver(st))
      && (m.state == MemberState.Manual <==> byHand && st.nodeReady)
  {
    StateExact(f.policy, st, pools);
  }

  /** A machine adopted counts as powered on when the person did; one to be turned back off goes once its
      grace is over. */
  lemma TakenOverExact(name: string, st: M.Status, f: Facts, pools: seq<string>, spec: Spec, rules: Ignoring, now: int)
    ensures var m := BuildMember(name, st, f, pools, spec, rules, now); var byHand := OnByHand(f.policy, st, pools);
      && m.adoptedAt == (if byHand && f.manualPolicy == M.Adopt then Some(st.manualOn.value.time) else None)
      && m.releaseAfter == (if byHand && f.manualPolicy == M.TurnBackOff
                            then Some(st.manualOn.value.time + Seconds(spec.manualGrace)) else None)
  {
    StateExact(f.policy, st, pools);
  }

  /** A machine can sleep if it does, or if its last probe found S3 and no standby failed within a day. */
  lemma CanSleepExact(name: string, st: M.Status, f: Facts, pools: seq<string>, spec: Spec, rules: Ignoring, now: int)
    ensures BuildMember(name, st, f, pools, spec, rules, now).s3Capable <==>
      || st.phase == M.Standby
      || (st.sleepSupport.Some? && st.sleepSupport.value.s3
          && (st.standbyFailedAt.Some? ==> NumSeconds(now - st.standbyFailedAt.value) >= 86400))
  {
  }

  /** A machine that some pool turned on counts as online for every pool that selects it, as long as it is
      powering up; and no pool opens it again. */
  lemma PoweringUpCounts(name: string, st: M.Status, f: Facts, pools: seq<string>, spec: Spec, rules: Ignoring, now: int)
    requires Managed(f.policy, st) && DecidedFor(st, pools, M.TurnOn) && !GivenUp(st)
    requires st.manualOn.Some? ==> f.manualPolicy != M.LeaveOn
    ensures var m := BuildMember(name, st, f, pools, spec, rules, now); Counts(m) && !CanOpen(m)
  {
    DecidedExact(st, pools, M.TurnOn);
    DecidedExact(st, pools, M.TurnOff);
    MemberStateExact(name, st, f, pools, spec, rules, now);
  }

  // ----- its pods ---------------------------------------------------------------------------

  lemma {:induction false} BlockingExact(pods: seq<Pod>, rules: Ignoring, selector: NodeSelector)
    ensures TallyOf(pods, rules, selector).blocking != [] <==> exists p <- pods :: SchedulingSafety.Blocks(p)
  {
    if pods != [] {
      BlockingExact(pods[..|pods| - 1], rules, selector);
      SchedulingSafety.DrainClassExact(pods[|pods| - 1]);
      assert forall p :: p in pods <==> p in pods[..|pods| - 1] || p == pods[|pods| - 1];
    }
  }

  lemma {:induction false} MovableExact(pods: seq<Pod>, rules: Ignoring, selector: NodeSelector, v: PodView)
    ensures v in TallyOf(pods, rules, selector).movable <==> exists p <- pods :: SchedulingSafety.Moves(p) && p.view == v
  {
    if pods != [] {
      MovableExact(pods[..|pods| - 1], rules, selector, v);
      SchedulingSafety.DrainClassExact(pods[|pods| - 1]);
      assert forall p :: p in pods <==> p in pods[..|pods| - 1] || p == pods[|pods| - 1];
    }
  }

  /** What the pods that run on the machine request, and what of it counts as its use: not DaemonSet pods
      or pods aimed elsewhere, where the pool leaves those out. */
  predicate Runs(p: Pod) { p.phase != Some("Succeeded") && p.phase != Some("Failed") }

  predicate CountsAsUse(p: Pod, rules: Ignoring, selector: NodeSelector) {
    && Runs(p)
    && !(rules.daemonSets && "DaemonSet" in p.ownerKinds)
    && !(rules.nonSelecting && !ExplicitlySelects(p.view, selector))
  }

  function Requests(pods: seq<Pod>, which: Pod -> bool): seq<Amounts> {
    if pods == [] then []
    else
      var front, last := Requests(pods[..|pods| - 1], which), pods[|pods| - 1];
      if which(last) then front + [last.view.requests] else front
  }

  lemma {:induction false} SumWith(xs: seq<Amounts>, x: Amounts)
    ensures Sum(xs + [x]) == Sum(xs).Add(x)
  {
    assert (xs + [x])[..|xs|] == xs;
  }

  lemma {:induction false} TallyExact(pods: seq<Pod>, rules: Ignoring, selector: NodeSelector)
    ensures var t := TallyOf(pods, rules, selector);
      && t.requested == Sum(Requests(pods, p => Runs(p)))
      && t.counted == Sum(Requests(pods, p => CountsAsUse(p, rules, selector)))
  {
    if pods != [] {
      var front, last := pods[..|pods| - 1], pods[|pods| - 1];
      TallyExact(front, rules, selector);
      SumWith(Requests(front, p => Runs(p)), last.view.requests);
      SumWith(Requests(front, p => CountsAsUse(p, rules, selector)), last.view.requests);
    }
  }

  /** A machine with a pod that must not be evicted has a blocking pod for every pool. */
  lemma GuardedIsBlocked(
    name: string, st: M.Status, f: Facts, pools: seq<string>, spec: Spec, rules: Ignoring, now: int, p: Pod)
    requires p in f.pods && Runs(p) && SchedulingSafety.Annotated(p, "false") && !SchedulingSafety.IsHelper(p)
    ensures BuildMember(name, st, f, pools, spec, rules, now).blocking != []
  {
    BlockingExact(f.pods, rules, spec.selector);
  }
}
