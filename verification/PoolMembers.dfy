/** How a pool sees the machines it selects (`src/controller/node_scaling_pool.rs`). */
module PoolMembers {
  import opened Prelude
  import opened Clock
  import opened Resources
  import opened Scheduling
  import opened PoolModel
  import M = MachineStatus
  import MachineStep

  // ----- state of a member ------------------------------------------------------------------

  /** The decision in force: one stored by a pool that still selects the machine. */
  function InForce(st: M.Status, pools: seq<string>): Option<M.PowerTarget> {
    if st.decision.Some? && st.decision.value.pool in pools then Some(st.decision.value.target) else None
  }

  predicate OnAndReady(st: M.Status) { st.phase == M.On && st.nodeReady }

  predicate IsDown(st: M.Status) { st.phase == M.Off || st.phase == M.Standby }

  function StateByPhase(st: M.Status): MemberState {
    match st.phase
    case On => if st.nodeReady then Online else Booting
    case PoweringOn => Booting
    case Off => Offline
    case Standby => Offline
    case Draining => Leaving
    case PoweringOff => Leaving
    case Unknown => Unavailable
    case Error => Unavailable
    case BootFailed => Unavailable
  }

  function StateOf(policy: M.PowerPolicy, st: M.Status, pools: seq<string>): MemberState {
    if st.inconsistent then Unavailable
    else if policy != M.Auto then
      if policy == M.AlwaysOn && OnAndReady(st) then Online else Unavailable
    else
      match InForce(st, pools)
      case Some(TurnOff) => if IsDown(st) then Offline else Leaving
      case Some(TurnOn) =>
        if OnAndReady(st) then Online
        else if st.phase == M.Error || st.phase == M.BootFailed then Unavailable
        else Booting
      case None => StateByPhase(st)
  }

  /** How boot failures and manual power changes shape a member, for one pool. */
  datatype Special = Special(state: Option<MemberState>, adoptedAt: Option<int>, releaseAfter: Option<int>)

  const PLAINLY := Special(None, None, None)

  const WITHHELD := Special(Some(Unavailable), None, None)

  predicate BackingOff(st: M.Status, spec: Spec, now: int) {
    && st.bootFailure.Some? && !st.bootFailure.value.leftOn
    && now < st.bootFailure.value.time + Seconds(spec.bootFailureBackoff)
  }

  predicate CoolingDown(st: M.Status, cooldown: int, now: int) {
    st.manualOff.Some? && cooldown > 0 && now < st.manualOff.value.time + Seconds(cooldown)
  }

  function Classify(st: M.Status, base: MemberState, policy: M.ManualPolicy, spec: Spec, cooldown: int, now: int)
    : Special
  {
    if st.phase == M.BootFailed && st.bootFailure.Some? then WITHHELD
    else if base == Offline then
      if BackingOff(st, spec, now) || CoolingDown(st, cooldown, now) then WITHHELD else PLAINLY
    else if st.manualOn.None? then PLAINLY
    else
      match policy
      case LeaveOn => Special(Some(if st.nodeReady then MemberState.Manual else Unavailable), None, None)
      case Adopt => Special(None, Some(st.manualOn.value.time), None)
      case TurnBackOff => Special(None, None, Some(st.manualOn.value.time + Seconds(spec.manualGrace)))
  }

  // ----- pods on a machine ------------------------------------------------------------------

  /** Which pods a pool leaves out of a machine's utilization. */
  datatype Ignoring = Ignoring(daemonSets: bool, nonSelecting: bool)

  predicate Ignored(pod: Pod, rules: Ignoring, selector: NodeSelector) {
    (rules.daemonSets && IsDaemonSetPod(pod)) || (rules.nonSelecting && !ExplicitlySelects(pod.view, selector))
  }

  datatype Tally = Tally(requested: Amounts, counted: Amounts, movable: seq<PodView>, blocking: seq<string>)

  function AddPod(t: Tally, pod: Pod, ignored: bool, drain: DrainClass): Tally {
    Tally(t.requested.Add(pod.view.requests),
          if ignored then t.counted else t.counted.Add(pod.view.requests),
          if drain == Evict then t.movable + [pod.view] else t.movable,
          if drain == Block then t.blocking + [pod.view.id] else t.blocking)
  }

  function TallyOf(pods: seq<Pod>, rules: Ignoring, selector: NodeSelector): Tally {
    if pods == [] then Tally(ZERO, ZERO, [], [])
    else
      var rest, pod := TallyOf(pods[..|pods| - 1], rules, selector), pods[|pods| - 1];
      if IsActive(pod) then AddPod(rest, pod, Ignored(pod, rules, selector), DrainClassOf(pod)) else rest
  }

  /** Goes over the pods bound to a machine once, adding up what they request. */
  method TallyPods(pods: seq<Pod>, rules: Ignoring, selector: NodeSelector) returns (t: Tally)
    ensures t == TallyOf(pods, rules, selector)
  {
    var requested, counted, movable, blocking := ZERO, ZERO, [], [];
    for i := 0 to |pods|
      invariant Tally(requested, counted, movable, blocking) == TallyOf(pods[..i], rules, selector)
    {
      assert pods[..i + 1][..i] == pods[..i];
      var pod := pods[i];
      if !IsActive(pod) {
        continue;
      }
      requested := requested.Add(pod.view.requests);
      if !Ignored(pod, rules, selector) {
        counted := counted.Add(pod.view.requests);
      }
      match DrainClassOf(pod)
      case Ignore =>
      case Evict => movable := movable + [pod.view];
      case Block => blocking := blocking + [pod.view.id];
    }
    assert pods[..|pods|] == pods;
    return Tally(requested, counted, movable, blocking);
  }

  function Classes(pods: seq<Pod>): seq<DrainClass> {
    seq(|pods|, i requires 0 <= i < |pods| => DrainClassOf(pods[i]))
  }

  lemma DrainedWith(classes: seq<DrainClass>, c: DrainClass)
    ensures MachineStep.NothingLeftToDrain(classes + [c]) <==> MachineStep.NothingLeftToDrain(classes) && c == Ignore
  {
    if MachineStep.NothingLeftToDrain(classes + [c]) {
      assert forall k :: 0 <= k < |classes| ==> classes[k] == (classes + [c])[k];
      assert (classes + [c])[|classes|] == c;
    }
  }

  /** The pool's view of a machine and the drain agree: no pod to move and none that blocks is the
      same as nothing left to drain. */
  lemma {:induction false} NothingToMoveIsDrained(pods: seq<Pod>, rules: Ignoring, selector: NodeSelector)
    ensures var t := TallyOf(pods, rules, selector);
      (t.movable == [] && t.blocking == []) <==> MachineStep.NothingLeftToDrain(Classes(pods))
  {
    if pods != [] {
      var front, last := pods[..|pods| - 1], pods[|pods| - 1];
      NothingToMoveIsDrained(front, rules, selector);
      assert Classes(pods) == Classes(front) + [DrainClassOf(last)];
      DrainedWith(Classes(front), DrainClassOf(last));
    }
  }

  /** What counts as utilization never exceeds what is requested. */
  lemma {:induction false} CountedIsPart(pods: seq<Pod>, rules: Ignoring, selector: NodeSelector)
    requires forall p <- pods :: p.view.requests.NonNegative()
    ensures var t := TallyOf(pods, rules, selector); t.requested.Fits(t.counted) && t.counted.NonNegative()
  {
    if pods != [] {
      assert forall p <- pods[..|pods| - 1] :: p in pods;
      assert pods[|pods| - 1] in pods;
      CountedIsPart(pods[..|pods| - 1], rules, selector);
    }
  }

  // ----- the member a pool plans with -------------------------------------------------------

  /** What is read about a machine besides its status. */
  datatype Facts = Facts(
    policy: M.PowerPolicy,
    labels: Labels,
    taints: seq<Taint>,
    allocatable: Amounts,
    pods: seq<Pod>,
    registering: map<string, int>,
    manualPolicy: M.ManualPolicy,
    cooldown: int)

  function BuildMember(name: string, st: M.Status, facts: Facts, memberOf: seq<string>, spec: Spec,
                       rules: Ignoring, now: int): PoolModel.Member
  {
    var t := TallyOf(facts.pods, rules, spec.selector);
    var base := StateOf(facts.policy, st, memberOf);
    var special := Classify(st, base, facts.manualPolicy, spec, facts.cooldown, now);
    PoolModel.Member(name, special.state.GetOr(base), facts.policy == M.Auto, facts.labels, facts.taints,
      facts.allocatable, t.requested, t.counted, t.movable, t.blocking, st.drainFailedAt, M.S3Capable(st, now),
      facts.registering, special.adoptedAt, special.releaseAfter)
  }

  /** Boot failures and manual changes only ever withhold a machine: its state stays what it was,
      or becomes Unavailable, or Manual for one left on by hand and Ready. */
  lemma ClassifyOnlyWithholds(st: M.Status, base: MemberState, policy: M.ManualPolicy, spec: Spec, cooldown: int, now: int)
    ensures var state := Classify(st, base, policy, spec, cooldown, now).state;
      && (state.None? || state == Some(Unavailable) || state == Some(MemberState.Manual))
      && (state == Some(MemberState.Manual) ==> st.manualOn.Some? && st.nodeReady && policy == M.LeaveOn && base != Offline)
  {
  }

  /** What a machine's status says when a pool may power it on: it is down, and any decision in
      force is an Off that has been carried out; no boot failure or manual power-off holds it back. */
  predicate FreeToStart(st: M.Status, facts: Facts, memberOf: seq<string>, spec: Spec, now: int) {
    && facts.policy == M.Auto && !st.inconsistent
    && IsDown(st) && InForce(st, memberOf) != Some(M.TurnOn)
    && !BackingOff(st, spec, now) && !CoolingDown(st, facts.cooldown, now)
  }

  lemma OpenExact(
    name: string, st: M.Status, facts: Facts, memberOf: seq<string>, spec: Spec, rules: Ignoring, now: int)
    ensures CanOpen(BuildMember(name, st, facts, memberOf, spec, rules, now))
      <==> FreeToStart(st, facts, memberOf, spec, now)
  {
  }

  /** And when a pool may power it off: it is on and Ready, no Off is in force, and it was not left
      on by hand. */
  predicate FreeToStop(st: M.Status, facts: Facts, memberOf: seq<string>) {
    && facts.policy == M.Auto && !st.inconsistent
    && OnAndReady(st) && InForce(st, memberOf) != Some(M.TurnOff)
    && !(st.manualOn.Some? && facts.manualPolicy == M.LeaveOn)
  }

  lemma CandidateExact(
    name: string, st: M.Status, facts: Facts, memberOf: seq<string>, spec: Spec, rules: Ignoring, now: int)
    ensures Candidate(BuildMember(name, st, facts, memberOf, spec, rules, now))
      <==> FreeToStop(st, facts, memberOf)
  {
  }
}
