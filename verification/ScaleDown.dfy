/** Scale-down: what makes a machine unneeded, and the removal loop that simulates moving its pods
    (`src/scaling.rs`, second half of `plan`). */
module ScaleDown {
  import opened Prelude
  import opened Clock
  import opened Resources
  import opened Scheduling
  import opened PoolModel
  import opened ScaleUp
  import Ordering

  // ----- when a machine is unneeded ---------------------------------------------------------

  /** The extended resources a pod wants that the machine's device plugin has yet to register. */
  predicate WaitsFor(pod: PodView, m: Member) {
    exists k <- pod.extended :: k in m.registering && m.registering[k] >= pod.extended[k]
  }

  /** A pod of the pool that would run here once the device plugin has registered. */
  predicate AwaitsRegistration(pod: PodView, m: Member) {
    WaitsFor(pod, m) && FitsOn(pod, m, m.allocatable.Minus(m.requested))
  }

  predicate WaitingForRegistration(m: Member, selected: seq<PodView>) {
    m.registering != map[] && exists p <- selected :: AwaitsRegistration(p, m)
  }

  /** Counts the pods waiting for the device plugin, one by one. */
  method CountWaiting(m: Member, selected: seq<PodView>) returns (count: nat)
    ensures count > 0 <==> WaitingForRegistration(m, selected)
  {
    count := 0;
    if m.registering == map[] {
      return;
    }
    for i := 0 to |selected|
      invariant count > 0 <==> exists p <- selected[..i] :: AwaitsRegistration(p, m)
    {
      assert selected[..i + 1] == selected[..i] + [selected[i]];
      if AwaitsRegistration(selected[i], m) {
        count := count + 1;
      }
    }
    assert selected[..|selected|] == selected;
  }

  /** Why a candidate is not (yet) judged unneeded. */
  datatype Verdict = AwaitingRegistration | BlockedByPods | DrainFailed | Busy | Unneeded

  function Judge(s: Snapshot, selected: seq<PodView>, m: Member): Verdict {
    if WaitingForRegistration(m, selected) then AwaitingRegistration
    else if m.blocking != [] then BlockedByPods
    else if m.drainFailedAt.Some? && s.now - m.drainFailedAt.value < Seconds(s.spec.drainFailureBackoff) then DrainFailed
    else if m.allocatable.UtilizedAtLeast(m.counted, s.spec.utilizationThreshold) then Busy
    else Unneeded
  }

  predicate JudgedUnneeded(s: Snapshot, m: Member) { Judge(s, SelectedPods(s), m) == Unneeded }

  function Since(s: Snapshot, name: string): int {
    if name in s.unneededSince then s.unneededSince[name] else s.now
  }

  /** Since when each of the machines has been unneeded. */
  function UnneededAmong(s: Snapshot, ms: seq<Member>): map<string, int> {
    if ms == [] then map[]
    else
      var rest, m := UnneededAmong(s, ms[..|ms| - 1]), ms[|ms| - 1];
      if JudgedUnneeded(s, m) then rest[m.name := Since(s, m.name)] else rest
  }

  function Candidates(s: Snapshot): seq<Member> { PowerOffRank(s.spec, Filter(Candidate, s.members)) }

  function UnneededNow(s: Snapshot): map<string, int> { UnneededAmong(s, Candidates(s)) }

  predicate Expired(s: Snapshot, m: Member) {
    var unneeded := UnneededNow(s);
    m.name in unneeded && s.now - unneeded[m.name] >= Seconds(s.spec.unneeded)
  }

  /** Powered on by hand under `PowerOff`, and past its grace: it goes busy or not. */
  predicate Released(s: Snapshot, m: Member) {
    m.releaseAfter.Some? && s.now >= m.releaseAfter.value && m.blocking == []
  }

  predicate Eligible(s: Snapshot, m: Member) {
    (OverMax(s) > 0 && m.blocking == []) || Expired(s, m) || Released(s, m)
  }

  function OverMax(s: Snapshot): nat { s.spec.ExcessOverMax(OnlineNow(s)) }

  function LeavingNow(s: Snapshot): nat { |Filter(IsLeaving, s.members)| }

  // ----- what holds scale-down back ---------------------------------------------------------

  function Latest(a: Option<int>, b: Option<int>): Option<int> {
    if a.None? then b else if b.None? || a.value >= b.value then a else b
  }

  function LastAdopted(ms: seq<Member>): Option<int> {
    if ms == [] then None else Latest(LastAdopted(ms[..|ms| - 1]), ms[|ms| - 1].adoptedAt)
  }

  /** When this pool last powered a machine on, or took one over that was powered on by hand. */
  function LastPowerOn(s: Snapshot): Option<int> { Latest(s.lastScaleUp, LastAdopted(s.members)) }

  predicate HoldsAfterPowerOn(s: Snapshot) {
    LastPowerOn(s).Some? && s.now < LastPowerOn(s).value + Seconds(s.spec.Hold())
  }

  datatype Hindrance = ScalingUp | DownDisabled | PodsPending | NodesBooting | HoldingAfterPowerOn

  function Hindered(s: Snapshot): Option<Hindrance> {
    if PowerOn(s) != [] then Some(ScalingUp)
    else if OverMax(s) > 0 then None
    else if !s.spec.downEnabled then Some(DownDisabled)
    else if RelevantPods(s) != [] then Some(PodsPending)
    else if exists m <- s.members :: IsBooting(m) then Some(NodesBooting)
    else if HoldsAfterPowerOn(s) then Some(HoldingAfterPowerOn)
    else None
  }

  // ----- moving pods ------------------------------------------------------------------------

  const EXTERNAL := "external/"

  function ExternalKey(name: string): string { EXTERNAL + name }

  /** Where a pod may go: a node's key in the free map, its labels and taints. */
  datatype Target = Target(key: string, labels: Labels, taints: seq<Taint>)

  datatype Move = Move(pod: PodView, key: string)

  function MemberTarget(m: Member): Target { Target(m.name, m.labels, m.taints) }

  function ExternalTarget(e: ExternalNode): Target { Target(ExternalKey(e.name), e.labels, e.taints) }

  /** The members still standing, in the order listed, less the one being looked at. */
  function Standing(ms: seq<Member>, self: string, removed: set<string>): seq<Target> {
    if ms == [] then []
    else
      var m := ms[0];
      (if Hosts(m) && m.name != self && m.name !in removed then [MemberTarget(m)] else [])
      + Standing(ms[1..], self, removed)
  }

  function Outside(es: seq<ExternalNode>): seq<Target> {
    if es == [] then [] else [ExternalTarget(es[0])] + Outside(es[1..])
  }

  function Targets(s: Snapshot, self: string, removed: set<string>): seq<Target> {
    Standing(s.members, self, removed) + Outside(s.external)
  }

  type Free = map<string, Amounts>

  predicate HasRoom(free: Free, t: Target, pod: PodView)
    requires t.key in free
  {
    free[t.key].Fits(pod.requests) && PodMatchesNode(pod, t.labels, t.taints)
  }

  predicate Known(targets: seq<Target>, free: Free) { forall t <- targets :: t.key in free }

  function FirstTarget(targets: seq<Target>, free: Free, pod: PodView): (k: nat)
    requires Known(targets, free)
    ensures k <= |targets|
    ensures k < |targets| ==> HasRoom(free, targets[k], pod)
    ensures forall i :: 0 <= i < k ==> !HasRoom(free, targets[i], pod)
  {
    if targets == [] then 0
    else if HasRoom(free, targets[0], pod) then 0
    else
      assert Known(targets[1..], free) by { assert forall t <- targets[1..] :: t in targets; }
      1 + FirstTarget(targets[1..], free, pod)
  }

  datatype Trial = Stuck | Moved(free: Free, moves: seq<Move>)

  function Take(free: Free, key: string, pod: PodView): Free
    requires key in free
  {
    free[key := free[key].Minus(pod.requests)]
  }

  function MoveAll(targets: seq<Target>, free: Free, pods: seq<PodView>): (t: Trial)
    requires Known(targets, free)
    ensures t.Moved? ==> t.free.Keys == free.Keys
  {
    if pods == [] then Moved(free, [])
    else
      var pod := pods[|pods| - 1];
      match MoveAll(targets, free, pods[..|pods| - 1])
      case Stuck => Stuck
      case Moved(f, moves) =>
        var k := FirstTarget(targets, f, pod);
        if k < |targets| then Moved(Take(f, targets[k].key, pod), moves + [Move(pod, targets[k].key)]) else Stuck
  }

  // ----- the removal loop -------------------------------------------------------------------

  datatype Removal = Removal(member: Member, moves: seq<Move>)

  datatype Removals = Removals(free: Free, done: seq<Removal>)

  function RemovedNames(done: seq<Removal>): set<string> { set r <- done :: r.member.name }

  /** Capacity left on every member that hosts pods, and on the nodes outside every pool. */
  function HostsFree(ms: seq<Member>): Free {
    if ms == [] then map[]
    else
      var rest, m := HostsFree(ms[..|ms| - 1]), ms[|ms| - 1];
      if Hosts(m) then rest[m.name := m.allocatable.Minus(m.requested)] else rest
  }

  function WithExternals(free: Free, es: seq<ExternalNode>): Free {
    if es == [] then free
    else WithExternals(free, es[..|es| - 1])[ExternalKey(es[|es| - 1].name) := es[|es| - 1].free]
  }

  function InitialFree(s: Snapshot): Free { WithExternals(HostsFree(s.members), s.external) }

  function Budget(s: Snapshot): nat {
    var left := if s.spec.DownStep() > LeavingNow(s) then s.spec.DownStep() - LeavingNow(s) else 0;
    if OverMax(s) > left then OverMax(s) else left
  }

  predicate HeldByOthers(s: Snapshot, name: string) {
    name in s.keptByOthers && s.keptByOthers[name] != []
  }

  /** Whether the loop goes on to simulate moving the machine's pods away. */
  predicate Tries(s: Snapshot, removed: nat, m: Member) {
    !HeldByOthers(s, m.name) && removed < Budget(s) && OnlineNow(s) - removed > s.spec.minOnline
  }

  /** The keys the free map must have: hosts that stand, and the nodes outside. */
  ghost predicate Keyed(s: Snapshot, st: Removals) {
    forall k :: k in st.free <==>
      || (exists m <- s.members :: Hosts(m) && m.name == k && k !in RemovedNames(st.done))
      || (exists e <- s.external :: ExternalKey(e.name) == k)
  }

  /** Node names never look like the key of a node outside. */
  predicate WellNamed(s: Snapshot) { forall m <- s.members :: !(EXTERNAL <= m.name) }

  lemma {:induction false} StandingExact(ms: seq<Member>, self: string, removed: set<string>, t: Target)
    ensures t in Standing(ms, self, removed)
      <==> exists m <- ms :: MemberTarget(m) == t && Hosts(m) && m.name != self && m.name !in removed
  {
    if ms != [] {
      StandingExact(ms[1..], self, removed, t);
      assert forall m :: m in ms <==> m == ms[0] || m in ms[1..];
    }
  }

  lemma {:induction false} OutsideExact(es: seq<ExternalNode>, t: Target)
    ensures t in Outside(es) <==> exists e <- es :: ExternalTarget(e) == t
  {
    if es != [] {
      OutsideExact(es[1..], t);
      assert forall e :: e in es <==> e == es[0] || e in es[1..];
    }
  }

  /** Every place the simulation looks at has a key: the lookup of its free capacity never fails. */
  lemma TargetsAreKnown(s: Snapshot, st: Removals, m: Member)
    requires WellNamed(s) && Keyed(s, st) && m in s.members
    ensures Known(Targets(s, m.name, RemovedNames(st.done)), st.free - {m.name})
  {
    var removed := RemovedNames(st.done);
    forall t | t in Targets(s, m.name, removed) ensures t.key in st.free - {m.name} {
      StandingExact(s.members, m.name, removed, t);
      OutsideExact(s.external, t);
      if e :| e in s.external && ExternalTarget(e) == t {
        assert EXTERNAL <= ExternalKey(e.name);
      }
    }
  }

  lemma RemovalKeepsKeyed(s: Snapshot, st: Removals, m: Member, free: Free, moves: seq<Move>)
    requires WellNamed(s) && Keyed(s, st) && m in s.members && free.Keys == (st.free - {m.name}).Keys
    ensures Keyed(s, Removals(free, st.done + [Removal(m, moves)]))
  {
    var after := Removals(free, st.done + [Removal(m, moves)]);
    assert RemovedNames(after.done) == RemovedNames(st.done) + {m.name} by {
      assert Removal(m, moves) in after.done && forall r <- st.done :: r in after.done;
    }
    assert forall e <- s.external :: EXTERNAL <= ExternalKey(e.name);
  }

  /** One turn of the loop: remove the machine if it may go and its pods fit elsewhere. */
  function Consider(s: Snapshot, st: Removals, m: Member): (after: Removals)
    requires WellNamed(s) && Keyed(s, st) && m in s.members
    ensures Keyed(s, after)
  {
    TargetsAreKnown(s, st, m);
    if !Tries(s, |st.done|, m) then st
    else
      match MoveAll(Targets(s, m.name, RemovedNames(st.done)), st.free - {m.name}, Decreasing(m.movable))
      case Stuck => st
      case Moved(free, moves) =>
        RemovalKeepsKeyed(s, st, m, free, moves);
        Removals(free, st.done + [Removal(m, moves)])
  }

  lemma {:induction false} HostsFreeKeyed(ms: seq<Member>)
    ensures forall k :: k in HostsFree(ms) <==> exists m <- ms :: Hosts(m) && m.name == k
  {
    if ms != [] {
      HostsFreeKeyed(ms[..|ms| - 1]);
      assert forall m :: m in ms <==> m in ms[..|ms| - 1] || m == ms[|ms| - 1];
    }
  }

  lemma {:induction false} WithExternalsKeyed(free: Free, es: seq<ExternalNode>)
    ensures forall k :: k in WithExternals(free, es) <==> k in free || exists e <- es :: ExternalKey(e.name) == k
  {
    if es != [] {
      WithExternalsKeyed(free, es[..|es| - 1]);
      assert forall e :: e in es <==> e in es[..|es| - 1] || e == es[|es| - 1];
    }
  }

  lemma InitiallyKeyed(s: Snapshot)
    ensures Keyed(s, Removals(InitialFree(s), []))
  {
    HostsFreeKeyed(s.members);
    WithExternalsKeyed(HostsFree(s.members), s.external);
  }

  ghost predicate Within(ms: seq<Member>, all: seq<Member>) { forall m <- ms :: m in all }

  function RemoveAll(s: Snapshot, ms: seq<Member>): (st: Removals)
    requires WellNamed(s) && Within(ms, s.members)
    ensures Keyed(s, st)
  {
    if ms == [] then
      InitiallyKeyed(s);
      Removals(InitialFree(s), [])
    else
      assert Within(ms[..|ms| - 1], s.members) by { assert forall m <- ms[..|ms| - 1] :: m in ms; }
      Consider(s, RemoveAll(s, ms[..|ms| - 1]), ms[|ms| - 1])
  }

  lemma CandidatesExact(s: Snapshot)
    ensures forall m :: m in Candidates(s) <==> m in s.members && Candidate(m)
  {
    FilterExact(Candidate, s.members);
    forall m ensures m in Candidates(s) <==> m in Filter(Candidate, s.members) {
      Ordering.SortMembership((a, b) => Before(s.spec, b, a), Filter(Candidate, s.members), m);
    }
  }

  function EligibleMembers(s: Snapshot): (ms: seq<Member>)
    ensures Within(ms, s.members)
    ensures forall m :: m in ms <==> m in s.members && Candidate(m) && Eligible(s, m)
  {
    CandidatesExact(s);
    FilterExact(m => Eligible(s, m), Candidates(s));
    Filter(m => Eligible(s, m), Candidates(s))
  }

  predicate RunsDown(s: Snapshot) {
    Hindered(s).None? && (LeavingNow(s) < s.spec.DownStep() || OverMax(s) > 0)
  }

  /** The machines a plan powers off, with where their pods were moved in the simulation. */
  function PowerOff(s: Snapshot): seq<Removal>
    requires WellNamed(s)
  {
    if RunsDown(s) then RemoveAll(s, EligibleMembers(s)).done else []
  }

  // ----- the loops --------------------------------------------------------------------------

  lemma {:induction false} StuckStays(targets: seq<Target>, free: Free, pods: seq<PodView>, i: nat)
    requires Known(targets, free) && i <= |pods| && MoveAll(targets, free, pods[..i]) == Stuck
    ensures MoveAll(targets, free, pods) == Stuck
    decreases |pods|
  {
    if i < |pods| {
      assert pods[..|pods| - 1][..i] == pods[..i];
      StuckStays(targets, free, pods[..|pods| - 1], i);
    } else {
      assert pods[..i] == pods;
    }
  }

  /** Moves pods one by one, updating the free capacity, and gives up at the first that fits nowhere. */
  method TryMove(targets: seq<Target>, free: Free, pods: seq<PodView>) returns (t: Trial)
    requires Known(targets, free)
    ensures t == MoveAll(targets, free, pods)
  {
    var trial, moves := free, [];
    for i := 0 to |pods|
      invariant trial.Keys == free.Keys
      invariant MoveAll(targets, free, pods[..i]) == Moved(trial, moves)
    {
      assert pods[..i + 1][..i] == pods[..i];
      var k := FirstTarget(targets, trial, pods[i]);
      if k == |targets| {
        StuckStays(targets, free, pods, i + 1);
        return Stuck;
      }
      trial := Take(trial, targets[k].key, pods[i]);
      moves := moves + [Move(pods[i], targets[k].key)];
    }
    assert pods[..|pods|] == pods;
    return Moved(trial, moves);
  }

  /** The removal loop, replacing the free capacity by the trial's whenever a machine can go. */
  method RemovalLoop(s: Snapshot, eligible: seq<Member>) returns (done: seq<Removal>)
    requires WellNamed(s) && Within(eligible, s.members)
    ensures done == RemoveAll(s, eligible).done
  {
    var free := InitialFree(s);
    done := [];
    for i := 0 to |eligible|
      invariant Within(eligible[..i], s.members)
      invariant RemoveAll(s, eligible[..i]) == Removals(free, done)
    {
      var m := eligible[i];
      assert eligible[..i + 1][..i] == eligible[..i];
      assert Within(eligible[..i + 1], s.members);
      if !Tries(s, |done|, m) {
        continue;
      }
      TargetsAreKnown(s, Removals(free, done), m);
      var trial := TryMove(Targets(s, m.name, RemovedNames(done)), free - {m.name}, Decreasing(m.movable));
      if trial.Moved? {
        free := trial.free;
        done := done + [Removal(m, trial.moves)];
      }
    }
    assert eligible[..|eligible|] == eligible;
  }

  /** Judges the candidates one by one and notes since when each has been unneeded. */
  method JudgeCandidates(s: Snapshot, candidates: seq<Member>) returns (unneeded: map<string, int>)
    ensures unneeded == UnneededAmong(s, candidates)
  {
    var selected := SelectedPods(s);
    unneeded := map[];
    for i := 0 to |candidates|
      invariant unneeded == UnneededAmong(s, candidates[..i])
    {
      assert candidates[..i + 1][..i] == candidates[..i];
      var m := candidates[i];
      if Judge(s, selected, m) == Unneeded {
        unneeded := unneeded[m.name := Since(s, m.name)];
      }
    }
    assert candidates[..|candidates|] == candidates;
  }
}
