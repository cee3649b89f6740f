/** Scale-up: first-fit-decreasing packing of pending pods, then the `minOnline` top-up
    (`src/scaling.rs`, first half of `plan`). */
module ScaleUp {
  import opened Prelude
  import opened Clock
  import opened Resources
  import opened Scheduling
  import opened PoolModel
  import Ordering

  // ----- which pods count -------------------------------------------------------------------

  predicate FitsOn(pod: PodView, m: Member, free: Amounts) {
    free.Fits(pod.requests) && PodMatchesNode(pod, m.labels, m.taints)
  }

  /** Past the grace period, and aimed at this pool where the pool asks for that. */
  predicate Selected(s: Snapshot, pod: PodView) {
    && (pod.created.None? || s.now - pod.created.value >= Seconds(s.spec.pendingGrace))
    && (s.spec.requireSelection ==> ExplicitlySelects(pod, s.spec.selector))
  }

  predicate Hostable(s: Snapshot, pod: PodView) {
    exists m <- s.members :: FitsOn(pod, m, m.allocatable) && (IsBooting(m) || CanOpen(m))
  }

  function SelectedPods(s: Snapshot): seq<PodView> { Filter(p => Selected(s, p), s.pending) }

  function RelevantPods(s: Snapshot): seq<PodView> { Filter(p => Hostable(s, p), SelectedPods(s)) }

  /** Largest first, by CPU and then memory; equals keep their order. */
  function Decreasing(pods: seq<PodView>): seq<PodView> {
    Ordering.SortBy((a: PodView, b: PodView) => Larger(a.requests, b.requests), pods)
  }

  function OnlineNow(s: Snapshot): nat { |Filter(Counts, s.members)| }

  // ----- packing ----------------------------------------------------------------------------

  /** A machine that is on its way up, the capacity it has left, and what it has been given. */
  datatype Bin = Bin(member: Member, free: Amounts, carried: seq<PodView>)

  datatype WhyWaiting = UpDisabled | MaxReached | StepReached | NothingFits

  datatype Waiting = Waiting(pod: PodView, why: WhyWaiting)

  datatype Packing = Packing(
    bins: seq<Bin>,
    offline: seq<Member>,       // not opened yet, best first
    chosen: seq<Member>,        // opened, in this order
    unplaced: seq<Waiting>)

  function Put(b: Bin, pod: PodView): Bin {
    Bin(b.member, b.free.Minus(pod.requests), b.carried + [pod])
  }

  predicate Takes(b: Bin, pod: PodView) { FitsOn(pod, b.member, b.free) }

  function FirstBin(bins: seq<Bin>, pod: PodView): (k: nat)
    ensures k <= |bins|
    ensures k < |bins| ==> Takes(bins[k], pod)
    ensures forall i :: 0 <= i < k ==> !Takes(bins[i], pod)
  {
    if bins == [] then 0 else if Takes(bins[0], pod) then 0 else 1 + FirstBin(bins[1..], pod)
  }

  function FirstMachine(machines: seq<Member>, pod: PodView): (k: nat)
    ensures k <= |machines|
    ensures k < |machines| ==> FitsOn(pod, machines[k], machines[k].allocatable)
    ensures forall i :: 0 <= i < k ==> !FitsOn(pod, machines[i], machines[i].allocatable)
  {
    if machines == [] then 0
    else if FitsOn(pod, machines[0], machines[0].allocatable) then 0
    else 1 + FirstMachine(machines[1..], pod)
  }

  /** Why no further machine may be opened, if so. */
  function Limit(s: Snapshot, chosen: nat): Option<WhyWaiting> {
    if !s.spec.BelowMax(OnlineNow(s) + chosen) then Some(MaxReached)
    else if chosen >= s.spec.UpStep() then Some(StepReached)
    else None
  }

  function RemoveAt<T>(xs: seq<T>, k: nat): seq<T>
    requires k < |xs|
  {
    xs[..k] + xs[k + 1..]
  }

  function Open(m: Member): Bin { Bin(m, m.allocatable, []) }

  function Wait(st: Packing, pod: PodView, why: WhyWaiting): Packing {
    st.(unplaced := st.unplaced + [Waiting(pod, why)])
  }

  function Place(s: Snapshot, st: Packing, pod: PodView): Packing {
    var k := FirstBin(st.bins, pod);
    var j := FirstMachine(st.offline, pod);
    if !s.spec.upEnabled then Wait(st, pod, UpDisabled)
    else if k < |st.bins| then st.(bins := st.bins[k := Put(st.bins[k], pod)])
    else if Limit(s, |st.chosen|).Some? then Wait(st, pod, Limit(s, |st.chosen|).value)
    else if j < |st.offline| then
      Packing(st.bins + [Put(Open(st.offline[j]), pod)], RemoveAt(st.offline, j),
              st.chosen + [st.offline[j]], st.unplaced)
    else Wait(st, pod, NothingFits)
  }

  function BootingBin(m: Member): Bin { Bin(m, m.allocatable.Minus(m.requested), []) }

  function BootingBins(members: seq<Member>): seq<Bin> {
    if members == [] then []
    else
      var m := members[|members| - 1];
      BootingBins(members[..|members| - 1]) + if IsBooting(m) then [BootingBin(m)] else []
  }

  function RankedOffline(s: Snapshot): seq<Member> { PowerOnRank(s.spec, Filter(CanOpen, s.members)) }

  function Start(s: Snapshot): Packing { Packing(BootingBins(s.members), RankedOffline(s), [], []) }

  function Pack(s: Snapshot, pods: seq<PodView>): Packing {
    if pods == [] then Start(s)
    else Place(s, Pack(s, pods[..|pods| - 1]), pods[|pods| - 1])
  }

  /** The packing after the pod loop. */
  function Packed(s: Snapshot): Packing { Pack(s, Decreasing(RelevantPods(s))) }

  predicate BelowMin(s: Snapshot, st: Packing) {
    var online := OnlineNow(s) + |st.chosen|;
    online < s.spec.minOnline && s.spec.BelowMax(online)
  }

  function OpenNext(st: Packing): Packing
    requires st.offline != []
  {
    st.(chosen := st.chosen + [st.offline[0]], offline := st.offline[1..])
  }

  /** Opens machines in rank order up to `minOnline`. */
  function TopUp(s: Snapshot, st: Packing): Packing
    decreases |st.offline|
  {
    if BelowMin(s, st) && st.offline != [] then TopUp(s, OpenNext(st)) else st
  }

  function PowerOn(s: Snapshot): seq<Member> { TopUp(s, Packed(s)).chosen }

  /** The scale-up half of the planner, updating its bins, candidates and lists in place. */
  method ScaleUpStep(s: Snapshot) returns (powerOn: seq<Member>, unplaced: seq<Waiting>, relevant: nat)
    ensures powerOn == PowerOn(s)
    ensures unplaced == Packed(s).unplaced
    ensures relevant == |RelevantPods(s)|
  {
    var pods := RelevantPods(s);
    relevant := |pods|;
    pods := Decreasing(pods);
    var bins, offline := BootingBins(s.members), RankedOffline(s);
    powerOn, unplaced := [], [];
    for i := 0 to |pods|
      invariant Packing(bins, offline, powerOn, unplaced) == Pack(s, pods[..i])
    {
      var pod := pods[i];
      assert pods[..i + 1][..i] == pods[..i];
      if !s.spec.upEnabled {
        unplaced := unplaced + [Waiting(pod, UpDisabled)];
        continue;
      }
      var k := FirstBin(bins, pod);
      if k < |bins| {
        bins := bins[k := Put(bins[k], pod)];
        continue;
      }
      var limit := Limit(s, |powerOn|);
      if limit.Some? {
        unplaced := unplaced + [Waiting(pod, limit.value)];
        continue;
      }
      var j := FirstMachine(offline, pod);
      if j < |offline| {
        var m := offline[j];
        offline := RemoveAt(offline, j);
        powerOn := powerOn + [m];
        bins := bins + [Put(Open(m), pod)];
      } else {
        unplaced := unplaced + [Waiting(pod, NothingFits)];
      }
    }
    assert pods[..|pods|] == pods;
    ghost var packed := Packing(bins, offline, powerOn, unplaced);
    while BelowMin(s, Packing(bins, offline, powerOn, unplaced)) && offline != []
      invariant TopUp(s, Packing(bins, offline, powerOn, unplaced)) == TopUp(s, packed)
      invariant unplaced == packed.unplaced
      decreases |offline|
    {
      powerOn := powerOn + [offline[0]];
      offline := offline[1..];
    }
  }
}
