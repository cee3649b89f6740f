/** What the packing keeps: every pod accounted for once, no machine overfilled, and no pod left
    waiting that could still be placed. */
module ScaleUpSafety {
  import opened Prelude
  import opened Resources
  import opened Scheduling
  import opened PoolModel
  import opened ScaleUp
  import Ordering

  function Requests(pods: seq<PodView>): seq<Amounts> {
    seq(|pods|, i requires 0 <= i < |pods| => pods[i].requests)
  }

  function Carried(bins: seq<Bin>): seq<PodView> {
    if bins == [] then [] else Carried(bins[..|bins| - 1]) + bins[|bins| - 1].carried
  }

  function PodsOf(waiting: seq<Waiting>): seq<PodView> {
    seq(|waiting|, i requires 0 <= i < |waiting| => waiting[i].pod)
  }

  function MembersOf(bins: seq<Bin>): seq<Member> {
    seq(|bins|, i requires 0 <= i < |bins| => bins[i].member)
  }

  // ----- every pod is placed once or left waiting -------------------------------------------

  lemma {:induction false} CarriedWith(bins: seq<Bin>, b: Bin)
    ensures multiset(Carried(bins + [b])) == multiset(Carried(bins)) + multiset(b.carried)
  {
    assert (bins + [b])[..|bins|] == bins;
  }

  lemma {:induction false} PutCarries(bins: seq<Bin>, k: nat, pod: PodView)
    requires k < |bins|
    ensures multiset(Carried(bins[k := Put(bins[k], pod)])) == multiset(Carried(bins)) + multiset{pod}
  {
    var front, last := bins[..|bins| - 1], bins[|bins| - 1];
    assert bins == front + [last];
    CarriedWith(front, last);
    if k < |front| {
      assert bins[k := Put(bins[k], pod)] == front[k := Put(front[k], pod)] + [last];
      CarriedWith(front[k := Put(front[k], pod)], last);
      PutCarries(front, k, pod);
    } else {
      assert bins[k := Put(bins[k], pod)] == front + [Put(last, pod)];
      CarriedWith(front, Put(last, pod));
    }
  }

  lemma {:induction false} BootingBinsAre(members: seq<Member>)
    ensures BootingBins(members) == seq(|Filter(IsBooting, members)|,
      i requires 0 <= i < |Filter(IsBooting, members)| => BootingBin(Filter(IsBooting, members)[i]))
  {
    if members != [] {
      BootingBinsAre(members[..|members| - 1]);
    }
  }

  lemma {:induction false} EmptyBinsCarryNothing(bins: seq<Bin>)
    requires forall i :: 0 <= i < |bins| ==> bins[i].carried == []
    ensures Carried(bins) == []
  {
    if bins != [] {
      EmptyBinsCarryNothing(bins[..|bins| - 1]);
    }
  }

  lemma {:induction false} BootingBinsEmpty(members: seq<Member>)
    ensures MembersOf(BootingBins(members)) == Filter(IsBooting, members)
    ensures Carried(BootingBins(members)) == []
  {
    BootingBinsAre(members);
    EmptyBinsCarryNothing(BootingBins(members));
  }

  predicate Accounted(pods: seq<PodView>, st: Packing) {
    multiset(Carried(st.bins)) + multiset(PodsOf(st.unplaced)) == multiset(pods)
  }

  lemma WaitAccounts(pods: seq<PodView>, st: Packing, pod: PodView, why: WhyWaiting)
    requires Accounted(pods, st)
    ensures Accounted(pods + [pod], Wait(st, pod, why))
  {
    assert PodsOf(Wait(st, pod, why).unplaced) == PodsOf(st.unplaced) + [pod];
  }

  lemma PlaceAccounts(s: Snapshot, pods: seq<PodView>, st: Packing, pod: PodView)
    requires Accounted(pods, st)
    ensures Accounted(pods + [pod], Place(s, st, pod))
  {
    var k := FirstBin(st.bins, pod);
    var j := FirstMachine(st.offline, pod);
    if !s.spec.upEnabled {
      WaitAccounts(pods, st, pod, UpDisabled);
    } else if k < |st.bins| {
      PutCarries(st.bins, k, pod);
    } else if Limit(s, |st.chosen|).Some? {
      WaitAccounts(pods, st, pod, Limit(s, |st.chosen|).value);
    } else if j < |st.offline| {
      CarriedWith(st.bins, Put(Open(st.offline[j]), pod));
    } else {
      WaitAccounts(pods, st, pod, NothingFits);
    }
  }

  /** Every pod considered is carried by exactly one bin or left waiting, and nothing else is. */
  lemma {:induction false} EachPodOnce(s: Snapshot, pods: seq<PodView>)
    ensures Accounted(pods, Pack(s, pods))
  {
    if pods == [] {
      BootingBinsEmpty(s.members);
    } else {
      var front, pod := pods[..|pods| - 1], pods[|pods| - 1];
      EachPodOnce(s, front);
      PlaceAccounts(s, front, Pack(s, front), pod);
      assert pods == front + [pod];
    }
  }

  // ----- no bin is overfilled ---------------------------------------------------------------

  /** What a machine on its way up can take: all of it, less what already runs there if it is
      booting. */
  function Room(m: Member): Amounts {
    if IsBooting(m) then m.allocatable.Minus(m.requested) else m.allocatable
  }

  predicate Suits(pod: PodView, m: Member) { PodMatchesNode(pod, m.labels, m.taints) }

  /** The capacity ledger of a bin: what is left is what there was less what was placed, a bin
      that carries anything is not overfilled, and it carries only pods that may run there. */
  ghost predicate Kept(b: Bin) {
    && b.free == Room(b.member).Minus(Sum(Requests(b.carried)))
    && (b.carried != [] ==> b.free.NonNegative())
    && forall p <- b.carried :: Suits(p, b.member)
  }

  lemma PutKeeps(b: Bin, pod: PodView)
    requires Kept(b) && Takes(b, pod)
    ensures Kept(Put(b, pod))
  {
    var before, after := Requests(b.carried), Requests(b.carried + [pod]);
    assert after[..|after| - 1] == before;
    forall p | p in b.carried + [pod] ensures Suits(p, b.member) {
    }
  }

  ghost predicate AllKept(st: Packing) { forall b <- st.bins :: Kept(b) }

  ghost predicate Closed(st: Packing) { forall m <- st.offline :: CanOpen(m) }

  lemma PlaceLeavesClosed(s: Snapshot, st: Packing, pod: PodView)
    requires Closed(st)
    ensures Closed(Place(s, st, pod))
  {
    forall m | m in Place(s, st, pod).offline ensures CanOpen(m) {
      assert m in st.offline;
    }
  }

  lemma OpenKeeps(m: Member, pod: PodView)
    requires CanOpen(m) && FitsOn(pod, m, m.allocatable)
    ensures Kept(Put(Open(m), pod))
  {
    assert Requests([]) == [];
    PutKeeps(Open(m), pod);
  }

  lemma PlaceKeeps(s: Snapshot, st: Packing, pod: PodView)
    requires AllKept(st) && Closed(st)
    ensures AllKept(Place(s, st, pod))
  {
    var k := FirstBin(st.bins, pod);
    var j := FirstMachine(st.offline, pod);
    if k < |st.bins| {
      PutKeeps(st.bins[k], pod);
    } else if j < |st.offline| {
      assert CanOpen(st.offline[j]);
      OpenKeeps(st.offline[j], pod);
    }
  }

  /** Bins never carry more than their capacity, whatever is packed. */
  lemma {:induction false} NothingOverfilled(s: Snapshot, pods: seq<PodView>)
    ensures AllKept(Pack(s, pods)) && Closed(Pack(s, pods))
  {
    if pods == [] {
      BootingBinsAre(s.members);
      FilterExact(IsBooting, s.members);
      assert Requests([]) == [];
      FilterExact(CanOpen, s.members);
      forall m | m in RankedOffline(s) ensures CanOpen(m) {
        Ordering.SortMembership((a, b) => Before(s.spec, a, b), Filter(CanOpen, s.members), m);
      }
    } else {
      NothingOverfilled(s, pods[..|pods| - 1]);
      PlaceKeeps(s, Pack(s, pods[..|pods| - 1]), pods[|pods| - 1]);
      PlaceLeavesClosed(s, Pack(s, pods[..|pods| - 1]), pods[|pods| - 1]);
    }
  }

  // ----- what is opened ---------------------------------------------------------------------

  /** The bins are the booting machines, then the opened ones; each opened one carries a pod. */
  ghost predicate Shaped(s: Snapshot, st: Packing) {
    var booting := Filter(IsBooting, s.members);
    && MembersOf(st.bins) == booting + st.chosen
    && forall i :: |booting| <= i < |st.bins| ==> st.bins[i].carried != []
  }

  /** Opened machines come from the candidates, each at most once. */
  ghost predicate Drawn(s: Snapshot, st: Packing) {
    multiset(st.offline) + multiset(st.chosen) == multiset(Filter(CanOpen, s.members))
  }

  ghost predicate WithinLimits(s: Snapshot, st: Packing) {
    && (|st.chosen| <= s.spec.upStep || |st.chosen| <= 1)
    && (st.chosen == [] || s.spec.maxOnline.None? || OnlineNow(s) + |st.chosen| <= s.spec.maxOnline.value)
  }

  lemma RemoveAtElements<T>(xs: seq<T>, k: nat)
    requires k < |xs|
    ensures multiset(xs) == multiset(RemoveAt(xs, k)) + multiset{xs[k]}
  {
    assert xs == xs[..k] + [xs[k]] + xs[k + 1..];
  }

  lemma PlaceShapes(s: Snapshot, st: Packing, pod: PodView)
    requires Shaped(s, st)
    ensures Shaped(s, Place(s, st, pod))
  {
    var after := Place(s, st, pod);
    var k := FirstBin(st.bins, pod);
    if |after.bins| == |st.bins| {
      assert MembersOf(after.bins) == MembersOf(st.bins);
    } else {
      assert MembersOf(after.bins) == MembersOf(st.bins) + [after.bins[|st.bins|].member];
    }
  }

  lemma PlaceDraws(s: Snapshot, st: Packing, pod: PodView)
    requires Drawn(s, st)
    ensures Drawn(s, Place(s, st, pod))
  {
    var j := FirstMachine(st.offline, pod);
    var after := Place(s, st, pod);
    if after.chosen != st.chosen {
      RemoveAtElements(st.offline, j);
      assert multiset(after.chosen) == multiset(st.chosen) + multiset{st.offline[j]};
    }
  }

  lemma PlaceLimits(s: Snapshot, st: Packing, pod: PodView)
    requires WithinLimits(s, st)
    ensures WithinLimits(s, Place(s, st, pod))
  {
  }

  lemma {:induction false} OpenedMachinesCarryPods(s: Snapshot, pods: seq<PodView>)
    ensures Shaped(s, Pack(s, pods))
  {
    if pods == [] {
      BootingBinsEmpty(s.members);
    } else {
      OpenedMachinesCarryPods(s, pods[..|pods| - 1]);
      PlaceShapes(s, Pack(s, pods[..|pods| - 1]), pods[|pods| - 1]);
    }
  }

  lemma {:induction false} OpenedAreDrawn(s: Snapshot, pods: seq<PodView>)
    ensures Drawn(s, Pack(s, pods))
  {
    if pods == [] {
      Ordering.SortKeepsElements((a, b) => Before(s.spec, a, b), Filter(CanOpen, s.members));
    } else {
      OpenedAreDrawn(s, pods[..|pods| - 1]);
      PlaceDraws(s, Pack(s, pods[..|pods| - 1]), pods[|pods| - 1]);
    }
  }

  lemma {:induction false} OpenedWithinLimits(s: Snapshot, pods: seq<PodView>)
    ensures WithinLimits(s, Pack(s, pods))
  {
    if pods != [] {
      OpenedWithinLimits(s, pods[..|pods| - 1]);
      PlaceLimits(s, Pack(s, pods[..|pods| - 1]), pods[|pods| - 1]);
    }
  }

  // ----- the best machine that fits ---------------------------------------------------------

  predicate FitsWhole(pod: PodView, m: Member) { FitsOn(pod, m, m.allocatable) }

  ghost predicate OfflineRanked(s: Snapshot, st: Packing) {
    Ordering.Ranked((a, b) => Before(s.spec, a, b), st.offline)
  }

  lemma {:induction false} OfflineStaysRanked(s: Snapshot, pods: seq<PodView>)
    requires DistinctNames(s.members)
    ensures OfflineRanked(s, Pack(s, pods))
  {
    if pods == [] {
      FilterKeepsDistinct(CanOpen, s.members);
      RankingIsTotal(s.spec, Filter(CanOpen, s.members));
      Ordering.SortRanks((a, b) => Before(s.spec, a, b), Filter(CanOpen, s.members));
    } else {
      OfflineStaysRanked(s, pods[..|pods| - 1]);
    }
  }

  lemma PlaceOpensTheBest(s: Snapshot, st: Packing, pod: PodView, other: Member)
    requires OfflineRanked(s, st)
    requires |Place(s, st, pod).chosen| > |st.chosen|
    requires other in Place(s, st, pod).offline && FitsWhole(pod, other)
    ensures Before(s.spec, Place(s, st, pod).chosen[|st.chosen|], other)
    ensures forall b <- st.bins :: !Takes(b, pod)
  {
    var j := FirstMachine(st.offline, pod);
    var less := (a, b) => Before(s.spec, a, b);
    assert forall i :: j < i < |st.offline| ==> less(st.offline[j], st.offline[i]);
  }

  /** A machine opened for a pod comes before every other machine still off that fits the pod,
      and is opened only when nothing on its way up had room. */
  lemma {:induction false} OpensTheBestThatFits(s: Snapshot, pods: seq<PodView>, other: Member)
    requires DistinctNames(s.members) && pods != []
    requires var st, after := Pack(s, pods[..|pods| - 1]), Pack(s, pods);
      |after.chosen| > |st.chosen| && other in after.offline && FitsWhole(pods[|pods| - 1], other)
    ensures var st, after := Pack(s, pods[..|pods| - 1]), Pack(s, pods);
      && |after.chosen| == |st.chosen| + 1
      && Before(s.spec, after.chosen[|st.chosen|], other)
      && forall b <- st.bins :: !Takes(b, pods[|pods| - 1])
  {
    OfflineStaysRanked(s, pods[..|pods| - 1]);
    PlaceOpensTheBest(s, Pack(s, pods[..|pods| - 1]), pods[|pods| - 1], other);
  }

  // ----- maximality -------------------------------------------------------------------------

  ghost predicate Sane(pods: seq<PodView>) { forall p <- pods :: p.requests.NonNegative() }

  /** With that many machines opened no further one may be, and why. */
  predicate AtLimit(s: Snapshot, chosen: nat, why: WhyWaiting) {
    var full := s.spec.maxOnline.Some? && OnlineNow(s) + chosen >= s.spec.maxOnline.value;
    match why
    case MaxReached => full
    case StepReached => !full && chosen >= 1 && chosen >= s.spec.upStep
    case UpDisabled => false
    case NothingFits => false
  }

  /** A waiting pod fits in no bin, and either no further machine may be opened, for the reason
      given, or it fits on no machine still off. */
  ghost predicate NothingMissed(s: Snapshot, st: Packing, w: Waiting) {
    && (forall b <- st.bins :: !Takes(b, w.pod))
    && (w.why != NothingFits ==> AtLimit(s, |st.chosen|, w.why))
    && (w.why == NothingFits ==> forall m <- st.offline :: !FitsWhole(w.pod, m))
  }

  /** Capacity only shrinks: what did not fit before does not fit after. */
  lemma TakesLess(b: Bin, pod: PodView, other: PodView)
    requires pod.requests.NonNegative() && !Takes(b, other)
    ensures !Takes(Put(b, pod), other)
  {
  }

  lemma PlaceMissesNothing(s: Snapshot, st: Packing, pod: PodView, w: Waiting)
    requires s.spec.upEnabled && pod.requests.NonNegative() && NothingMissed(s, st, w)
    ensures NothingMissed(s, Place(s, st, pod), w)
  {
    var after := Place(s, st, pod);
    var k := FirstBin(st.bins, pod);
    var j := FirstMachine(st.offline, pod);
    if k < |st.bins| {
      forall b | b in after.bins ensures !Takes(b, w.pod) {
        if b == Put(st.bins[k], pod) {
          TakesLess(st.bins[k], pod, w.pod);
        } else {
          assert b in st.bins;
        }
      }
    } else if |after.bins| > |st.bins| {
      assert st.offline[j] in st.offline;
      TakesLess(Open(st.offline[j]), pod, w.pod);
      forall b | b in after.bins ensures !Takes(b, w.pod) {
        assert b in st.bins || b == Put(Open(st.offline[j]), pod);
      }
    }
  }

  lemma WaitMissesNothing(s: Snapshot, st: Packing, pod: PodView)
    requires s.spec.upEnabled && Place(s, st, pod).unplaced != st.unplaced
    ensures Place(s, st, pod).unplaced[..|st.unplaced|] == st.unplaced
    ensures |Place(s, st, pod).unplaced| == |st.unplaced| + 1
    ensures NothingMissed(s, Place(s, st, pod), Place(s, st, pod).unplaced[|st.unplaced|])
  {
    var after := Place(s, st, pod);
    forall b | b in after.bins ensures !Takes(b, pod) {
      var i :| 0 <= i < |after.bins| && after.bins[i] == b;
    }
    forall m | m in after.offline ensures FirstMachine(st.offline, pod) == |st.offline| ==> !FitsWhole(pod, m) {
      var i :| 0 <= i < |st.offline| && st.offline[i] == m;
    }
  }

  /** With scale-up disabled no machine is opened for a pod, and every pod waits for that reason. */
  lemma {:induction false} DisabledOpensNothing(s: Snapshot, pods: seq<PodView>)
    requires !s.spec.upEnabled
    ensures Pack(s, pods).chosen == [] && Pack(s, pods).bins == Start(s).bins
    ensures Pack(s, pods).unplaced == seq(|pods|, i requires 0 <= i < |pods| => Waiting(pods[i], UpDisabled))
  {
    if pods != [] {
      DisabledOpensNothing(s, pods[..|pods| - 1]);
    }
  }

  /** First fit leaves no pod behind that could still be placed. */
  lemma {:induction false} PackingIsMaximal(s: Snapshot, pods: seq<PodView>)
    requires s.spec.upEnabled && Sane(pods)
    ensures forall w <- Pack(s, pods).unplaced :: NothingMissed(s, Pack(s, pods), w)
  {
    if pods != [] {
      var front, pod := pods[..|pods| - 1], pods[|pods| - 1];
      PackingIsMaximal(s, front);
      var st, after := Pack(s, front), Pack(s, pods);
      if after.unplaced != st.unplaced {
        WaitMissesNothing(s, st, pod);
      }
      forall w | w in after.unplaced ensures NothingMissed(s, after, w) {
        if w in st.unplaced {
          PlaceMissesNothing(s, st, pod, w);
        } else {
          assert w == after.unplaced[|st.unplaced|];
        }
      }
    }
  }

  lemma QueueIsPending(s: Snapshot)
    ensures multiset(Decreasing(RelevantPods(s))) == multiset(RelevantPods(s))
    ensures Sane(s.pending) ==> Sane(Decreasing(RelevantPods(s)))
  {
    Ordering.SortKeepsElements((a: PodView, b: PodView) => Larger(a.requests, b.requests), RelevantPods(s));
    if Sane(s.pending) {
      FilterExact(p => Selected(s, p), s.pending);
      FilterExact(p => Hostable(s, p), SelectedPods(s));
      forall p | p in Decreasing(RelevantPods(s)) ensures p.requests.NonNegative() {
        Ordering.SortMembership((a: PodView, b: PodView) => Larger(a.requests, b.requests), RelevantPods(s), p);
      }
    }
  }

  /** Scale-up as a whole: each relevant pod is carried once or waits; bins keep their ledger; the
      bins are the booting machines and the opened ones, each of which carries a pod. */
  lemma ScaleUpConserves(s: Snapshot)
    ensures var st := Packed(s);
      && Accounted(RelevantPods(s), st)
      && AllKept(st)
      && Shaped(s, st)
      && Drawn(s, st)
      && WithinLimits(s, st)
  {
    var queue := Decreasing(RelevantPods(s));
    QueueIsPending(s);
    EachPodOnce(s, queue);
    NothingOverfilled(s, queue);
    OpenedMachinesCarryPods(s, queue);
    OpenedAreDrawn(s, queue);
    OpenedWithinLimits(s, queue);
  }

  lemma ScaleUpIsMaximal(s: Snapshot)
    requires s.spec.upEnabled && Sane(s.pending)
    ensures forall w <- Packed(s).unplaced :: NothingMissed(s, Packed(s), w)
  {
    QueueIsPending(s);
    PackingIsMaximal(s, Decreasing(RelevantPods(s)));
  }

  // ----- counts -----------------------------------------------------------------------------

  function Least(a: int, b: int): int { if a < b then a else b }

  /** `minOnline`, capped by `maxOnline` and by what there is to power on. */
  function Floor(s: Snapshot, available: nat): int {
    var want := Least(s.spec.minOnline, available);
    if s.spec.maxOnline.Some? then Least(want, s.spec.maxOnline.value) else want
  }

  /** The top-up opens the best-ranked machines left. */
  lemma {:induction false} TopUpTakesTheNext(s: Snapshot, st: Packing)
    ensures var end := TopUp(s, st); var n := |end.chosen| - |st.chosen|;
      && 0 <= n <= |st.offline|
      && end.chosen == st.chosen + st.offline[..n]
      && end.offline == st.offline[n..]
    decreases |st.offline|
  {
    if BelowMin(s, st) && st.offline != [] {
      TopUpTakesTheNext(s, OpenNext(st));
    }
  }

  /** It opens no more than `minOnline` and `maxOnline` allow. */
  lemma {:induction false} TopUpStops(s: Snapshot, st: Packing)
    ensures |TopUp(s, st).chosen| > |st.chosen| ==>
      && OnlineNow(s) + |TopUp(s, st).chosen| <= s.spec.minOnline
      && (s.spec.maxOnline.Some? ==> OnlineNow(s) + |TopUp(s, st).chosen| <= s.spec.maxOnline.value)
    decreases |st.offline|
  {
    if BelowMin(s, st) && st.offline != [] {
      TopUpStops(s, OpenNext(st));
    }
  }

  /** It opens as many as they require and there are. */
  lemma {:induction false} TopUpReaches(s: Snapshot, st: Packing)
    ensures OnlineNow(s) + |TopUp(s, st).chosen| >= Floor(s, OnlineNow(s) + |st.chosen| + |st.offline|)
    decreases |st.offline|
  {
    if BelowMin(s, st) && st.offline != [] {
      TopUpReaches(s, OpenNext(st));
    }
  }

  lemma Partition<T>(all: seq<T>, left: seq<T>, taken: seq<T>, n: nat)
    requires multiset(left) + multiset(taken) == multiset(all) && n <= |left|
    ensures |left| + |taken| == |all|
    ensures multiset(taken + left[..n]) <= multiset(all)
  {
    assert |multiset(left) + multiset(taken)| == |left| + |taken|;
    assert |multiset(all)| == |all|;
    assert left == left[..n] + left[n..];
  }

  lemma {:induction false} TopUpDraws(s: Snapshot, st: Packing)
    requires Drawn(s, st)
    ensures multiset(TopUp(s, st).chosen) <= multiset(Filter(CanOpen, s.members))
    ensures |st.chosen| + |st.offline| == |Filter(CanOpen, s.members)|
  {
    var n := |TopUp(s, st).chosen| - |st.chosen|;
    assert 0 <= n <= |st.offline| && TopUp(s, st).chosen == st.chosen + st.offline[..n] by {
      TopUpTakesTheNext(s, st);
    }
    Partition(Filter(CanOpen, s.members), st.offline, st.chosen, n);
  }

  /** A plan powers on machines that are Auto and off, each at most once. */
  lemma PowerOnIsDrawn(s: Snapshot)
    ensures multiset(PowerOn(s)) <= multiset(Filter(CanOpen, s.members))
  {
    OpenedAreDrawn(s, Decreasing(RelevantPods(s)));
    TopUpDraws(s, Packed(s));
  }

  lemma {:induction false} TopUpBounds(s: Snapshot, st: Packing)
    requires Drawn(s, st) && WithinLimits(s, st)
    ensures var on := |TopUp(s, st).chosen|; var online := OnlineNow(s);
      && (on > 0 && s.spec.maxOnline.Some? ==> online + on <= s.spec.maxOnline.value)
      && online + on >= Floor(s, online + |Filter(CanOpen, s.members)|)
      && (on <= s.spec.upStep || on <= 1 || online + on <= s.spec.minOnline)
  {
    TopUpDraws(s, st);
    TopUpTakesTheNext(s, st);
    TopUpStops(s, st);
    TopUpReaches(s, st);
  }

  /** How many: never past `maxOnline`, never short of `minOnline` if machines are left, and past
      the step only to reach `minOnline`. */
  lemma PowerOnBounds(s: Snapshot)
    ensures var on := |PowerOn(s)|; var online := OnlineNow(s);
      && (on > 0 && s.spec.maxOnline.Some? ==> online + on <= s.spec.maxOnline.value)
      && online + on >= Floor(s, online + |Filter(CanOpen, s.members)|)
      && (on <= s.spec.upStep || on <= 1 || online + on <= s.spec.minOnline)
  {
    OpenedAreDrawn(s, Decreasing(RelevantPods(s)));
    OpenedWithinLimits(s, Decreasing(RelevantPods(s)));
    TopUpBounds(s, Packed(s));
  }

  // ----- the order members are listed in ----------------------------------------------------

  /** The same pool with its members listed in another order, the booting ones unmoved. */
  ghost predicate Relisted(s: Snapshot, t: Snapshot) {
    && t == s.(members := t.members)
    && multiset(s.members) == multiset(t.members)
    && Filter(IsBooting, s.members) == Filter(IsBooting, t.members)
  }

  lemma {:induction false} FilterSame<T>(p: T -> bool, q: T -> bool, xs: seq<T>)
    requires forall x <- xs :: p(x) == q(x)
    ensures Filter(p, xs) == Filter(q, xs)
  {
    if xs != [] {
      assert xs[|xs| - 1] in xs && forall x <- xs[..|xs| - 1] :: x in xs;
      FilterSame(p, q, xs[..|xs| - 1]);
    }
  }

  lemma RelevantIgnoresOrder(s: Snapshot, t: Snapshot)
    requires Relisted(s, t)
    ensures RelevantPods(s) == RelevantPods(t)
  {
    Ordering.SameElements(s.members, t.members);
    assert forall m :: m in s.members <==> m in Ordering.Elements(s.members);
    assert forall m :: m in t.members <==> m in Ordering.Elements(t.members);
    FilterSame(p => Selected(s, p), p => Selected(t, p), s.pending);
    forall p | p in SelectedPods(s) ensures Hostable(s, p) == Hostable(t, p) {
    }
    FilterSame(p => Hostable(s, p), p => Hostable(t, p), SelectedPods(s));
  }

  lemma {:induction false} PackSame(s: Snapshot, t: Snapshot, pods: seq<PodView>)
    requires s.spec == t.spec && OnlineNow(s) == OnlineNow(t) && Start(s) == Start(t)
    ensures Pack(s, pods) == Pack(t, pods)
  {
    if pods != [] {
      PackSame(s, t, pods[..|pods| - 1]);
    }
  }

  lemma {:induction false} TopUpSame(s: Snapshot, t: Snapshot, st: Packing)
    requires s.spec == t.spec && OnlineNow(s) == OnlineNow(t)
    ensures TopUp(s, st) == TopUp(t, st)
    decreases |st.offline|
  {
    if BelowMin(s, st) && st.offline != [] {
      TopUpSame(s, t, OpenNext(st));
    }
  }

  /** What is powered on, and in which order, does not depend on how the members are listed, as
      long as the booting ones keep their order (in particular, with none or one of them). */
  lemma PowerOnIgnoresOrder(s: Snapshot, t: Snapshot)
    requires DistinctNames(s.members) && DistinctNames(t.members) && Relisted(s, t)
    ensures PowerOn(s) == PowerOn(t) && Packed(s) == Packed(t)
  {
    RelevantIgnoresOrder(s, t);
    BootingBinsAre(s.members);
    BootingBinsAre(t.members);
    FilterIgnoresOrder(Counts, s.members, t.members);
    FilterIgnoresOrder(CanOpen, s.members, t.members);
    FilterKeepsDistinct(CanOpen, s.members);
    FilterKeepsDistinct(CanOpen, t.members);
    PowerOnRankIgnoresOrder(s.spec, Filter(CanOpen, s.members), Filter(CanOpen, t.members));
    PackSame(s, t, Decreasing(RelevantPods(s)));
    TopUpSame(s, t, Packed(s));
  }
}
