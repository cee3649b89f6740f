/** Concrete snapshots that show where the planner's promises end. */
module PlannerLimits {
  import opened Prelude
  import opened Clock
  import opened Resources
  import opened Scheduling
  import opened PoolModel
  import opened ScaleUp
  import opened ScaleDown
  import ScaleDownSafety
  import Planner
  import Ordering

  function Machine(name: string, state: MemberState, size: Amounts): Member {
    Member.Member(name, state, true, map[], [], size, ZERO, ZERO, [], [], None, false, map[], None, None)
  }

  function Demand(name: string, size: Amounts): PodView {
    PodView(name, size, map[], [], [], None, map[])
  }

  const PLAIN := Spec(NodeSelector(map[], []), 0, None, true, 0, 1, false, false, [], 0, true, 50, 0, None, None, 0, 1, 0)

  /** A pod that asks for nothing but room fits wherever there is room. */
  lemma OnlyRoomMatters(name: string, size: Amounts, m: Member, free: Amounts)
    requires m.labels == map[] && m.taints == []
    ensures FitsOn(Demand(name, size), m, free) == free.Fits(size)
  {
  }

  lemma SortOne<T>(less: (T, T) -> bool, x: T)
    ensures Ordering.SortBy(less, [x]) == [x]
  {
    assert [x][1..] == [];
    assert Ordering.SortBy(less, []) == [];
  }

  lemma SortTwo<T>(less: (T, T) -> bool, x: T, y: T)
    requires !less(y, x)
    ensures Ordering.SortBy(less, [x, y]) == [x, y]
  {
    SortOne(less, y);
    assert [x, y][1..] == [y];
  }

  lemma FilterThree<T>(keep: T -> bool, x: T, y: T, z: T)
    ensures Filter(keep, [x, y]) == (if keep(x) then [x] else []) + (if keep(y) then [y] else [])
    ensures Filter(keep, [x, y, z]) == Filter(keep, [x, y]) + if keep(z) then [z] else []
  {
    assert [x][..0] == [] && [x, y][..1] == [x] && [x, y, z][..2] == [x, y];
    assert Filter(keep, [x]) == if keep(x) then [x] else [];
  }

  // ----- the order booting machines are listed in -------------------------------------------

  /** Two machines booting, one off, and two pods waiting; nothing constrains where the pods go. */
  predicate Scene(wide: Member, thin: Member, spare: Member, small: PodView, tall: PodView) {
    && IsBooting(wide) && IsBooting(thin) && CanOpen(spare)
    && (forall m <- [wide, thin, spare] :: m.labels == map[] && m.taints == [] && m.requested == ZERO)
    && small == Demand(small.id, small.requests) && tall == Demand(tall.id, tall.requests)
    && !Larger(tall.requests, small.requests)
    && wide.allocatable.Fits(small.requests) && wide.allocatable.Fits(tall.requests)
    && !wide.allocatable.Minus(small.requests).Fits(tall.requests)
    && thin.allocatable.Fits(small.requests) && !thin.allocatable.Fits(tall.requests)
    && !thin.allocatable.Minus(small.requests).Fits(tall.requests)
    && spare.allocatable.Fits(tall.requests)
  }

  function Listed(members: seq<Member>, small: PodView, tall: PodView): Snapshot {
    Snapshot(PLAIN, members, [small, tall], 0, None, map[], [], map[])
  }

  lemma BothWait(members: seq<Member>, wide: Member, thin: Member, spare: Member, small: PodView, tall: PodView)
    requires Scene(wide, thin, spare, small, tall) && wide in members
    ensures Decreasing(RelevantPods(Listed(members, small, tall))) == [small, tall]
  {
    var s := Listed(members, small, tall);
    assert wide in [wide, thin, spare];
    OnlyRoomMatters(small.id, small.requests, wide, wide.allocatable);
    OnlyRoomMatters(tall.id, tall.requests, wide, wide.allocatable);
    assert Hostable(s, small) && Hostable(s, tall);
    FilterThree(p => Selected(s, p), small, tall, tall);
    FilterThree(p => Hostable(s, p), small, tall, tall);
    SortTwo((a: PodView, b: PodView) => Larger(a.requests, b.requests), small, tall);
  }

  lemma PackTwo(s: Snapshot, p: PodView, q: PodView)
    requires Decreasing(RelevantPods(s)) == [p, q]
    ensures Packed(s) == Place(s, Place(s, Start(s), p), q)
  {
    assert [p, q][..1] == [p] && [p][..0] == [];
    assert Pack(s, [p]) == Place(s, Pack(s, []), p);
  }

  lemma RankOne(spec: Spec, m: Member)
    ensures PowerOnRank(spec, [m]) == [m]
  {
    SortOne((a, b) => Before(spec, a, b), m);
  }

  lemma StartsWith(s: Snapshot, x: Member, y: Member, z: Member)
    requires IsBooting(x) && IsBooting(y) && CanOpen(z) && s.members == [x, y, z]
    ensures Start(s) == Packing([BootingBin(x), BootingBin(y)], [z], [], [])
  {
    assert [x, y, z][..2] == [x, y] && [x, y][..1] == [x] && [x][..0] == [];
    assert BootingBins([x]) == [BootingBin(x)];
    assert BootingBins([x, y]) == [BootingBin(x), BootingBin(y)];
    assert BootingBins([x, y, z]) == BootingBins([x, y]);
    FilterThree(CanOpen, x, y, z);
    assert Filter(CanOpen, [x, y, z]) == [z];
    RankOne(s.spec, z);
  }

  lemma FirstTakes(s: Snapshot, st: Packing, pod: PodView)
    requires s.spec.upEnabled && st.bins != [] && Takes(st.bins[0], pod)
    ensures Place(s, st, pod) == st.(bins := st.bins[0 := Put(st.bins[0], pod)])
  {
  }

  lemma SecondTakes(s: Snapshot, st: Packing, pod: PodView)
    requires s.spec.upEnabled && |st.bins| == 2 && !Takes(st.bins[0], pod) && Takes(st.bins[1], pod)
    ensures Place(s, st, pod).chosen == st.chosen
  {
  }

  lemma NoneTakes(s: Snapshot, st: Packing, pod: PodView)
    requires s.spec.upEnabled && |st.bins| == 2 && !Takes(st.bins[0], pod) && !Takes(st.bins[1], pod)
    requires Limit(s, |st.chosen|).None? && |st.offline| == 1 && FitsOn(pod, st.offline[0], st.offline[0].allocatable)
    ensures Place(s, st, pod).chosen == st.chosen + st.offline
  {
    assert st.offline[0] == st.offline[FirstMachine(st.offline, pod)];
  }

  lemma WideFirst(wide: Member, thin: Member, spare: Member, small: PodView, tall: PodView)
    requires Scene(wide, thin, spare, small, tall)
    ensures Packed(Listed([wide, thin, spare], small, tall)).chosen == [spare]
  {
    var s := Listed([wide, thin, spare], small, tall);
    BothWait([wide, thin, spare], wide, thin, spare, small, tall);
    PackTwo(s, small, tall);
    StartsWith(s, wide, thin, spare);
    OnlyRoomMatters(small.id, small.requests, wide, wide.allocatable);
    FirstTakes(s, Start(s), small);
    OnlyRoomMatters(tall.id, tall.requests, wide, wide.allocatable.Minus(small.requests));
    OnlyRoomMatters(tall.id, tall.requests, thin, thin.allocatable);
    OnlyRoomMatters(tall.id, tall.requests, spare, spare.allocatable);
    NoneTakes(s, Place(s, Start(s), small), tall);
  }

  lemma ThinFirst(wide: Member, thin: Member, spare: Member, small: PodView, tall: PodView)
    requires Scene(wide, thin, spare, small, tall)
    ensures Packed(Listed([thin, wide, spare], small, tall)).chosen == []
  {
    var s := Listed([thin, wide, spare], small, tall);
    BothWait([thin, wide, spare], wide, thin, spare, small, tall);
    PackTwo(s, small, tall);
    StartsWith(s, thin, wide, spare);
    OnlyRoomMatters(small.id, small.requests, thin, thin.allocatable);
    FirstTakes(s, Start(s), small);
    OnlyRoomMatters(tall.id, tall.requests, thin, thin.allocatable.Minus(small.requests));
    OnlyRoomMatters(tall.id, tall.requests, wide, wide.allocatable);
    SecondTakes(s, Place(s, Start(s), small), tall);
  }

  /** Booting machines are tried in the order they are listed, and that order alone can decide
      whether another machine is powered on: with the wide one first it takes the small pod. */
  lemma BootingOrderCanMatter(wide: Member, thin: Member, spare: Member, small: PodView, tall: PodView)
    requires Scene(wide, thin, spare, small, tall)
    ensures multiset([wide, thin, spare]) == multiset([thin, wide, spare])
    ensures Packed(Listed([wide, thin, spare], small, tall)).chosen == [spare]
    ensures Packed(Listed([thin, wide, spare], small, tall)).chosen == []
  {
    WideFirst(wide, thin, spare, small, tall);
    ThinFirst(wide, thin, spare, small, tall);
  }

  lemma SceneExists()
    ensures Scene(Machine("a", Booting, Amounts(2, 3, 9)), Machine("b", Booting, Amounts(2, 1, 9)),
                  Machine("c", Offline, Amounts(2, 3, 9)),
                  Demand("small", Amounts(2, 1, 1)), Demand("tall", Amounts(1, 3, 1)))
  {
  }

  // ----- a quiet pool that scales down ------------------------------------------------------

  predicate HoldIsOver(s: Snapshot) {
    s.lastScaleUp.Some? ==> s.now >= s.lastScaleUp.value + Seconds(s.spec.Hold())
  }

  /** Nothing is pending, booting, leaving or held back; the pool may remove its machines. */
  predicate Quiet(s: Snapshot) {
    && s.pending == [] && HoldIsOver(s) && s.keptByOthers == map[]
    && s.spec.minOnline == 0 && s.spec.maxOnline.None? && s.spec.downEnabled
    && forall m <- s.members :: m.state == Online && m.adoptedAt.None? && !(EXTERNAL <= m.name)
  }

  /** An Auto machine whose unneeded period has passed. */
  predicate Idle(s: Snapshot, m: Member) {
    && m in s.members && Candidate(m)
    && JudgedUnneeded(s, m) && s.now - Since(s, m.name) >= Seconds(s.spec.unneeded)
  }

  lemma {:induction false} NoneKept(keep: Member -> bool, ms: seq<Member>)
    requires forall m <- ms :: !keep(m)
    ensures Filter(keep, ms) == []
  {
    if ms != [] {
      assert ms[|ms| - 1] in ms && forall m <- ms[..|ms| - 1] :: m in ms;
      NoneKept(keep, ms[..|ms| - 1]);
    }
  }

  lemma {:induction false} NeverAdopted(ms: seq<Member>)
    requires forall m <- ms :: m.adoptedAt.None?
    ensures LastAdopted(ms).None?
  {
    if ms != [] {
      assert forall m <- ms[..|ms| - 1] :: m in ms;
      assert ms[|ms| - 1] in ms;
      NeverAdopted(ms[..|ms| - 1]);
    }
  }

  lemma QuietRuns(s: Snapshot)
    requires Quiet(s)
    ensures RunsDown(s) && OverMax(s) == 0 && Budget(s) == s.spec.DownStep() && WellNamed(s)
  {
    assert SelectedPods(s) == [] && RelevantPods(s) == [];
    assert Packed(s) == Start(s);
    assert PowerOn(s) == [];
    NeverAdopted(s.members);
    NoneKept(IsLeaving, s.members);
  }

  lemma OnlineCount(s: Snapshot, x: Member, y: Member)
    requires Quiet(s) && s.members == [x, y]
    ensures OnlineNow(s) == 2
  {
    FilterThree(Counts, x, y, y);
  }

  /** Two distinct machines where the planner removes `a` first. */
  predicate Pair(s: Snapshot, a: Member, b: Member) {
    Quiet(s) && s.members == [a, b] && a.name != b.name
  }

  // ----- a pod moved onto a machine that is removed next ------------------------------------

  lemma BothEligible(s: Snapshot, a: Member, b: Member)
    requires Pair(s, a, b) && Idle(s, a) && Idle(s, b) && Before(s.spec, b, a)
    ensures EligibleMembers(s) == [a, b]
  {
    FilterThree(Candidate, a, b, b);
    BeforeTotal(s.spec, a, b);
    SortTwo((x, y) => Before(s.spec, y, x), a, b);
    ScaleDownSafety.ExpiredExact(s, a);
    ScaleDownSafety.ExpiredExact(s, b);
    FilterThree(m => Eligible(s, m), a, b, b);
  }

  lemma {:induction false} RemoveTwo(s: Snapshot, a: Member, b: Member)
    requires WellNamed(s) && a in s.members && b in s.members
    ensures RemoveAll(s, []) == Removals(InitialFree(s), [])
    ensures RemoveAll(s, [a]) == Consider(s, RemoveAll(s, []), a)
    ensures RemoveAll(s, [a, b]) == Consider(s, RemoveAll(s, [a]), b)
  {
    assert [a, b][..1] == [a] && [a][..0] == [];
  }

  function Spare(m: Member): Amounts { m.allocatable.Minus(m.requested) }

  lemma TwoHosts(a: Member, b: Member)
    requires a.name != b.name && Hosts(a) && Hosts(b)
    ensures HostsFree([a, b]) == map[a.name := Spare(a), b.name := Spare(b)]
  {
    assert [a, b][..1] == [a] && [a][..0] == [];
    assert HostsFree([a]) == map[a.name := Spare(a)];
  }

  lemma OneTarget(s: Snapshot, a: Member, b: Member)
    requires s.members == [a, b] && a.name != b.name && Hosts(a) && Hosts(b)
    ensures Targets(s, a.name, {}) == [MemberTarget(b)] + Outside(s.external)
    ensures Targets(s, b.name, {a.name}) == Outside(s.external)
  {
    assert [a, b][1..] == [b] && [b][1..] == [];
    assert Standing([b], a.name, {}) == [MemberTarget(b)];
    assert Standing([b], b.name, {a.name}) == [];
  }

  lemma {:induction false} MoveOne(t: Target, free: Free, pod: PodView)
    requires t.key in free && HasRoom(free, t, pod)
    ensures MoveAll([t], free, [pod]) == Moved(Take(free, t.key, pod), [Move(pod, t.key)])
  {
    assert [pod][..0] == [];
    assert MoveAll([t], free, []) == Moved(free, []);
  }

  lemma ConsiderGoes(s: Snapshot, st: Removals, m: Member, free: Free, moves: seq<Move>)
    requires WellNamed(s) && Keyed(s, st) && m in s.members && Tries(s, |st.done|, m)
    requires Known(Targets(s, m.name, RemovedNames(st.done)), st.free - {m.name})
    requires MoveAll(Targets(s, m.name, RemovedNames(st.done)), st.free - {m.name}, Decreasing(m.movable))
      == Moved(free, moves)
    ensures Consider(s, st, m) == Removals(free, st.done + [Removal(m, moves)])
  {
  }

  lemma OneIsRemoved(r: Removal)
    ensures RemovedNames([]) == {} && RemovedNames([r]) == {r.member.name}
  {
    assert r in [r];
  }

  lemma FirstTrial(s: Snapshot, a: Member, b: Member, pod: PodView)
    requires Pair(s, a, b) && Hosts(a) && Hosts(b) && s.external == []
    requires a.movable == [pod] && FitsOn(pod, b, Spare(b))
    ensures InitialFree(s) == map[a.name := Spare(a), b.name := Spare(b)]
    ensures Known(Targets(s, a.name, {}), InitialFree(s) - {a.name})
    ensures MoveAll(Targets(s, a.name, {}), InitialFree(s) - {a.name}, Decreasing(a.movable))
      == Moved(Take(InitialFree(s) - {a.name}, b.name, pod), [Move(pod, b.name)])
  {
    TwoHosts(a, b);
    OneTarget(s, a, b);
    assert Outside([]) == [];
    assert Targets(s, a.name, {}) == [MemberTarget(b)];
    SortOne((x: PodView, y: PodView) => Larger(x.requests, y.requests), pod);
    MoveOne(MemberTarget(b), InitialFree(s) - {a.name}, pod);
  }

  lemma {:induction false} FirstGoes(s: Snapshot, a: Member, b: Member, pod: PodView)
    requires Pair(s, a, b) && Hosts(a) && Hosts(b) && WellNamed(s) && s.external == []
    requires Tries(s, 0, a) && a.movable == [pod] && FitsOn(pod, b, Spare(b))
    ensures RemoveAll(s, [a]).done == [Removal(a, [Move(pod, b.name)])]
  {
    RemoveTwo(s, a, b);
    FirstTrial(s, a, b, pod);
    OneIsRemoved(Removal(a, []));
    ConsiderGoes(s, RemoveAll(s, []), a, Take(InitialFree(s) - {a.name}, b.name, pod), [Move(pod, b.name)]);
  }

  lemma {:induction false} SecondGoes(s: Snapshot, a: Member, b: Member, moves: seq<Move>)
    requires Pair(s, a, b) && Hosts(a) && Hosts(b) && WellNamed(s) && s.external == []
    requires RemoveAll(s, [a]).done == [Removal(a, moves)] && Tries(s, 1, b) && b.movable == []
    ensures RemoveAll(s, [a, b]).done == [Removal(a, moves), Removal(b, [])]
  {
    RemoveTwo(s, a, b);
    OneTarget(s, a, b);
    OneIsRemoved(Removal(a, moves));
    var st := RemoveAll(s, [a]);
    ConsiderGoes(s, st, b, st.free - {b.name}, []);
  }

  /** The pod of the first machine removed may be moved onto the second, which is removed as well:
      with a step of two or more, a plan can evict a pod it has found no lasting place for. */
  lemma SecondRemovalCanStrand(s: Snapshot, a: Member, b: Member, pod: PodView)
    requires Pair(s, a, b) && s.external == [] && Idle(s, a) && Idle(s, b) && Before(s.spec, b, a)
    requires s.spec.DownStep() >= 2 && a.movable == [pod] && b.movable == []
    requires FitsOn(pod, b, Spare(b))
    ensures WellNamed(s)
    ensures PowerOff(s) == [Removal(a, [Move(pod, b.name)]), Removal(b, [])]
  {
    QuietRuns(s);
    OnlineCount(s, a, b);
    BothEligible(s, a, b);
    FirstGoes(s, a, b, pod);
    SecondGoes(s, a, b, [Move(pod, b.name)]);
  }

  // ----- a node listed twice ----------------------------------------------------------------

  lemma OneEligible(s: Snapshot, a: Member, h: Member)
    requires Pair(s, a, h) && Idle(s, a) && !h.auto
    ensures EligibleMembers(s) == [a]
  {
    FilterThree(Candidate, a, h, h);
    SortOne((x, y) => Before(s.spec, y, x), a);
    ScaleDownSafety.ExpiredExact(s, a);
    assert [a][..0] == [] && Candidates(s) == [a];
    assert Filter(m => Eligible(s, m), []) == [];
  }

  lemma HostTwice(s: Snapshot, a: Member, h: Member, e: ExternalNode)
    requires Pair(s, a, h) && Hosts(a) && Hosts(h) && s.external == [e]
    ensures h.name != ExternalKey(e.name) && a.name != ExternalKey(e.name)
    ensures InitialFree(s) == map[a.name := Spare(a), h.name := Spare(h), ExternalKey(e.name) := e.free]
    ensures Targets(s, a.name, {}) == [MemberTarget(h), ExternalTarget(e)]
  {
    assert EXTERNAL <= ExternalKey(e.name);
    assert h in s.members && a in s.members;
    TwoHosts(a, h);
    assert [e][..0] == [] && [e][1..] == [];
    assert WithExternals(HostsFree(s.members), []) == HostsFree(s.members);
    OneTarget(s, a, h);
    assert Outside([e]) == [ExternalTarget(e)];
  }

  lemma {:induction false} MoveTwo(t: Target, u: Target, free: Free, p: PodView, q: PodView)
    requires t.key in free && u.key in free && t.key != u.key
    requires HasRoom(free, t, p) && HasRoom(free, u, q) && !free[t.key].Minus(p.requests).Fits(q.requests)
    ensures MoveAll([t, u], free, [p, q])
      == Moved(Take(Take(free, t.key, p), u.key, q), [Move(p, t.key), Move(q, u.key)])
  {
    var ts := [t, u];
    assert [p, q][..1] == [p] && [p][..0] == [] && ts[1..] == [u];
    assert MoveAll(ts, free, []) == Moved(free, []);
    assert MoveAll(ts, free, [p]) == Moved(Take(free, t.key, p), [Move(p, t.key)]);
    assert FirstTarget(ts, Take(free, t.key, p), q) == 1;
  }

  lemma TwiceTrial(s: Snapshot, a: Member, h: Member, e: ExternalNode, p: PodView, q: PodView)
    requires Pair(s, a, h) && s.external == [e] && e == ExternalNode(h.name, h.labels, h.taints, Spare(h))
    requires a.movable == [p, q] && !Larger(q.requests, p.requests)
    requires FitsOn(p, h, e.free) && FitsOn(q, h, e.free) && !e.free.Minus(p.requests).Fits(q.requests)
    ensures Known(Targets(s, a.name, {}), InitialFree(s) - {a.name})
    ensures MoveAll(Targets(s, a.name, {}), InitialFree(s) - {a.name}, Decreasing(a.movable)).Moved?
    ensures MoveAll(Targets(s, a.name, {}), InitialFree(s) - {a.name}, Decreasing(a.movable)).moves
      == [Move(p, h.name), Move(q, ExternalKey(h.name))]
  {
    assert a in s.members && h in s.members;
    HostTwice(s, a, h, e);
    SortTwo((x: PodView, y: PodView) => Larger(x.requests, y.requests), p, q);
    MoveTwo(MemberTarget(h), ExternalTarget(e), InitialFree(s) - {a.name}, p, q);
  }

  /** A machine that is always on and selected by the pool is a member, and also a node outside:
      the simulation counts its free capacity twice, and puts two pods there that do not fit. */
  lemma AlwaysOnCountsTwice(s: Snapshot, a: Member, h: Member, e: ExternalNode, p: PodView, q: PodView)
    requires Pair(s, a, h) && Idle(s, a) && !h.auto
    requires s.external == [e] && e == ExternalNode(h.name, h.labels, h.taints, Spare(h))
    requires a.movable == [p, q] && !Larger(q.requests, p.requests)
    requires FitsOn(p, h, e.free) && FitsOn(q, h, e.free) && !e.free.Minus(p.requests).Fits(q.requests)
    ensures WellNamed(s)
    ensures PowerOff(s) == [Removal(a, [Move(p, h.name), Move(q, ExternalKey(h.name))])]
  {
    QuietRuns(s);
    OnlineCount(s, a, h);
    OneEligible(s, a, h);
    RemoveTwo(s, a, h);
    TwiceTrial(s, a, h, e, p, q);
    OneIsRemoved(Removal(a, []));
    var t := MoveAll(Targets(s, a.name, {}), InitialFree(s) - {a.name}, Decreasing(a.movable));
    ConsiderGoes(s, RemoveAll(s, []), a, t.free, t.moves);
  }

  /** The same snapshot with other pods on the idle machine. */
  function WithPods(s: Snapshot, a: Member, h: Member, pods: seq<PodView>): Snapshot {
    s.(members := [a.(movable := pods), h])
  }

  /** The plan puts more on the host, under its two keys together, than it has free. */
  ghost predicate Overfills(s: Snapshot, h: Member) {
    WellNamed(s) &&
    var load := ScaleDownSafety.NodeLoad(ScaleDownSafety.AllMoves(PowerOff(s)), h.name);
    load != ZERO && h.name in InitialFree(s) && !InitialFree(s)[h.name].Minus(load).NonNegative()
  }

  /** An idle Auto machine, a host that is not Auto, and a node outside: that host or another. */
  predicate Neighbours(s: Snapshot, a: Member, h: Member, e: ExternalNode) {
    && Pair(s, a, h) && Idle(s, a) && !h.auto && Hosts(h) && s.external == [e] && e.name != a.name
    && (e.name == h.name ==> e == ExternalNode(h.name, h.labels, h.taints, Spare(h)))
    && Spare(h).NonNegative() && Spare(h) != ZERO
  }

  /** A machine without load, under a spec without an unneeded period. */
  predicate Unused(s: Snapshot, m: Member) {
    && m in s.members && Candidate(m) && m.registering == map[] && m.blocking == [] && m.drainFailedAt.None?
    && !m.allocatable.UtilizedAtLeast(m.counted, s.spec.utilizationThreshold)
    && s.unneededSince == map[] && s.spec.unneeded == 0
  }

  lemma UnusedIsIdle(s: Snapshot, m: Member)
    requires Unused(s, m)
    ensures Idle(s, m)
  {
  }

  lemma NeighboursAre(s: Snapshot, a: Member, h: Member, e: ExternalNode)
    requires Pair(s, a, h) && Unused(s, a) && !h.auto && Hosts(h) && s.external == [e] && e.name != a.name
    requires e.labels == h.labels && e.taints == h.taints && e.free == Spare(h)
    requires Spare(h).NonNegative() && Spare(h) != ZERO
    ensures Neighbours(s, a, h, e)
  {
    UnusedIsIdle(s, a);
  }

  const SIZE := Amounts(2, 2, 9)

  function Alone(): Member { Machine("a", Online, SIZE) }

  function Host(): Member { Machine("h", Online, SIZE).(auto := false) }

  function Elsewhere(name: string): ExternalNode { ExternalNode(name, map[], [], SIZE) }

  function TwoMachines(e: ExternalNode): Snapshot { Snapshot(PLAIN, [Alone(), Host()], [], 0, None, map[], [e], map[]) }

  /** There are such, with the host listed outside and with another node there. */
  lemma NeighboursExist(name: string)
    requires name != "a"
    ensures Neighbours(TwoMachines(Elsewhere(name)), Alone(), Host(), Elsewhere(name))
  {
    var s := TwoMachines(Elsewhere(name));
    assert Alone() == s.members[0];
    assert Unused(s, Alone());
    assert Pair(s, Alone(), Host());
    NeighboursAre(s, Alone(), Host(), Elsewhere(name));
  }

  lemma StillNeighbours(s: Snapshot, a: Member, h: Member, e: ExternalNode, pods: seq<PodView>)
    requires Neighbours(s, a, h, e)
    ensures Neighbours(WithPods(s, a, h, pods), a.(movable := pods), h, e) && WellNamed(WithPods(s, a, h, pods))
  {
    var t, b := WithPods(s, a, h, pods), a.(movable := pods);
    assert a in s.members && h in s.members;
    assert SelectedPods(t) == [] && SelectedPods(s) == [];
    assert Pair(t, b, h);
    assert Judge(t, [], b) == Judge(s, [], a);
  }

  lemma {:induction false} OneRemovalMoves(r: Removal)
    ensures ScaleDownSafety.AllMoves([r]) == r.moves
  {
    assert [r][..0] == [] && ScaleDownSafety.AllMoves([]) == [];
  }

  lemma {:induction false} BothLoaded(p: PodView, q: PodView, node: string)
    ensures ScaleDownSafety.NodeLoad([Move(p, node), Move(q, ExternalKey(node))], node)
      == p.requests.Add(q.requests)
  {
    var none: seq<Move> := [];
    assert none + [Move(p, node)] == [Move(p, node)];
    assert [Move(p, node)] + [Move(q, ExternalKey(node))] == [Move(p, node), Move(q, ExternalKey(node))];
    ScaleDownSafety.LoadWith(none, Move(p, node), node);
    ScaleDownSafety.LoadWith([Move(p, node)], Move(q, ExternalKey(node)), node);
    ScaleDownSafety.LoadWith(none, Move(p, node), ExternalKey(node));
    ScaleDownSafety.LoadWith([Move(p, node)], Move(q, ExternalKey(node)), ExternalKey(node));
    assert |ExternalKey(node)| > |node|;
  }

  lemma TwiceIsOverfilled(s: Snapshot, a: Member, h: Member, e: ExternalNode, pod: PodView)
    requires Neighbours(s, a, h, e) && e.name == h.name && PodMatchesNode(pod, h.labels, h.taints)
    ensures var p := pod.(requests := Spare(h)); Overfills(WithPods(s, a, h, [p, p]), h)
  {
    var p := pod.(requests := Spare(h));
    var t, b := WithPods(s, a, h, [p, p]), a.(movable := [p, p]);
    StillNeighbours(s, a, h, e, [p, p]);
    assert FitsOn(p, h, e.free);
    HostTwice(t, b, h, e);
    AlwaysOnCountsTwice(t, b, h, e, p, p);
    OneRemovalMoves(Removal(b, [Move(p, h.name), Move(p, ExternalKey(h.name))]));
    BothLoaded(p, p, h.name);
  }

  lemma OnceIsNotOverfilled(s: Snapshot, a: Member, h: Member, e: ExternalNode)
    requires Neighbours(s, a, h, e) && WellNamed(s) && e.name != h.name
    ensures !Overfills(s, h)
  {
    assert h in s.members && ScaleDownSafety.Disjoint(s);
    if ScaleDownSafety.Receives(ScaleDownSafety.AllMoves(PowerOff(s)), h.name) {
      ScaleDownSafety.NoHostIsOverfilled(s, EligibleMembers(s), h);
    } else {
      ScaleDownSafety.UnfilledWithoutMoves(s, h);
    }
  }

  /** Whatever pods the idle machine has, the host is never overfilled, if and only if it is not listed
      as a node outside as well. */
  lemma CountedOnceExact(s: Snapshot, a: Member, h: Member, e: ExternalNode, pod: PodView)
    requires Neighbours(s, a, h, e) && PodMatchesNode(pod, h.labels, h.taints)
    ensures (forall pods: seq<PodView> :: !Overfills(WithPods(s, a, h, pods), h)) <==> ScaleDownSafety.Disjoint(s)
  {
    assert ScaleDownSafety.Disjoint(s) <==> e.name != h.name by {
      assert s.members == [a, h] && s.members[1] == h && s.external[0] == e;
    }
    if e.name == h.name {
      TwiceIsOverfilled(s, a, h, e, pod);
    } else {
      forall pods: seq<PodView> ensures !Overfills(WithPods(s, a, h, pods), h) {
        StillNeighbours(s, a, h, e, pods);
        OnceIsNotOverfilled(WithPods(s, a, h, pods), a.(movable := pods), h, e);
      }
    }
  }

  // ----- what a pool offers -----------------------------------------------------------------

  /** Agreement is given machine by machine: with one machine to spare, a pool lists as releasable
      every machine that is idle, and overlapping pools may between them take more than one. */
  lemma AgreementCanOvercommit(s: Snapshot, a: Member, b: Member)
    requires DistinctNames(s.members) && Hindered(s).None? && OnlineNow(s) == s.spec.minOnline + 1
    requires Idle(s, a) && Idle(s, b) && a.name != b.name
    ensures a.name in Planner.ReleasableNow(s) && b.name in Planner.ReleasableNow(s)
  {
    Planner.ReleasableExact(s, a.name);
    Planner.ReleasableExact(s, b.name);
    ScaleDownSafety.ExpiredExact(s, a);
    ScaleDownSafety.ExpiredExact(s, b);
    Planner.KeptForExact(s, a);
    Planner.KeptForExact(s, b);
  }
}
