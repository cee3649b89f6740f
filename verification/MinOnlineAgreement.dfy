/** When the lists that pools publish keep each of them at its `minOnline`, and a run of two pools in
    which they do not (`src/scaling.rs`, `src/controller/node_scaling_pool.rs`). */
module MinOnlineAgreement {
  import opened Prelude
  import opened Clock
  import opened Scheduling
  import opened PoolModel
  import opened PoolMembers
  import opened ScaleUp
  import opened ScaleDown
  import opened Planner
  import opened PoolProtocol
  import opened PoolSafety
  import ScaleDownSafety
  import PlannerLimits
  import Ordering
  import M = MachineStatus
  import Resources

  // ----- what a pool is left with -----------------------------------------------------------

  /** The members once machines of these names have been told to power off. */
  function Departed(ms: seq<PoolModel.Member>, offs: set<string>): seq<PoolModel.Member> {
    seq(|ms|, i requires 0 <= i < |ms| => if ms[i].name in offs then ms[i].(state := Leaving) else ms[i])
  }

  function After(s: Snapshot, offs: set<string>): Snapshot { s.(members := Departed(s.members, offs)) }

  function CountedNames(ms: seq<PoolModel.Member>): set<string> {
    if ms == [] then {}
    else
      var rest, m := CountedNames(ms[..|ms| - 1]), ms[|ms| - 1];
      if Counts(m) then rest + {m.name} else rest
  }

  lemma {:induction false} CountedNamesExact(ms: seq<PoolModel.Member>, name: string)
    ensures name in CountedNames(ms) <==> exists m <- ms :: m.name == name && Counts(m)
  {
    if ms != [] {
      CountedNamesExact(ms[..|ms| - 1], name);
      assert forall m :: m in ms <==> m in ms[..|ms| - 1] || m == ms[|ms| - 1];
    }
  }

  lemma {:induction false} DepartedCount(ms: seq<PoolModel.Member>, offs: set<string>)
    requires DistinctNames(ms)
    ensures |Filter(Counts, Departed(ms, offs))| + |CountedNames(ms) * offs| == |Filter(Counts, ms)|
  {
    if ms != [] {
      var front, m := ms[..|ms| - 1], ms[|ms| - 1];
      DepartedCount(front, offs);
      assert Departed(ms, offs)[..|front|] == Departed(front, offs);
      if Counts(m) {
        CountedNamesExact(front, m.name);
        assert m.name !in CountedNames(front);
        if m.name in offs {
          assert CountedNames(ms) * offs == CountedNames(front) * offs + {m.name};
        } else {
          assert CountedNames(ms) * offs == CountedNames(front) * offs;
        }
      }
    }
  }

  // ----- the published list, as a set -------------------------------------------------------

  ghost function Offered(s: Snapshot): set<string> { set name | name in ReleasableNow(s) }

  lemma {:induction false} LetGoSize(s: Snapshot, ms: seq<PoolModel.Member>)
    requires DistinctNames(ms)
    ensures |(set name | name in LetGo(s, ms))| == |LetGo(s, ms)|
  {
    if ms != [] {
      var front, m := ms[..|ms| - 1], ms[|ms| - 1];
      LetGoSize(s, front);
      LetGoExact(s, front, m.name);
      if KeptFor(s, m).None? {
        assert (set name | name in LetGo(s, ms)) == (set name | name in LetGo(s, front)) + {m.name};
      }
    }
  }

  lemma {:induction false} CandidatesDistinct(s: Snapshot)
    requires DistinctNames(s.members)
    ensures DistinctNames(Candidates(s))
  {
    ScaleDownSafety.CandidatesRanked(s);
    CandidatesExact(s);
    var ms := Candidates(s);
    forall i, j | 0 <= i < j < |ms| ensures ms[i].name != ms[j].name {
      assert ms[i] in ms && ms[j] in ms && Before(s.spec, ms[j], ms[i]);
      if ms[i].name == ms[j].name {
        ScaleDownSafety.SameName(s.members, ms[i], ms[j]);
        Ordering.TextLessTotal(ms[i].name, ms[i].name);
      }
    }
  }

  /** A pool offers each machine once, and only machines that count as online. */
  lemma {:induction false} OfferedSize(s: Snapshot)
    requires DistinctNames(s.members)
    ensures |Offered(s)| == |ReleasableNow(s)| && Offered(s) <= CountedNames(s.members)
  {
    CandidatesDistinct(s);
    LetGoSize(s, Candidates(s));
    var names := LetGo(s, Candidates(s));
    Ordering.SortKeepsElements(Ordering.TextLess, names);
    forall name ensures name in ReleasableNow(s) <==> name in names {
      Ordering.SortMembership(Ordering.TextLess, names, name);
    }
    assert Offered(s) == set name | name in names;
    forall name | name in Offered(s) ensures name in CountedNames(s.members) {
      ReleasableExact(s, name);
      CountedNamesExact(s.members, name);
    }
  }

  // ----- agreement and minOnline ------------------------------------------------------------

  /** Whichever of the machines it offers are told to power off, the pool keeps its `minOnline`. */
  ghost predicate KeepsMinOnline(s: Snapshot) {
    forall offs: set<string> :: offs <= Offered(s) ==> OnlineNow(After(s, offs)) >= s.spec.minOnline
  }

  /** Agreement keeps a pool at its `minOnline` if and only if it offers no more machines than it can
      spare. */
  lemma {:induction false} AgreementKeepsMinOnlineExact(s: Snapshot)
    requires DistinctNames(s.members)
    ensures KeepsMinOnline(s) <==> |ReleasableNow(s)| <= OnlineNow(s) - s.spec.minOnline
  {
    OfferedSize(s);
    forall offs: set<string> | offs <= Offered(s)
      ensures OnlineNow(After(s, offs)) == OnlineNow(s) - |offs| && |offs| <= |Offered(s)|
    {
      DepartedCount(s.members, offs);
      assert CountedNames(s.members) * offs == offs;
      SubsetSize(offs, Offered(s));
    }
    if KeepsMinOnline(s) {
      assert OnlineNow(After(s, Offered(s))) >= s.spec.minOnline;
    }
  }

  lemma SubsetSize<T>(a: set<T>, b: set<T>)
    requires a <= b
    ensures |a| <= |b|
  {
    assert b == a + (b - a);
  }

  // ----- a run in which a pool offers more than it can spare --------------------------------

  /** A machine that is on and Ready, with nothing on it and nothing held against it. */
  predicate AtRest(w: World, look: Look, name: string) {
    && name in w.machines && name in look.facts
    && (var st := w.machines[name];
        OnAndReady(st) && !st.inconsistent && st.decision.None? && st.manualOn.None? && st.drainFailedAt.None?)
    && (var f := look.facts[name];
        f.policy == M.Auto && f.pods == [] && f.registering == map[])
  }

  /** A pool that may remove machines the moment they are idle, and sees just these two. */
  predicate Eager(look: Look, a: string, b: string) {
    && look.order == [a, b] && a != b && !(EXTERNAL <= a) && !(EXTERNAL <= b)
    && look.pending == [] && look.external == []
    && look.spec.maxOnline.None? && look.spec.downEnabled && look.spec.unneeded == 0
    && look.spec.utilizationThreshold > 0
    && look.pool in PoolsSelecting(look, a) && look.pool in PoolsSelecting(look, b)
  }

  lemma {:induction false} RestingMember(w: World, look: Look, name: string)
    requires AtRest(w, look, name) && look.pool in PoolsSelecting(look, name) && look.spec.utilizationThreshold > 0
    ensures var m := MemberSeen(w, look, name);
      && m.name == name && m.auto && m.state == Online && m.adoptedAt.None? && m.movable == [] && m.blocking == []
      && m.registering == map[] && m.drainFailedAt.None? && m.counted == Resources.ZERO
  {
  }

  lemma {:induction false} TwoMembersSeen(w: World, look: Look, a: string, b: string)
    requires look.order == [a, b] && IsMember(w, look, a) && IsMember(w, look, b)
    ensures SnapshotSeen(w, look).members == [MemberSeen(w, look, a), MemberSeen(w, look, b)]
  {
    assert [a, b][..1] == [a] && [a][..0] == [];
    assert MembersSeen(w, look, [a]) == [MemberSeen(w, look, a)];
  }

  lemma {:induction false} RestingIsUnneeded(s: Snapshot, m: PoolModel.Member)
    requires m.blocking == [] && m.registering == map[] && m.drainFailedAt.None? && m.counted == Resources.ZERO
    requires s.spec.utilizationThreshold > 0
    ensures JudgedUnneeded(s, m)
  {
  }

  /** What an eager pool that has never powered anything on sees of two machines at rest. */
  lemma {:induction false} SeenAtRest(w: World, look: Look, a: string, b: string)
    requires Eager(look, a, b) && AtRest(w, look, a) && AtRest(w, look, b)
    requires StatusOf(w, look.pool).unneededSince == map[]
    ensures var s := SnapshotSeen(w, look); var x, y := MemberSeen(w, look, a), MemberSeen(w, look, b);
      && s.members == [x, y] && x.name == a && y.name == b && DistinctNames(s.members) && WellNamed(s) && Sound(look)
      && PlannerLimits.Idle(s, x) && PlannerLimits.Idle(s, y) && x.movable == [] && y.movable == []
      && x.state == Online && y.state == Online && x.adoptedAt.None? && y.adoptedAt.None?
  {
    var s := SnapshotSeen(w, look);
    RestingMember(w, look, a);
    RestingMember(w, look, b);
    TwoMembersSeen(w, look, a, b);
    SnapshotIsSound(w, look);
    RestingIsUnneeded(s, MemberSeen(w, look, a));
    RestingIsUnneeded(s, MemberSeen(w, look, b));
  }

  lemma {:induction false} TwoOnline(s: Snapshot, x: PoolModel.Member, y: PoolModel.Member)
    requires s.members == [x, y] && x.state == Online && y.state == Online
    ensures OnlineNow(s) == 2
  {
    PlannerLimits.FilterThree(Counts, x, y, y);
  }

  /** Nothing is powered on for a pool that is at its `minOnline` and has no pod waiting. */
  lemma {:induction false} NothingToStart(s: Snapshot)
    requires s.pending == [] && OnlineNow(s) >= s.spec.minOnline
    ensures PowerOn(s) == [] && RelevantPods(s) == []
  {
    assert SelectedPods(s) == [] && RelevantPods(s) == [];
    assert Packed(s) == Start(s);
  }

  lemma {:induction false} Unhindered(s: Snapshot)
    requires s.pending == [] && OnlineNow(s) >= s.spec.minOnline && s.lastScaleUp.None? && s.spec.downEnabled
    requires s.spec.maxOnline.None? && forall m <- s.members :: m.state == Online && m.adoptedAt.None?
    ensures Hindered(s).None?
  {
    NothingToStart(s);
    PlannerLimits.NeverAdopted(s.members);
  }

  // The first pool, which needs one of the two machines.

  /** Pool `q` needs one machine and sees two at rest; another pool, that has not evaluated yet,
      selects them as well. */
  predicate Needy(w: World, q: Look, other: string, a: string, b: string) {
    && Eager(q, a, b) && q.spec.minOnline == 1 && q.storedOk && q.pool != other
    && AtRest(w, q, a) && AtRest(w, q, b)
    && other in PoolsSelecting(q, a) && other in PoolsSelecting(q, b)
    && w.pools == map[]
  }

  lemma {:induction false} HeldByTheOther(w: World, q: Look, other: string, name: string)
    requires w.pools == map[] && other in PoolsSelecting(q, name) && other != q.pool
    requires name in q.order && IsMember(w, q, name)
    ensures HeldByOthers(SnapshotSeen(w, q), name)
  {
    HoldingExact(w, name, PoolsSelecting(q, name), q.pool, other);
    HoldsSeenExact(w, q, q.order, name);
  }

  lemma {:induction false} NeedyOffersBoth(w: World, q: Look, other: string, a: string, b: string)
    requires Needy(w, q, other, a, b)
    ensures var s := SnapshotSeen(w, q);
      && WellNamed(s) && PowerOn(s) == [] && PowerOff(s) == []
      && a in ReleasableNow(s) && b in ReleasableNow(s)
  {
    var s := SnapshotSeen(w, q);
    SeenAtRest(w, q, a, b);
    var x, y := MemberSeen(w, q, a), MemberSeen(w, q, b);
    TwoOnline(s, x, y);
    Unhindered(s);
    NothingToStart(s);
    PlannerLimits.AgreementCanOvercommit(s, x, y);
    HeldByTheOther(w, q, other, a);
    HeldByTheOther(w, q, other, b);
    ScaleDownSafety.PowerOffBounds(s);
    if PowerOff(s) != [] {
      var r := AnyOf(PowerOff(s));
    }
  }

  lemma {:induction false} AnyOf(done: seq<Removal>) returns (r: Removal)
    requires done != []
    ensures r in done
  {
    r := done[0];
  }

  lemma {:induction false} NothingDecided(w: World, look: Look)
    requires Sound(look) && PlanSeen(w, look).powerOn == [] && PlanSeen(w, look).powerOff == [] && look.storedOk
    ensures Evaluated(w, look).machines == w.machines
    ensures forall other :: other != look.pool ==> StatusOf(Evaluated(w, look), other) == StatusOf(w, other)
    ensures StatusOf(Evaluated(w, look), look.pool).releasable == ReleasableNow(SnapshotSeen(w, look))
  {
    assert Decided(w, look) == [];
    assert Stores(w, look);
  }

  lemma {:induction false} NeedyDecidesNothing(w: World, q: Look, other: string, a: string, b: string)
    requires Needy(w, q, other, a, b)
    ensures Sound(q) && PlanSeen(w, q).powerOn == [] && PlanSeen(w, q).powerOff == []
  {
    SeenAtRest(w, q, a, b);
    NeedyOffersBoth(w, q, other, a, b);
  }

  lemma {:induction false} AfterNeedy(w: World, q: Look, other: string, a: string, b: string)
    requires Needy(w, q, other, a, b)
    ensures Sound(q)
    ensures var after := Evaluated(w, q);
      && after.machines == w.machines && StatusOf(after, other) == NEVER_EVALUATED
      && a in StatusOf(after, q.pool).releasable && b in StatusOf(after, q.pool).releasable
  {
    NeedyOffersBoth(w, q, other, a, b);
    NeedyDecidesNothing(w, q, other, a, b);
    NothingDecided(w, q);
    assert StatusOf(w, other) == NEVER_EVALUATED;
  }

  // The second pool, which takes both.

  /** Pool `p` needs none, may remove two at once, and shares the machines with `q` only. */
  predicate Taking(w: World, p: Look, q: string, a: string, b: string) {
    && Eager(p, a, b) && p.spec.minOnline == 0 && p.spec.DownStep() >= 2 && p.written >= 2 && p.pool != q
    && AtRest(w, p, a) && AtRest(w, p, b) && StatusOf(w, p.pool) == NEVER_EVALUATED
    && (forall other <- PoolsSelecting(p, a) + PoolsSelecting(p, b) :: other == p.pool || other == q)
    && a in StatusOf(w, q).releasable && b in StatusOf(w, q).releasable
  }

  lemma {:induction false} NoneHolds(w: World, p: Look, q: string, name: string)
    requires (forall other <- PoolsSelecting(p, name) :: other == p.pool || other == q) && name in StatusOf(w, q).releasable
    ensures Holding(w, name, PoolsSelecting(p, name), p.pool) == []
  {
    var holds := Holding(w, name, PoolsSelecting(p, name), p.pool);
    if holds != [] {
      HoldingExact(w, name, PoolsSelecting(p, name), p.pool, holds[0]);
    }
  }

  lemma {:induction false} NothingIsHeld(w: World, p: Look, q: string, a: string, b: string)
    requires Taking(w, p, q, a, b)
    ensures HoldsSeen(w, p, p.order) == map[]
  {
    assert forall other <- PoolsSelecting(p, a) :: other in PoolsSelecting(p, a) + PoolsSelecting(p, b);
    assert forall other <- PoolsSelecting(p, b) :: other in PoolsSelecting(p, a) + PoolsSelecting(p, b);
    NoneHolds(w, p, q, a);
    NoneHolds(w, p, q, b);
    assert [a, b][..1] == [a] && [a][..0] == [];
    assert HoldsSeen(w, p, [a]) == map[];
  }

  lemma {:induction false} TakingIsQuiet(w: World, p: Look, q: string, a: string, b: string)
    requires Taking(w, p, q, a, b)
    ensures PlannerLimits.Pair(SnapshotSeen(w, p), MemberSeen(w, p, a), MemberSeen(w, p, b))
  {
    SeenAtRest(w, p, a, b);
    NothingIsHeld(w, p, q, a, b);
  }

  /** Two idle machines both go when the pool may remove two. */
  lemma {:induction false} BothGo(s: Snapshot, x: PoolModel.Member, y: PoolModel.Member)
    requires PlannerLimits.Pair(s, x, y) && PlannerLimits.Idle(s, x) && PlannerLimits.Idle(s, y)
    requires x.movable == [] && y.movable == [] && s.spec.DownStep() >= 2 && DistinctNames(s.members)
    ensures WellNamed(s)
    ensures x in ScaleDownSafety.RemovedMembers(PowerOff(s)) && y in ScaleDownSafety.RemovedMembers(PowerOff(s))
  {
    PlannerLimits.QuietRuns(s);
    PlannerLimits.OnlineCount(s, x, y);
    ScaleDownSafety.ExpiredExact(s, x);
    ScaleDownSafety.ExpiredExact(s, y);
    GoesOrIsSecond(s, x, y);
    GoesOrIsSecond(s, y, x);
  }

  lemma {:induction false} RankedApart(less: (PoolModel.Member, PoolModel.Member) -> bool, ms: seq<PoolModel.Member>,
                                       y: PoolModel.Member)
    requires Ordering.Ranked(less, ms) && !less(y, y) && |ms| >= 2
    ensures exists m :: m in ms && m != y
  {
    assert ms[0] in ms && ms[1] in ms && less(ms[0], ms[1]);
  }

  lemma {:induction false} GoesOrIsSecond(s: Snapshot, x: PoolModel.Member, y: PoolModel.Member)
    requires RunsDown(s) && WellNamed(s) && DistinctNames(s.members) && OnlineNow(s) == 2 && s.spec.minOnline == 0
    requires Budget(s) >= 2 && s.keptByOthers == map[] && x in EligibleMembers(s) && x.movable == []
    requires forall m <- s.members :: m == x || m == y
    ensures x in ScaleDownSafety.RemovedMembers(PowerOff(s))
  {
    var ms := EligibleMembers(s);
    var i :| 0 <= i < |ms| && ms[i] == x;
    if x !in ScaleDownSafety.RemovedMembers(PowerOff(s)) {
      ScaleDownSafety.IdleMachinesGo(s, ms, i);
      ScaleDownSafety.PowerOffInReverseRank(s);
      OnlyOneRemoved(s, x, y);
    }
  }

  lemma {:induction false} OnlyOneRemoved(s: Snapshot, x: PoolModel.Member, y: PoolModel.Member)
    requires WellNamed(s) && DistinctNames(s.members) && forall m <- s.members :: m == x || m == y
    requires x !in ScaleDownSafety.RemovedMembers(PowerOff(s))
    ensures |PowerOff(s)| <= 1
  {
    var done := PowerOff(s);
    ScaleDownSafety.PowerOffInReverseRank(s);
    ScaleDownSafety.PowerOffBounds(s);
    forall m | m in ScaleDownSafety.RemovedMembers(done) ensures m == x || m == y {
      var k :| 0 <= k < |done| && done[k].member == m;
      assert done[k] in done;
    }
    Ordering.TextLessTotal(y.name, y.name);
    if |done| >= 2 {
      RankedApart((m, n) => Before(s.spec, n, m), ScaleDownSafety.RemovedMembers(done), y);
    }
  }

  lemma {:induction false} TakingTakesBoth(w: World, p: Look, q: string, a: string, b: string)
    requires Taking(w, p, q, a, b)
    ensures Sound(p) && PlanSeen(w, p).powerOn == []
    ensures a in PlanSeen(w, p).powerOff && b in PlanSeen(w, p).powerOff
  {
    var s := SnapshotSeen(w, p);
    SeenAtRest(w, p, a, b);
    TakingIsQuiet(w, p, q, a, b);
    var x, y := MemberSeen(w, p, a), MemberSeen(w, p, b);
    BothGo(s, x, y);
    TwoOnline(s, x, y);
    NothingToStart(s);
    NamedToo(ScaleDownSafety.RemovedMembers(PowerOff(s)), x);
    NamedToo(ScaleDownSafety.RemovedMembers(PowerOff(s)), y);
  }

  lemma {:induction false} NamedToo(ms: seq<PoolModel.Member>, m: PoolModel.Member)
    requires m in ms
    ensures m.name in Names(ms)
  {
    var i :| 0 <= i < |ms| && ms[i] == m;
    assert Names(ms)[i] == m.name;
  }

  // What the first pool is left with.

  lemma {:induction false} WrittenOff(st: M.Status, name: string, writes: seq<Write>, pool: string, now: int)
    requires Write(name, M.TurnOff) in writes && forall x <- writes :: x.target == M.TurnOff
    ensures Written(st, name, writes, pool, now) == st.(decision := Some(M.Decision(pool, M.TurnOff, now)))
  {
    var front, last := writes[..|writes| - 1], writes[|writes| - 1];
    WrittenLast(st, name, front, pool, now);
    assert last in writes && forall x <- front :: x in writes;
    if last.name != name {
      assert Write(name, M.TurnOff) in front;
      WrittenOff(st, name, front, pool, now);
    }
  }

  lemma {:induction false} AllIsWritten(w: World, p: Look, q: string, a: string, b: string)
    requires Taking(w, p, q, a, b)
    ensures Sound(p) && WritesAll(w, p) && Decided(w, p) == Writes(PlanSeen(w, p).powerOff, M.TurnOff)
    ensures a in PlanSeen(w, p).powerOff && b in PlanSeen(w, p).powerOff
  {
    var s := SnapshotSeen(w, p);
    TakingTakesBoth(w, p, q, a, b);
    SeenAtRest(w, p, a, b);
    TwoOnline(s, MemberSeen(w, p, a), MemberSeen(w, p, b));
    ScaleDownSafety.PowerOffBounds(s);
  }

  lemma {:induction false} WriteAmong(names: seq<string>, name: string)
    requires name in names
    ensures Write(name, M.TurnOff) in Writes(names, M.TurnOff)
  {
    var i :| 0 <= i < |names| && names[i] == name;
    assert Writes(names, M.TurnOff)[i] == Write(name, M.TurnOff);
  }

  lemma {:induction false} TakenIsDecided(w: World, p: Look, q: string, a: string, b: string, name: string)
    requires Taking(w, p, q, a, b) && (name == a || name == b)
    ensures Sound(p) && name in Evaluated(w, p).machines
    ensures Evaluated(w, p).machines[name] == w.machines[name].(decision := Some(M.Decision(p.pool, M.TurnOff, p.now)))
  {
    AllIsWritten(w, p, q, a, b);
    WriteAmong(PlanSeen(w, p).powerOff, name);
    WrittenOff(w.machines[name], name, Decided(w, p), p.pool, p.now);
  }

  /** How a pool sees a machine on which an Off of another pool that selects it is in force. */
  lemma {:induction false} LeavingMember(w: World, look: Look, name: string, p: string, now: int)
    requires IsMember(w, look, name) && look.facts[name].policy == M.Auto && p in PoolsSelecting(look, name)
    requires var st := w.machines[name];
      st.phase == M.On && !st.inconsistent && st.manualOn.None? && st.decision == Some(M.Decision(p, M.TurnOff, now))
    ensures MemberSeen(w, look, name).state == Leaving
  {
  }

  lemma {:induction false} TwoLeaving(w: World, look: Look, a: string, b: string)
    requires look.order == [a, b] && IsMember(w, look, a) && IsMember(w, look, b)
    requires MemberSeen(w, look, a).state == Leaving && MemberSeen(w, look, b).state == Leaving
    ensures OnlineNow(SnapshotSeen(w, look)) == 0
  {
    TwoMembersSeen(w, look, a, b);
    PlannerLimits.FilterThree(Counts, MemberSeen(w, look, a), MemberSeen(w, look, b), MemberSeen(w, look, b));
  }

  /** A later look at the same two machines, which both pools still select. */
  predicate StillShared(later: Look, q: string, p: string, a: string, b: string) {
    && later.pool == q && later.order == [a, b]
    && (forall name <- [a, b] ::
          && name in later.facts && later.facts[name].policy == M.Auto
          && q in PoolsSelecting(later, name) && p in PoolsSelecting(later, name))
  }

  /** Pool `p` needs none of the machines, which only it and `q` select. */
  predicate Free(w: World, p: Look, q: string, a: string, b: string) {
    && Eager(p, a, b) && p.spec.minOnline == 0 && p.spec.DownStep() >= 2 && p.written >= 2 && p.pool != q
    && AtRest(w, p, a) && AtRest(w, p, b)
    && forall other <- PoolsSelecting(p, a) + PoolsSelecting(p, b) :: other == p.pool || other == q
  }

  lemma {:induction false} FreeTakes(w: World, after: World, p: Look, q: string, a: string, b: string)
    requires Free(w, p, q, a, b) && after.machines == w.machines && StatusOf(after, p.pool) == NEVER_EVALUATED
    requires a in StatusOf(after, q).releasable && b in StatusOf(after, q).releasable
    ensures Taking(after, p, q, a, b)
  {
  }

  lemma {:induction false} NowLeaving(w: World, p: Look, later: Look, a: string, b: string, name: string)
    requires Taking(w, p, later.pool, a, b) && StillShared(later, later.pool, p.pool, a, b) && (name == a || name == b)
    ensures Sound(p) && IsMember(Evaluated(w, p), later, name)
    ensures MemberSeen(Evaluated(w, p), later, name).state == Leaving
  {
    assert name in [a, b];
    TakenIsDecided(w, p, later.pool, a, b, name);
    LeavingMember(Evaluated(w, p), later, name, p.pool, p.now);
  }

  lemma {:induction false} NoneLeft(w: World, p: Look, later: Look, a: string, b: string)
    requires Taking(w, p, later.pool, a, b) && StillShared(later, later.pool, p.pool, a, b)
    ensures Sound(p) && OnlineNow(SnapshotSeen(Evaluated(w, p), later)) == 0
  {
    NowLeaving(w, p, later, a, b, a);
    NowLeaving(w, p, later, a, b, b);
    TwoLeaving(Evaluated(w, p), later, a, b);
  }

  lemma {:induction false} AfterBoth(w: World, q: Look, p: Look)
    requires Sound(q) && Sound(p)
    ensures SoundRun([Evaluate(q), Evaluate(p)])
    ensures WorldAfter(w, [Evaluate(q), Evaluate(p)]) == Evaluated(Evaluated(w, q), p)
  {
    var none: seq<Step> := [];
    OneStepMore(w, none, Evaluate(q));
    OneStepMore(w, none + [Evaluate(q)], Evaluate(p));
    assert none + [Evaluate(q)] + [Evaluate(p)] == [Evaluate(q), Evaluate(p)];
  }

  /** Two pools overlap on two machines at rest. The first needs one of them, and has one to spare; the
      second needs none. The first evaluates, and offers both; the second evaluates, and turns both off.
      The first is then left with none. */
  lemma {:induction false} TwoPoolsLeaveOneShort(w: World, q: Look, p: Look, later: Look, a: string, b: string)
    requires Needy(w, q, p.pool, a, b) && Free(w, p, q.pool, a, b) && StillShared(later, q.pool, p.pool, a, b)
    ensures OnlineNow(SnapshotSeen(w, q)) == 2 && q.spec.minOnline == 1
    ensures SoundRun([Evaluate(q), Evaluate(p)])
    ensures OnlineNow(SnapshotSeen(WorldAfter(w, [Evaluate(q), Evaluate(p)]), later)) == 0
  {
    SeenAtRest(w, q, a, b);
    TwoOnline(SnapshotSeen(w, q), MemberSeen(w, q, a), MemberSeen(w, q, b));
    AfterNeedy(w, q, p.pool, a, b);
    FreeTakes(w, Evaluated(w, q), p, q.pool, a, b);
    NoneLeft(Evaluated(w, q), p, later, a, b);
    AfterBoth(w, q, p);
  }

  // There are such pools and machines.

  function SomeFacts(labels: Labels): Facts {
    Facts(M.Auto, labels, [], Resources.Amounts(8, 8, 8), [], map[], M.Adopt, 0)
  }

  function SomeLook(pool: string, selectors: seq<Pool>, a: string, b: string, facts: Facts, minOnline: nat): Look {
    Look(pool, PlannerLimits.PLAIN.(minOnline := minOnline, downStep := 2), Ignoring(false, false), 0, selectors, [a, b],
         map[a := facts, b := facts], [], [], 2, true)
  }

  lemma {:induction false} SelectedByBoth(look: Look, name: string, labels: Labels, p: string, q: string)
    requires labels != map[]
    requires look.selectors == [Pool(p, false, NodeSelector(labels, [])), Pool(q, false, NodeSelector(labels, []))]
    requires name in look.facts && look.facts[name].labels == labels
    ensures forall other :: other in PoolsSelecting(look, name) <==> other == p || other == q
  {
    var mine := NodeSelector(labels, []);
    assert mine.Matches(labels);
    forall other ensures other in PoolsSelecting(look, name) <==> other == p || other == q {
      MembershipExact(labels, look.selectors, other);
      assert look.selectors[0] in look.selectors && look.selectors[1] in look.selectors;
    }
  }

  /** For any two machine names, pool names and labels. */
  lemma {:induction false} SuchPoolsExist(a: string, b: string, p: string, q: string, labels: Labels)
    returns (w: World, first: Look, second: Look)
    requires a != b && p != q && labels != map[] && !(EXTERNAL <= a) && !(EXTERNAL <= b)
    ensures first.pool == q && second.pool == p
    ensures Needy(w, first, p, a, b) && Free(w, second, q, a, b) && StillShared(first, q, p, a, b)
  {
    var resting := M.DEFAULT_STATUS.(phase := M.On, nodeReady := true);
    w := World(map[], map[a := resting, b := resting]);
    var selectors := [Pool(p, false, NodeSelector(labels, [])), Pool(q, false, NodeSelector(labels, []))];
    first := SomeLook(q, selectors, a, b, SomeFacts(labels), 1);
    second := SomeLook(p, selectors, a, b, SomeFacts(labels), 0);
    SelectedByBoth(first, a, labels, p, q);
    SelectedByBoth(first, b, labels, p, q);
    SelectedByBoth(second, a, labels, p, q);
    SelectedByBoth(second, b, labels, p, q);
  }
}
