/** The plan of one pool: what it powers on and off, and what it tells overlapping pools
    (`plan` in `src/scaling.rs`). */
module Planner {
  import opened Prelude
  import opened Clock
  import opened Scheduling
  import opened PoolModel
  import opened ScaleUp
  import opened ScaleDown
  import ScaleDownSafety
  import ScaleDownGate
  import Ordering

  /** Why a pool keeps a machine on. */
  datatype Reason =
    | NotUnneeded(verdict: Verdict)       // `Unneeded` here: the period has not passed yet
    | Held(what: Hindrance)
    | AtMinOnline
    | PoweringOn

  datatype Plan = Plan(
    powerOn: seq<string>,
    powerOff: seq<string>,
    unneededSince: map<string, int>,
    relevantPending: nat,
    online: nat,
    releasable: seq<string>,
    needed: map<string, Reason>)

  /** Why the pool would not let a candidate go now, if so. */
  function KeptFor(s: Snapshot, m: Member): Option<Reason> {
    if !Expired(s, m) && !Released(s, m) then Some(NotUnneeded(Judge(s, SelectedPods(s), m)))
    else if Hindered(s).Some? then Some(Held(Hindered(s).value))
    else if OnlineNow(s) <= s.spec.minOnline then Some(AtMinOnline)
    else None
  }

  function NeededAmong(s: Snapshot, ms: seq<Member>): map<string, Reason> {
    if ms == [] then map[]
    else
      var rest, m := NeededAmong(s, ms[..|ms| - 1]), ms[|ms| - 1];
      if KeptFor(s, m).Some? then rest[m.name := KeptFor(s, m).value] else rest
  }

  function LetGo(s: Snapshot, ms: seq<Member>): seq<string> {
    if ms == [] then []
    else
      var rest, m := LetGo(s, ms[..|ms| - 1]), ms[|ms| - 1];
      if KeptFor(s, m).Some? then rest else rest + [m.name]
  }

  function AlsoBooting(needed: map<string, Reason>, ms: seq<Member>): map<string, Reason> {
    if ms == [] then needed
    else
      var rest, m := AlsoBooting(needed, ms[..|ms| - 1]), ms[|ms| - 1];
      if IsBooting(m) then rest[m.name := PoweringOn] else rest
  }

  function NeededNow(s: Snapshot): map<string, Reason> {
    AlsoBooting(NeededAmong(s, Candidates(s)), s.members)
  }

  function ReleasableNow(s: Snapshot): seq<string> { SortedNames(LetGo(s, Candidates(s))) }

  function PlanOf(s: Snapshot): Plan
    requires WellNamed(s)
  {
    Plan(Names(PowerOn(s)), Names(ScaleDownSafety.RemovedMembers(PowerOff(s))), UnneededNow(s),
         |RelevantPods(s)|, OnlineNow(s), ReleasableNow(s), NeededNow(s))
  }

  method CountLeaving(members: seq<Member>) returns (n: nat)
    ensures n == |Filter(IsLeaving, members)|
  {
    n := 0;
    for i := 0 to |members|
      invariant n == |Filter(IsLeaving, members[..i])|
    {
      assert members[..i + 1][..i] == members[..i];
      if IsLeaving(members[i]) {
        n := n + 1;
      }
    }
    assert members[..|members|] == members;
  }

  /** What this pool tells the others: candidates it would let go, and why it keeps the rest. */
  method Agreement(s: Snapshot) returns (releasable: seq<string>, needed: map<string, Reason>)
    ensures releasable == ReleasableNow(s) && needed == NeededNow(s)
  {
    releasable, needed := SplitCandidates(s, Candidates(s));
    needed := AddBooting(needed, s.members);
    releasable := SortedNames(releasable);
  }

  method SplitCandidates(s: Snapshot, candidates: seq<Member>) returns (releasable: seq<string>, needed: map<string, Reason>)
    ensures needed == NeededAmong(s, candidates) && releasable == LetGo(s, candidates)
  {
    releasable, needed := [], map[];
    for i := 0 to |candidates|
      invariant needed == NeededAmong(s, candidates[..i]) && releasable == LetGo(s, candidates[..i])
    {
      var m := candidates[i];
      assert candidates[..i + 1][..i] == candidates[..i];
      var kept := KeptFor(s, m);
      if kept.Some? {
        needed := needed[m.name := kept.value];
      } else {
        releasable := releasable + [m.name];
      }
    }
    assert candidates[..|candidates|] == candidates;
  }

  method AddBooting(judged: map<string, Reason>, members: seq<Member>) returns (needed: map<string, Reason>)
    ensures needed == AlsoBooting(judged, members)
  {
    needed := judged;
    for i := 0 to |members|
      invariant needed == AlsoBooting(judged, members[..i])
    {
      assert members[..i + 1][..i] == members[..i];
      if IsBooting(members[i]) {
        needed := needed[members[i].name := PoweringOn];
      }
    }
    assert members[..|members|] == members;
  }

  /** Computes the plan of one pool. */
  method ComputePlan(s: Snapshot) returns (plan: Plan)
    requires WellNamed(s)
    ensures plan == PlanOf(s)
  {
    var on, _, relevant := ScaleUpStep(s);
    var candidates := Candidates(s);
    var unneeded := JudgeCandidates(s, candidates);
    var leaving := CountLeaving(s.members);
    var off := [];
    if Hindered(s).None? && (leaving < s.spec.DownStep() || OverMax(s) > 0) {
      off := RemovalLoop(s, EligibleMembers(s));
    }
    var releasable, needed := Agreement(s);
    plan := Plan(Names(on), Names(ScaleDownSafety.RemovedMembers(off)), unneeded, relevant, OnlineNow(s),
                 releasable, needed);
  }

  // ----- what the lists mean ----------------------------------------------------------------

  lemma {:induction false} LetGoExact(s: Snapshot, ms: seq<Member>, name: string)
    ensures name in LetGo(s, ms) <==> exists m <- ms :: m.name == name && KeptFor(s, m).None?
  {
    if ms != [] {
      LetGoExact(s, ms[..|ms| - 1], name);
      assert forall m :: m in ms <==> m in ms[..|ms| - 1] || m == ms[|ms| - 1];
    }
  }

  lemma {:induction false} NeededAmongExact(s: Snapshot, ms: seq<Member>, name: string)
    ensures name in NeededAmong(s, ms) <==> exists m <- ms :: m.name == name && KeptFor(s, m).Some?
  {
    if ms != [] {
      NeededAmongExact(s, ms[..|ms| - 1], name);
      assert forall m :: m in ms <==> m in ms[..|ms| - 1] || m == ms[|ms| - 1];
    }
  }

  lemma {:induction false} AlsoBootingExact(needed: map<string, Reason>, ms: seq<Member>, name: string)
    ensures name in AlsoBooting(needed, ms) <==> name in needed || exists m <- ms :: m.name == name && IsBooting(m)
  {
    if ms != [] {
      AlsoBootingExact(needed, ms[..|ms| - 1], name);
      assert forall m :: m in ms <==> m in ms[..|ms| - 1] || m == ms[|ms| - 1];
    }
  }

  /** When a pool lists a machine as releasable: its unneeded period or manual grace has passed, no pod
      blocks it, nothing holds the pool's scale-down, and the pool is above its `minOnline`. */
  ghost predicate WouldLetGo(s: Snapshot, m: Member) {
    && m.auto && m.state == Online && m.blocking == []
    && ScaleDownGate.LongIdle(s, m)
    && ScaleDownGate.NothingHolds(s)
    && OnlineNow(s) > s.spec.minOnline
  }

  lemma KeptForExact(s: Snapshot, m: Member)
    requires DistinctNames(s.members) && m in s.members && Candidate(m)
    ensures KeptFor(s, m).None? <==> WouldLetGo(s, m)
  {
    ScaleDownGate.LongIdleExact(s, m);
    if OnlineNow(s) > s.spec.minOnline {
      ScaleDownGate.HinderedExact(s);
    }
  }

  /** A name is listed as releasable exactly when it is that of a member the pool would let go. */
  lemma ReleasableExact(s: Snapshot, name: string)
    requires DistinctNames(s.members)
    ensures name in ReleasableNow(s) <==> exists m <- s.members :: m.name == name && WouldLetGo(s, m)
  {
    CandidatesExact(s);
    LetGoExact(s, Candidates(s), name);
    Ordering.SortMembership(Ordering.TextLess, LetGo(s, Candidates(s)), name);
    forall m | m in s.members && Candidate(m) ensures KeptFor(s, m).None? <==> WouldLetGo(s, m) {
      KeptForExact(s, m);
    }
  }

  /** Unless the pool is above `maxOnline`, nothing goes and nothing is offered while scale-down is
      disabled, a pod waits that a machine could take, a machine is booting, or a hold is running. */
  lemma NothingGoesUnsettled(s: Snapshot)
    requires WellNamed(s) && DistinctNames(s.members) && !ScaleDownGate.AboveMax(s)
    ensures PowerOff(s) != [] || ReleasableNow(s) != [] ==> ScaleDownGate.Settled(s)
  {
    ScaleDownGate.PowerOffExact(s);
    if ReleasableNow(s) != [] {
      ReleasableExact(s, ReleasableNow(s)[0]);
    }
  }

  /** Every Auto machine that is Online is either releasable or needed, never both; so is none but
      those and the booting ones, which are needed. */
  lemma AgreementIsAPartition(s: Snapshot, m: Member)
    requires DistinctNames(s.members) && m in s.members
    ensures Candidate(m) ==> (m.name in ReleasableNow(s) <==> m.name !in NeededNow(s))
    ensures IsBooting(m) ==> m.name in NeededNow(s) && m.name !in ReleasableNow(s)
    ensures !Candidate(m) && !IsBooting(m) ==> m.name !in ReleasableNow(s) && m.name !in NeededNow(s)
  {
    CandidatesExact(s);
    LetGoExact(s, Candidates(s), m.name);
    Ordering.SortMembership(Ordering.TextLess, LetGo(s, Candidates(s)), m.name);
    NeededAmongExact(s, Candidates(s), m.name);
    AlsoBootingExact(NeededAmong(s, Candidates(s)), s.members, m.name);
    assert forall o <- s.members :: o.name == m.name ==> o == m;
  }
}
