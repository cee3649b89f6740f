/** Several pools and the machines they share: each pool evaluates what it reads, writes its
    decisions onto machines, and publishes what it would let go
    (`reconcile` in `src/controller/node_scaling_pool.rs`). */
module PoolProtocol {
  import opened Prelude
  import opened Scheduling
  import opened PoolModel
  import opened PoolMembers
  import opened ScaleUp
  import opened ScaleDown
  import opened Planner
  import ScaleUpSafety
  import ScaleDownSafety
  import M = MachineStatus
  import StatusPatch

  datatype PoolStatus = PoolStatus(
    releasable: seq<string>,
    unneededSince: map<string, int>,
    lastScaleUp: Option<int>)

  const NEVER_EVALUATED := PoolStatus([], map[], None)

  datatype World = World(pools: map<string, PoolStatus>, machines: map<string, M.Status>)

  /** What one evaluation of a pool reads besides stored status. `written` is how many of its
      decisions reach their machine before a call fails, if one does; `storedOk` is whether storing
      the pool's own status succeeds. */
  datatype Look = Look(
    pool: string,
    spec: Spec,
    rules: Ignoring,
    now: int,
    selectors: seq<Pool>,            // the pools that exist
    order: seq<string>,              // the machines, as listed
    facts: map<string, Facts>,       // of the machines whose Node exists
    pending: seq<PodView>,
    external: seq<ExternalNode>,
    written: nat,
    storedOk: bool)

  function StatusOf(w: World, pool: string): PoolStatus {
    if pool in w.pools then w.pools[pool] else NEVER_EVALUATED
  }

  function PoolsSelecting(look: Look, name: string): seq<string> {
    if name in look.facts then PoolsOf(Resolve(Some(look.facts[name].labels), look.selectors)) else []
  }

  /** The other pools selecting the machine that do not list it as releasable. */
  function Holding(w: World, name: string, memberOf: seq<string>, self: string): seq<string> {
    if memberOf == [] then []
    else
      var other := memberOf[0];
      (if other != self && name !in StatusOf(w, other).releasable then [other] else [])
      + Holding(w, name, memberOf[1..], self)
  }

  predicate IsMember(w: World, look: Look, name: string) {
    name in w.machines && look.pool in PoolsSelecting(look, name)
  }

  function MemberSeen(w: World, look: Look, name: string): PoolModel.Member
    requires IsMember(w, look, name)
  {
    BuildMember(name, w.machines[name], look.facts[name], PoolsSelecting(look, name), look.spec, look.rules, look.now)
  }

  function MembersSeen(w: World, look: Look, names: seq<string>): seq<PoolModel.Member> {
    if names == [] then []
    else
      var name, rest := names[|names| - 1], MembersSeen(w, look, names[..|names| - 1]);
      if IsMember(w, look, name) then rest + [MemberSeen(w, look, name)] else rest
  }

  function HoldsSeen(w: World, look: Look, names: seq<string>): map<string, seq<string>> {
    if names == [] then map[]
    else
      var name, rest := names[|names| - 1], HoldsSeen(w, look, names[..|names| - 1]);
      var holds := Holding(w, name, PoolsSelecting(look, name), look.pool);
      if IsMember(w, look, name) && holds != [] then rest[name := holds] else rest
  }

  function SnapshotSeen(w: World, look: Look): Snapshot {
    var stored := StatusOf(w, look.pool);
    Snapshot(look.spec, MembersSeen(w, look, look.order), look.pending, look.now, stored.lastScaleUp,
             stored.unneededSince, look.external, HoldsSeen(w, look, look.order))
  }

  /** Goes over the machines, building the members and noting which other pools hold them. */
  method ReadSnapshot(w: World, look: Look) returns (s: Snapshot)
    ensures s == SnapshotSeen(w, look)
  {
    var members, kept := [], map[];
    for i := 0 to |look.order|
      invariant members == MembersSeen(w, look, look.order[..i])
      invariant kept == HoldsSeen(w, look, look.order[..i])
    {
      var name := look.order[i];
      assert look.order[..i + 1][..i] == look.order[..i];
      if !IsMember(w, look, name) {
        continue;
      }
      var holds := Holding(w, name, PoolsSelecting(look, name), look.pool);
      if holds != [] {
        kept := kept[name := holds];
      }
      members := members + [MemberSeen(w, look, name)];
    }
    assert look.order[..|look.order|] == look.order;
    var stored := StatusOf(w, look.pool);
    s := Snapshot(look.spec, members, look.pending, look.now, stored.lastScaleUp, stored.unneededSince, look.external, kept);
  }

  /** Machines are listed once each, under names that are Node names. */
  ghost predicate Sound(look: Look) {
    && (forall i, j :: 0 <= i < j < |look.order| ==> look.order[i] != look.order[j])
    && forall name <- look.order :: !(EXTERNAL <= name)
  }

  lemma {:induction false} MembersSeenExact(w: World, look: Look, names: seq<string>, m: PoolModel.Member)
    ensures m in MembersSeen(w, look, names)
      <==> m.name in names && IsMember(w, look, m.name) && m == MemberSeen(w, look, m.name)
  {
    if names != [] {
      MembersSeenExact(w, look, names[..|names| - 1], m);
      assert names == names[..|names| - 1] + [names[|names| - 1]];
    }
  }

  lemma {:induction false} MembersSeenDistinct(w: World, look: Look, names: seq<string>)
    requires forall i, j :: 0 <= i < j < |names| ==> names[i] != names[j]
    ensures DistinctNames(MembersSeen(w, look, names))
  {
    if names != [] {
      var front, last := names[..|names| - 1], names[|names| - 1];
      MembersSeenDistinct(w, look, front);
      forall m | m in MembersSeen(w, look, front) ensures m.name != last {
        MembersSeenExact(w, look, front, m);
      }
    }
  }

  lemma SnapshotIsSound(w: World, look: Look)
    requires Sound(look)
    ensures WellNamed(SnapshotSeen(w, look)) && DistinctNames(SnapshotSeen(w, look).members)
  {
    MembersSeenDistinct(w, look, look.order);
    forall m | m in SnapshotSeen(w, look).members ensures !(EXTERNAL <= m.name) {
      MembersSeenExact(w, look, look.order, m);
    }
  }

  // ----- one evaluation ---------------------------------------------------------------------

  datatype Write = Write(name: string, target: M.PowerTarget)

  function Writes(names: seq<string>, target: M.PowerTarget): seq<Write> {
    seq(|names|, i requires 0 <= i < |names| => Write(names[i], target))
  }

  function PlanSeen(w: World, look: Look): Plan
    requires Sound(look)
  {
    SnapshotIsSound(w, look);
    PlanOf(SnapshotSeen(w, look))
  }

  function Decided(w: World, look: Look): seq<Write>
    requires Sound(look)
  {
    Writes(PlanSeen(w, look).powerOn, M.TurnOn) + Writes(PlanSeen(w, look).powerOff, M.TurnOff)
  }

  predicate WritesAll(w: World, look: Look)
    requires Sound(look)
  {
    look.written >= |Decided(w, look)|
  }

  /** The pool's status is stored last: not after a failed write, nor when storing it fails. */
  predicate Stores(w: World, look: Look)
    requires Sound(look)
  {
    WritesAll(w, look) && look.storedOk
  }

  function Reached(w: World, look: Look): seq<Write>
    requires Sound(look)
  {
    if WritesAll(w, look) then Decided(w, look) else Decided(w, look)[..look.written]
  }

  /** The machine's status after the writes of an evaluation. */
  function Written(st: M.Status, name: string, writes: seq<Write>, pool: string, now: int): M.Status {
    if writes == [] then st
    else
      var last := writes[|writes| - 1];
      var before := Written(st, name, writes[..|writes| - 1], pool, now);
      if last.name == name then before.(decision := Some(M.Decision(pool, last.target, now))) else before
  }

  function Evaluated(w: World, look: Look): World
    requires Sound(look)
  {
    var plan := PlanSeen(w, look);
    var machines := map name | name in w.machines ::
      Written(w.machines[name], name, Reached(w, look), look.pool, look.now);
    var was := StatusOf(w, look.pool);
    var now := PoolStatus(
      plan.releasable,
      StatusPatch.Patched(was.unneededSince, plan.unneededSince),
      if plan.powerOn != [] then Some(look.now) else was.lastScaleUp);
    World(if Stores(w, look) then w.pools[look.pool := now] else w.pools, machines)
  }

  lemma WritesAre(names: seq<string>, target: M.PowerTarget)
    ensures |Writes(names, target)| == |names|
    ensures forall k :: 0 <= k < |names| ==> Writes(names, target)[k] == Write(names[k], target)
  {
  }

  /** How many decisions an evaluation makes. */
  function Total(w: World, look: Look): nat
    requires Sound(look)
  {
    |PlanSeen(w, look).powerOn| + |PlanSeen(w, look).powerOff|
  }

  /** The first `written` decisions of a plan: those that turn machines on, then those that turn them off,
      each in the order of the plan. */
  predicate FirstOf(on: seq<string>, off: seq<string>, written: nat, writes: seq<Write>) {
    && |writes| == (if written < |on| + |off| then written else |on| + |off|)
    && (forall k :: 0 <= k < |writes| && k < |on| ==> writes[k] == Write(on[k], M.TurnOn))
    && (forall k :: |on| <= k < |writes| ==> k - |on| < |off| && writes[k] == Write(off[k - |on|], M.TurnOff))
  }

  lemma FirstOfAll(on: seq<string>, off: seq<string>, written: nat)
    ensures var all := Writes(on, M.TurnOn) + Writes(off, M.TurnOff);
      FirstOf(on, off, written, if written >= |all| then all else all[..written])
  {
    WritesAre(on, M.TurnOn);
    WritesAre(off, M.TurnOff);
  }

  /** Decisions reach the machines in that order, up to the call that fails. */
  lemma WrittenInOrder(w: World, look: Look)
    requires Sound(look)
    ensures FirstOf(PlanSeen(w, look).powerOn, PlanSeen(w, look).powerOff, look.written, Reached(w, look))
  {
    FirstOfAll(PlanSeen(w, look).powerOn, PlanSeen(w, look).powerOff, look.written);
  }

  /** The pool's status is stored after all of them, if storing it works: else it stays as it was. */
  lemma StoredLast(w: World, look: Look)
    requires Sound(look)
    ensures Stores(w, look) <==> look.written >= Total(w, look) && look.storedOk
    ensures !Stores(w, look) ==> Evaluated(w, look).pools == w.pools
  {
    WritesAre(PlanSeen(w, look).powerOn, M.TurnOn);
    WritesAre(PlanSeen(w, look).powerOff, M.TurnOff);
  }

  // ----- what an evaluation may do to a machine ---------------------------------------------

  lemma {:induction false} HoldingExact(w: World, name: string, memberOf: seq<string>, self: string, q: string)
    ensures q in Holding(w, name, memberOf, self)
      <==> q in memberOf && q != self && name !in StatusOf(w, q).releasable
  {
    if memberOf != [] {
      HoldingExact(w, name, memberOf[1..], self, q);
      assert forall p :: p in memberOf <==> p == memberOf[0] || p in memberOf[1..];
    }
  }

  lemma {:induction false} HoldsSeenExact(w: World, look: Look, names: seq<string>, name: string)
    requires name in names && IsMember(w, look, name)
    ensures Holding(w, name, PoolsSelecting(look, name), look.pool) != [] ==>
      name in HoldsSeen(w, look, names)
      && HoldsSeen(w, look, names)[name] == Holding(w, name, PoolsSelecting(look, name), look.pool)
  {
    if name != names[|names| - 1] {
      HoldsSeenExact(w, look, names[..|names| - 1], name);
    }
  }

  /** Every other pool selecting the machine lists it as releasable. */
  ghost predicate AllAgree(w: World, look: Look, name: string) {
    forall q <- PoolsSelecting(look, name) :: q != look.pool ==> name in StatusOf(w, q).releasable
  }

  lemma UnheldIsAgreed(w: World, look: Look, name: string)
    requires name in look.order && IsMember(w, look, name) && !HeldByOthers(SnapshotSeen(w, look), name)
    ensures AllAgree(w, look, name)
  {
    HoldsSeenExact(w, look, look.order, name);
    forall q | q in PoolsSelecting(look, name) && q != look.pool ensures name in StatusOf(w, q).releasable {
      HoldingExact(w, name, PoolsSelecting(look, name), look.pool, q);
    }
  }

  lemma NamedIn(ms: seq<PoolModel.Member>, name: string)
    requires name in Names(ms)
    ensures exists m <- ms :: m.name == name
  {
    var i :| 0 <= i < |Names(ms)| && Names(ms)[i] == name;
    assert ms[i] in ms;
  }

  /** A pool turns on only machines that are down, under no On decision, and not held back by a
      boot failure or a manual power-off. */
  lemma OnlyFreeMachinesAreStarted(w: World, look: Look, name: string)
    requires Sound(look) && name in PlanSeen(w, look).powerOn
    ensures IsMember(w, look, name)
    ensures FreeToStart(w.machines[name], look.facts[name], PoolsSelecting(look, name), look.spec, look.now)
  {
    var s := SnapshotSeen(w, look);
    NamedIn(PowerOn(s), name);
    var m :| m in PowerOn(s) && m.name == name;
    ScaleUpSafety.PowerOnIsDrawn(s);
    FilterExact(CanOpen, s.members);
    assert m in multiset(PowerOn(s)) && m in multiset(Filter(CanOpen, s.members));
    MembersSeenExact(w, look, look.order, m);
    OpenExact(name, w.machines[name], look.facts[name], PoolsSelecting(look, name), look.spec, look.rules, look.now);
  }

  lemma RemovedIsNamed(done: seq<Removal>, name: string) returns (r: Removal)
    requires name in Names(ScaleDownSafety.RemovedMembers(done))
    ensures r in done && r.member.name == name
  {
    var i :| 0 <= i < |done| && Names(ScaleDownSafety.RemovedMembers(done))[i] == name;
    r := done[i];
  }

  lemma StoppedIsCandidate(s: Snapshot, name: string) returns (m: PoolModel.Member)
    requires WellNamed(s) && DistinctNames(s.members) && name in PlanOf(s).powerOff
    ensures m in s.members && m.name == name && Candidate(m) && !HeldByOthers(s, name)
  {
    var r := RemovedIsNamed(PowerOff(s), name);
    ScaleDownSafety.PowerOffBounds(s);
    m := r.member;
  }

  /** A pool turns off only machines that are on and Ready, under no Off decision, not left on by
      hand, and that every other pool selecting them agrees to let go. */
  lemma OnlyFreeMachinesAreStopped(w: World, look: Look, name: string)
    requires Sound(look) && name in PlanSeen(w, look).powerOff
    ensures IsMember(w, look, name) && AllAgree(w, look, name)
    ensures FreeToStop(w.machines[name], look.facts[name], PoolsSelecting(look, name))
  {
    SnapshotIsSound(w, look);
    var m := StoppedIsCandidate(SnapshotSeen(w, look), name);
    MembersSeenExact(w, look, look.order, m);
    CandidateExact(name, w.machines[name], look.facts[name], PoolsSelecting(look, name), look.spec, look.rules, look.now);
    UnheldIsAgreed(w, look, name);
  }
}
