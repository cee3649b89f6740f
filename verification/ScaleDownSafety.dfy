/** What the removal loop keeps: a capacity ledger, a place for every pod that has to move, and
    the bounds on what a plan powers off. */
module ScaleDownSafety {
  import opened Prelude
  import opened Clock
  import opened Resources
  import opened Scheduling
  import opened PoolModel
  import opened ScaleUp
  import opened ScaleDown
  import Ordering

  // ----- the capacity ledger ----------------------------------------------------------------

  function AllMoves(done: seq<Removal>): seq<Move> {
    if done == [] then [] else AllMoves(done[..|done| - 1]) + done[|done| - 1].moves
  }

  /** What the moves put on one node. */
  function Load(moves: seq<Move>, key: string): Amounts {
    if moves == [] then ZERO
    else
      var rest, last := Load(moves[..|moves| - 1], key), moves[|moves| - 1];
      if last.key == key then rest.Add(last.pod.requests) else rest
  }

  predicate Receives(moves: seq<Move>, key: string) { exists mv <- moves :: mv.key == key }

  lemma {:induction false} LoadWith(moves: seq<Move>, mv: Move, key: string)
    ensures Load(moves + [mv], key) == if mv.key == key then Load(moves, key).Add(mv.pod.requests) else Load(moves, key)
  {
    assert (moves + [mv])[..|moves|] == moves;
  }

  lemma {:induction false} LoadSum(a: seq<Move>, b: seq<Move>, key: string)
    ensures Load(a + b, key) == Load(a, key).Add(Load(b, key))
  {
    if b == [] {
      assert a + b == a;
    } else {
      var front, last := b[..|b| - 1], b[|b| - 1];
      assert b == front + [last] && a + b == (a + front) + [last];
      LoadWith(front, last, key);
      LoadWith(a + front, last, key);
      LoadSum(a, front, key);
    }
  }

  lemma {:induction false} NothingReceived(moves: seq<Move>, key: string)
    requires !Receives(moves, key)
    ensures Load(moves, key) == ZERO
  {
    if moves != [] {
      assert forall mv <- moves[..|moves| - 1] :: mv in moves;
      NothingReceived(moves[..|moves| - 1], key);
    }
  }

  /** A node's free capacity after some moves is what it was less what they put on it, and a node
      that received anything is not overfilled. */
  ghost predicate Balanced(before: Amounts, after: Amounts, moves: seq<Move>, key: string) {
    && after == before.Minus(Load(moves, key))
    && (Receives(moves, key) ==> after.NonNegative())
  }

  lemma TakeBalances(before: Amounts, free: Free, moves: seq<Move>, target: string, pod: PodView, key: string)
    requires key in free && target in free && free[target].Fits(pod.requests)
    requires Balanced(before, free[key], moves, key)
    ensures Balanced(before, Take(free, target, pod)[key], moves + [Move(pod, target)], key)
  {
    LoadWith(moves, Move(pod, target), key);
  }

  lemma {:induction false} TrialBalances(targets: seq<Target>, free: Free, pods: seq<PodView>, key: string)
    requires Known(targets, free) && MoveAll(targets, free, pods).Moved? && key in free
    ensures var t := MoveAll(targets, free, pods); Balanced(free[key], t.free[key], t.moves, key)
  {
    if pods != [] {
      TrialBalances(targets, free, pods[..|pods| - 1], key);
      var before := MoveAll(targets, free, pods[..|pods| - 1]);
      var target := targets[FirstTarget(targets, before.free, pods[|pods| - 1])].key;
      TakeBalances(free[key], before.free, before.moves, target, pods[|pods| - 1], key);
    }
  }

  /** A trial puts each pod somewhere it may run, and nowhere else. */
  ghost predicate Placed(targets: seq<Target>, mv: Move) {
    exists t <- targets :: t.key == mv.key && PodMatchesNode(mv.pod, t.labels, t.taints)
  }

  function MovedPods(moves: seq<Move>): seq<PodView> {
    seq(|moves|, i requires 0 <= i < |moves| => moves[i].pod)
  }

  lemma {:induction false} TrialPlaces(targets: seq<Target>, free: Free, pods: seq<PodView>)
    requires Known(targets, free) && MoveAll(targets, free, pods).Moved?
    ensures MovedPods(MoveAll(targets, free, pods).moves) == pods
    ensures forall mv <- MoveAll(targets, free, pods).moves :: Placed(targets, mv)
  {
    if pods != [] {
      TrialPlaces(targets, free, pods[..|pods| - 1]);
      var before := MoveAll(targets, free, pods[..|pods| - 1]);
      var k := FirstTarget(targets, before.free, pods[|pods| - 1]);
      assert Placed(targets, Move(pods[|pods| - 1], targets[k].key));
      assert MoveAll(targets, free, pods).moves == before.moves + [Move(pods[|pods| - 1], targets[k].key)];
    }
  }

  /** The trial stops at pod number `i`: those before it were moved, and then no target had room for it. */
  ghost predicate StopsAt(targets: seq<Target>, free: Free, pods: seq<PodView>, i: nat)
    requires Known(targets, free) && i < |pods|
  {
    var before := MoveAll(targets, free, pods[..i]);
    before.Moved? && forall t <- targets :: !HasRoom(before.free, t, pods[i])
  }

  lemma {:induction false} StopsEarlier(targets: seq<Target>, free: Free, pods: seq<PodView>, i: nat)
    requires Known(targets, free) && i < |pods| - 1
    ensures StopsAt(targets, free, pods[..|pods| - 1], i) <==> StopsAt(targets, free, pods, i)
  {
    assert pods[..|pods| - 1][..i] == pods[..i] && pods[..|pods| - 1][i] == pods[i];
  }

  lemma {:induction false} StuckNow(targets: seq<Target>, free: Free, pods: seq<PodView>)
    requires Known(targets, free) && pods != []
    ensures MoveAll(targets, free, pods) == Stuck
      <==> MoveAll(targets, free, pods[..|pods| - 1]) == Stuck || StopsAt(targets, free, pods, |pods| - 1)
  {
    var before := MoveAll(targets, free, pods[..|pods| - 1]);
    if before.Moved? {
      var k := FirstTarget(targets, before.free, pods[|pods| - 1]);
      assert k < |targets| ==> targets[k] in targets;
    }
  }

  lemma {:induction false} StuckStopsSomewhere(targets: seq<Target>, free: Free, pods: seq<PodView>) returns (i: nat)
    requires Known(targets, free) && MoveAll(targets, free, pods) == Stuck
    ensures i < |pods| && StopsAt(targets, free, pods, i)
  {
    StuckNow(targets, free, pods);
    if MoveAll(targets, free, pods[..|pods| - 1]) == Stuck {
      i := StuckStopsSomewhere(targets, free, pods[..|pods| - 1]);
      StopsEarlier(targets, free, pods, i);
    } else {
      i := |pods| - 1;
    }
  }

  lemma {:induction false} StoppingIsStuck(targets: seq<Target>, free: Free, pods: seq<PodView>, i: nat)
    requires Known(targets, free) && i < |pods| && StopsAt(targets, free, pods, i)
    ensures MoveAll(targets, free, pods) == Stuck
    decreases |pods|
  {
    StuckNow(targets, free, pods);
    if i < |pods| - 1 {
      StopsEarlier(targets, free, pods, i);
      StoppingIsStuck(targets, free, pods[..|pods| - 1], i);
    }
  }

  /** A trial fails if and only if it stops at some pod. */
  lemma {:induction false} StuckExact(targets: seq<Target>, free: Free, pods: seq<PodView>)
    requires Known(targets, free)
    ensures MoveAll(targets, free, pods) == Stuck <==> exists i: nat :: i < |pods| && StopsAt(targets, free, pods, i)
  {
    if MoveAll(targets, free, pods) == Stuck {
      var i := StuckStopsSomewhere(targets, free, pods);
    }
    if i: nat :| i < |pods| && StopsAt(targets, free, pods, i) {
      StoppingIsStuck(targets, free, pods, i);
    }
  }

  lemma PlacedIsKnown(targets: seq<Target>, free: Free, mv: Move)
    requires Known(targets, free) && Placed(targets, mv)
    ensures mv.key in free
  {
  }

  /** A node's line in the ledger: what it had free at first, what the moves put on it, and what it
      has left while it stands. */
  ghost predicate Line(initial: Free, free: Free, moves: seq<Move>, key: string) {
    && (key in free || Receives(moves, key) ==> key in initial)
    && (key in free ==> free[key] == initial[key].Minus(Load(moves, key)))
    && (Receives(moves, key) ==> initial[key].Minus(Load(moves, key)).NonNegative())
  }

  /** The ledger over a whole plan, for every node the plan started with. */
  ghost predicate Ledger(s: Snapshot, st: Removals, key: string) {
    Line(InitialFree(s), st.free, AllMoves(st.done), key)
  }

  lemma {:induction false} AllMovesWith(done: seq<Removal>, r: Removal)
    ensures AllMoves(done + [r]) == AllMoves(done) + r.moves
  {
    assert (done + [r])[..|done|] == done;
  }

  lemma {:induction false} ReceivesSum(a: seq<Move>, b: seq<Move>, key: string)
    ensures Receives(a + b, key) <==> Receives(a, key) || Receives(b, key)
  {
    if Receives(a, key) {
      var mv :| mv in a && mv.key == key;
      assert mv in a + b;
    }
    if Receives(b, key) {
      var mv :| mv in b && mv.key == key;
      assert mv in a + b;
    }
  }

  lemma MinusTwice(free: Amounts, a: Amounts, b: Amounts)
    ensures free.Minus(a).Minus(b) == free.Minus(a.Add(b))
  {
  }

  lemma UntouchedReceives(moves: seq<Move>, more: seq<Move>, key: string)
    requires !Receives(more, key)
    ensures Receives(moves + more, key) <==> Receives(moves, key)
  {
    ReceivesSum(moves, more, key);
  }

  lemma {:induction false} UntouchedLoad(moves: seq<Move>, more: seq<Move>, key: string)
    requires !Receives(more, key)
    ensures Load(moves + more, key) == Load(moves, key)
  {
    LoadSum(moves, more, key);
    NothingReceived(more, key);
  }

  /** A node that further moves do not touch, still standing or not, keeps its line. */
  lemma {:induction false} UntouchedLine(
      initial: Free, free: Free, after: Free, moves: seq<Move>, more: seq<Move>, key: string)
    requires Line(initial, free, moves, key) && !Receives(more, key)
    requires key in after ==> key in free && after[key] == free[key]
    ensures Line(initial, after, moves + more, key)
  {
    UntouchedReceives(moves, more, key);
    UntouchedLoad(moves, more, key);
  }

  /** A node that they touch pays for them. */
  lemma {:induction false} TouchedLine(
      initial: Free, free: Free, after: Free, moves: seq<Move>, more: seq<Move>, key: string)
    requires Line(initial, free, moves, key) && Receives(more, key)
    requires key in after && key in free && Balanced(free[key], after[key], more, key)
    ensures Line(initial, after, moves + more, key)
  {
    LoadSum(moves, more, key);
    MinusTwice(initial[key], Load(moves, key), Load(more, key));
  }

  /** The ledger is kept when a node's share of a balanced trial is added to it. */
  lemma {:induction false} LedgerGrows(s: Snapshot, st: Removals, after: Removals, moves: seq<Move>, key: string)
    requires Ledger(s, st, key) && AllMoves(after.done) == AllMoves(st.done) + moves
    requires key in after.free ==> key in st.free && Balanced(st.free[key], after.free[key], moves, key)
    requires key !in after.free ==> !Receives(moves, key)
    ensures Ledger(s, after, key)
  {
    if Receives(moves, key) {
      TouchedLine(InitialFree(s), st.free, after.free, AllMoves(st.done), moves, key);
    } else {
      NothingReceived(moves, key);
      UntouchedLine(InitialFree(s), st.free, after.free, AllMoves(st.done), moves, key);
    }
  }

  lemma {:induction false} OnlyKnownReceive(targets: seq<Target>, free: Free, pods: seq<PodView>, key: string)
    requires Known(targets, free) && MoveAll(targets, free, pods).Moved? && key !in free
    ensures !Receives(MoveAll(targets, free, pods).moves, key)
  {
    TrialPlaces(targets, free, pods);
    forall mv | mv in MoveAll(targets, free, pods).moves ensures mv.key != key {
      PlacedIsKnown(targets, free, mv);
    }
  }

  lemma ConsiderBalances(s: Snapshot, st: Removals, m: Member, key: string)
    requires WellNamed(s) && Keyed(s, st) && m in s.members && Ledger(s, st, key)
    ensures Ledger(s, Consider(s, st, m), key)
  {
    var after := Consider(s, st, m);
    if after != st {
      var targets, free, pods := Targets(s, m.name, RemovedNames(st.done)), st.free - {m.name}, Decreasing(m.movable);
      assert Known(targets, free) by { TargetsAreKnown(s, st, m); }
      var moves := MoveAll(targets, free, pods).moves;
      if key in free {
        TrialBalances(targets, free, pods, key);
      } else {
        OnlyKnownReceive(targets, free, pods, key);
      }
      AllMovesWith(st.done, Removal(m, moves));
      LedgerGrows(s, st, after, moves, key);
    }
  }

  /** Over all removals of a plan, no node that takes a pod takes more than it had free. */
  lemma {:induction false} CapacityIsNeverExceeded(s: Snapshot, ms: seq<Member>, key: string)
    requires WellNamed(s) && Within(ms, s.members)
    ensures Ledger(s, RemoveAll(s, ms), key)
  {
    if ms != [] {
      var front := ms[..|ms| - 1];
      assert Within(front, s.members) by { assert forall m <- front :: m in ms; }
      CapacityIsNeverExceeded(s, front, key);
      ConsiderBalances(s, RemoveAll(s, front), ms[|ms| - 1], key);
    }
  }

  // ----- every pod finds a place ------------------------------------------------------------

  /** Each removed machine's movable pods are all moved, each to a node it may run on that is
      standing at that moment and is not the machine itself. */
  ghost predicate Rehomed(s: Snapshot, done: seq<Removal>, i: nat)
    requires i < |done|
  {
    && multiset(MovedPods(done[i].moves)) == multiset(done[i].member.movable)
    && forall mv <- done[i].moves ::
         Placed(Targets(s, done[i].member.name, RemovedNames(done[..i])), mv)
  }

  lemma ConsiderRehomes(s: Snapshot, st: Removals, m: Member)
    requires WellNamed(s) && Keyed(s, st) && m in s.members
    ensures var done := Consider(s, st, m).done;
      done == st.done || (done[..|done| - 1] == st.done && |done| == |st.done| + 1 && Rehomed(s, done, |st.done|))
  {
    var after := Consider(s, st, m);
    if after != st {
      TargetsAreKnown(s, st, m);
      TrialPlaces(Targets(s, m.name, RemovedNames(st.done)), st.free - {m.name}, Decreasing(m.movable));
      Ordering.SortKeepsElements((a: PodView, b: PodView) => Larger(a.requests, b.requests), m.movable);
      assert after.done[..|st.done|] == st.done;
    }
  }

  lemma {:induction false} EveryPodIsRehomed(s: Snapshot, ms: seq<Member>, i: nat)
    requires WellNamed(s) && Within(ms, s.members) && i < |RemoveAll(s, ms).done|
    ensures Rehomed(s, RemoveAll(s, ms).done, i)
  {
    if ms != [] {
      var front := ms[..|ms| - 1];
      assert Within(front, s.members) by { assert forall m <- front :: m in ms; }
      var st, done := RemoveAll(s, front), RemoveAll(s, ms).done;
      ConsiderRehomes(s, st, ms[|ms| - 1]);
      if i < |st.done| {
        EveryPodIsRehomed(s, front, i);
        assert done[..i] == st.done[..i] && done[i] == st.done[i];
      }
    }
  }

  /** Where a pod of a removed machine goes: to a member that hosts pods and has not been removed
      before, or to a node outside every pool. */
  lemma PlacedStands(s: Snapshot, self: string, removed: set<string>, mv: Move)
    requires WellNamed(s) && Placed(Targets(s, self, removed), mv)
    ensures (exists m <- s.members :: Hosts(m) && m.name == mv.key && m.name != self && m.name !in removed)
      || (exists e <- s.external :: ExternalKey(e.name) == mv.key)
    ensures mv.key != self || exists e <- s.external :: ExternalKey(e.name) == self
  {
    var t :| t in Targets(s, self, removed) && t.key == mv.key;
    StandingExact(s.members, self, removed, t);
    OutsideExact(s.external, t);
  }

  /** A plan that removes one machine leaves every evicted pod on a node that stays. */
  lemma {:induction false} SingleRemovalStrandsNoPod(s: Snapshot, ms: seq<Member>, mv: Move)
    requires WellNamed(s) && Within(ms, s.members)
    requires |RemoveAll(s, ms).done| == 1 && mv in RemoveAll(s, ms).done[0].moves
    ensures mv.key !in RemovedNames(RemoveAll(s, ms).done)
    ensures mv.key in RemoveAll(s, ms).free
  {
    EveryPodIsRehomed(s, ms, 0);
    var st := RemoveAll(s, ms);
    OneRemoved(st.done);
    RemovedAreListed(s, ms, st.done[0]);
    var self := st.done[0].member.name;
    PlacedStands(s, self, {}, mv);
    NotExternal(s, st.done[0].member);
  }

  lemma {:induction false} RemovedAreListed(s: Snapshot, ms: seq<Member>, r: Removal)
    requires WellNamed(s) && Within(ms, s.members) && r in RemoveAll(s, ms).done
    ensures r.member in ms
  {
    if ms != [] {
      var front := ms[..|ms| - 1];
      assert Within(front, s.members) by { assert forall m <- front :: m in ms; }
      if r in RemoveAll(s, front).done {
        RemovedAreListed(s, front, r);
      }
    }
  }

  lemma OneRemoved(done: seq<Removal>)
    requires |done| == 1
    ensures RemovedNames(done[..0]) == {} && RemovedNames(done) == {done[0].member.name}
  {
    assert done == [done[0]];
  }

  lemma NotExternal(s: Snapshot, m: Member)
    requires WellNamed(s) && m in s.members
    ensures forall e <- s.external :: ExternalKey(e.name) != m.name
  {
    assert forall e <- s.external :: EXTERNAL <= ExternalKey(e.name);
  }

  lemma EarlierIsRemoved(done: seq<Removal>, i: nat, j: nat)
    requires i < |done| && j < |done|
    ensures j < i ==> done[j].member.name in RemovedNames(done[..i])
  {
    if j < i {
      assert done[j] in done[..i];
    }
  }

  /** In a plan that removes several machines, a pod loses its place only to a later removal. */
  lemma {:induction false} PlaceIsLostOnlyLater(s: Snapshot, ms: seq<Member>, i: nat, mv: Move, j: nat)
    requires WellNamed(s) && Within(ms, s.members)
    requires var done := RemoveAll(s, ms).done;
      i < |done| && j < |done| && mv in done[i].moves && mv.key == done[j].member.name
    ensures i < j
  {
    var done := RemoveAll(s, ms).done;
    EveryPodIsRehomed(s, ms, i);
    RemovedAreListed(s, ms, done[j]);
    NotExternal(s, done[j].member);
    EarlierIsRemoved(done, i, j);
    PlacedStands(s, done[i].member.name, RemovedNames(done[..i]), mv);
  }

  // ----- one machine, one capacity ----------------------------------------------------------

  /** No member that hosts pods is listed as a node outside as well. */
  predicate Disjoint(s: Snapshot) {
    forall m <- s.members, e <- s.external :: Hosts(m) ==> m.name != e.name
  }

  /** What the plan puts on a node, under either of its keys. */
  function NodeLoad(moves: seq<Move>, node: string): Amounts {
    Load(moves, node).Add(Load(moves, ExternalKey(node)))
  }

  lemma KeyOfOneKind(s: Snapshot, node: string)
    requires WellNamed(s) && Disjoint(s)
    ensures !(node in InitialFree(s) && ExternalKey(node) in InitialFree(s))
      || exists e <- s.external :: ExternalKey(e.name) == node
  {
    InitiallyKeyed(s);
    assert EXTERNAL <= ExternalKey(node);
    forall e | e in s.external && ExternalKey(e.name) == ExternalKey(node) ensures e.name == node {
      assert ExternalKey(e.name)[|EXTERNAL|..] == e.name && ExternalKey(node)[|EXTERNAL|..] == node;
    }
  }

  lemma OutsideHasNoKey(s: Snapshot, m: Member)
    requires WellNamed(s) && Disjoint(s) && m in s.members && Hosts(m)
    ensures m.name in InitialFree(s) && ExternalKey(m.name) !in InitialFree(s)
  {
    InitiallyKeyed(s);
    KeyOfOneKind(s, m.name);
    NotExternal(s, m);
  }

  lemma {:induction false} NothingGoesOutside(s: Snapshot, ms: seq<Member>, m: Member)
    requires WellNamed(s) && Disjoint(s) && Within(ms, s.members) && m in s.members && Hosts(m)
    ensures Load(AllMoves(RemoveAll(s, ms).done), ExternalKey(m.name)) == ZERO
  {
    OutsideHasNoKey(s, m);
    CapacityIsNeverExceeded(s, ms, ExternalKey(m.name));
    NothingReceived(AllMoves(RemoveAll(s, ms).done), ExternalKey(m.name));
  }

  /** When no node is listed twice, a plan overfills no node that hosts pods. */
  lemma {:induction false} NoHostIsOverfilled(s: Snapshot, ms: seq<Member>, m: Member)
    requires WellNamed(s) && Disjoint(s) && Within(ms, s.members) && m in s.members && Hosts(m)
    requires Receives(AllMoves(RemoveAll(s, ms).done), m.name)
    ensures m.name in InitialFree(s)
    ensures InitialFree(s)[m.name].Minus(NodeLoad(AllMoves(RemoveAll(s, ms).done), m.name)).NonNegative()
  {
    CapacityIsNeverExceeded(s, ms, m.name);
    NothingGoesOutside(s, ms, m);
  }

  /** Nor does it put anything on one that takes no pod under its own name. */
  lemma UnfilledWithoutMoves(s: Snapshot, m: Member)
    requires WellNamed(s) && Disjoint(s) && m in s.members && Hosts(m)
    requires !Receives(AllMoves(PowerOff(s)), m.name)
    ensures NodeLoad(AllMoves(PowerOff(s)), m.name) == ZERO
  {
    NothingReceived(AllMoves(PowerOff(s)), m.name);
    if RunsDown(s) {
      NothingGoesOutside(s, EligibleMembers(s), m);
    }
  }

  function RemovedMembers(done: seq<Removal>): seq<Member> {
    seq(|done|, i requires 0 <= i < |done| => done[i].member)
  }

  // ----- bounds -----------------------------------------------------------------------------

  /** Removed machines come from the list, in its order and each once; none is held by another
      pool; the budget and `minOnline` are kept. */
  ghost predicate Bounded(s: Snapshot, done: seq<Removal>) {
    && |done| <= Budget(s)
    && (done != [] ==> OnlineNow(s) - |done| >= s.spec.minOnline)
    && forall r <- done :: !HeldByOthers(s, r.member.name)
  }

  lemma ConsiderBounded(s: Snapshot, st: Removals, m: Member)
    requires WellNamed(s) && Keyed(s, st) && m in s.members && Bounded(s, st.done)
    ensures Bounded(s, Consider(s, st, m).done)
  {
  }

  lemma {:induction false} RemovalsBounded(s: Snapshot, ms: seq<Member>)
    requires WellNamed(s) && Within(ms, s.members)
    ensures Bounded(s, RemoveAll(s, ms).done)
  {
    if ms != [] {
      var front := ms[..|ms| - 1];
      assert Within(front, s.members) by { assert forall m <- front :: m in ms; }
      RemovalsBounded(s, front);
      ConsiderBounded(s, RemoveAll(s, front), ms[|ms| - 1]);
    }
  }

  ghost predicate InOrder(less: (Member, Member) -> bool, done: seq<Removal>, ms: seq<Member>) {
    Ordering.Ranked(less, RemovedMembers(done)) && forall m <- RemovedMembers(done) :: m in ms
  }

  lemma AppendInOrder(less: (Member, Member) -> bool, done: seq<Removal>, r: Removal, ms: seq<Member>)
    requires ms != [] && r.member == ms[|ms| - 1]
    requires Ordering.Ranked(less, ms) && InOrder(less, done, ms[..|ms| - 1])
    ensures InOrder(less, done + [r], ms)
  {
    var before := RemovedMembers(done);
    assert RemovedMembers(done + [r]) == before + [r.member];
    forall i | 0 <= i < |before| ensures less(before[i], r.member) {
      assert before[i] in before;
      var k :| 0 <= k < |ms| - 1 && ms[k] == before[i];
    }
    forall m | m in before + [r.member] ensures m in ms {
    }
  }

  /** The machines are removed in the order of the list. */
  lemma {:induction false} RemovalsKeepOrder(less: (Member, Member) -> bool, s: Snapshot, ms: seq<Member>)
    requires WellNamed(s) && Within(ms, s.members) && Ordering.Ranked(less, ms)
    ensures InOrder(less, RemoveAll(s, ms).done, ms)
  {
    if ms != [] {
      var front := ms[..|ms| - 1];
      assert Within(front, s.members) by { assert forall m <- front :: m in ms; }
      RemovalsKeepOrder(less, s, front);
      var st, after := RemoveAll(s, front), RemoveAll(s, ms);
      if after.done == st.done {
        assert forall m <- front :: m in ms;
      } else {
        AppendInOrder(less, st.done, after.done[|st.done|], ms);
      }
    }
  }

  // ----- progress ---------------------------------------------------------------------------

  ghost predicate NowStuck(s: Snapshot, st: Removals, m: Member)
    requires WellNamed(s) && Keyed(s, st) && m in s.members
  {
    TargetsAreKnown(s, st, m);
    MoveAll(Targets(s, m.name, RemovedNames(st.done)), st.free - {m.name}, Decreasing(m.movable)) == Stuck
  }

  /** At its turn, the pods of the machine fitted nowhere. */
  ghost predicate StuckAt(s: Snapshot, ms: seq<Member>, i: nat)
    requires WellNamed(s) && Within(ms, s.members) && i < |ms|
  {
    assert Within(ms[..i], s.members) by { assert forall m <- ms[..i] :: m in ms; }
    NowStuck(s, RemoveAll(s, ms[..i]), ms[i])
  }

  predicate AtALimit(s: Snapshot, removed: nat) {
    removed >= Budget(s) || OnlineNow(s) - removed <= s.spec.minOnline
  }

  lemma RemovedGrow(s: Snapshot, st: Removals, m: Member, other: Member)
    requires WellNamed(s) && Keyed(s, st) && m in s.members && other in RemovedMembers(st.done)
    ensures other in RemovedMembers(Consider(s, st, m).done)
  {
    var after := Consider(s, st, m);
    if after != st {
      assert RemovedMembers(after.done) == RemovedMembers(st.done) + [m];
    }
  }

  lemma Removes(s: Snapshot, st: Removals, m: Member)
    requires WellNamed(s) && Keyed(s, st) && m in s.members
    ensures Consider(s, st, m) == st || m in RemovedMembers(Consider(s, st, m).done)
  {
    var after := Consider(s, st, m);
    if after != st {
      assert RemovedMembers(after.done) == RemovedMembers(st.done) + [m];
    }
  }

  lemma StaysNow(s: Snapshot, st: Removals, m: Member)
    requires WellNamed(s) && Keyed(s, st) && m in s.members && !HeldByOthers(s, m.name)
    requires m !in RemovedMembers(Consider(s, st, m).done)
    ensures Consider(s, st, m) == st
    ensures AtALimit(s, |st.done|) || NowStuck(s, st, m)
  {
    Removes(s, st, m);
  }

  lemma LimitStays(s: Snapshot, st: Removals, m: Member)
    requires WellNamed(s) && Keyed(s, st) && m in s.members && AtALimit(s, |st.done|)
    ensures AtALimit(s, |Consider(s, st, m).done|)
  {
  }

  lemma StuckEarlier(s: Snapshot, ms: seq<Member>, i: nat)
    requires WellNamed(s) && Within(ms, s.members) && i < |ms| - 1
    requires Within(ms[..|ms| - 1], s.members) && StuckAt(s, ms[..|ms| - 1], i)
    ensures StuckAt(s, ms, i)
  {
    assert ms[..|ms| - 1][..i] == ms[..i];
  }

  lemma NotRemovedYet(s: Snapshot, st: Removals, last: Member, m: Member)
    requires WellNamed(s) && Keyed(s, st) && last in s.members
    requires m !in RemovedMembers(Consider(s, st, last).done)
    ensures m !in RemovedMembers(st.done)
  {
    if m in RemovedMembers(st.done) {
      RemovedGrow(s, st, last, m);
    }
  }

  ghost predicate HasAReason(s: Snapshot, ms: seq<Member>, i: nat)
    requires WellNamed(s) && Within(ms, s.members) && i < |ms|
  {
    AtALimit(s, |RemoveAll(s, ms).done|) || StuckAt(s, ms, i)
  }

  lemma ReasonStays(s: Snapshot, ms: seq<Member>, i: nat)
    requires WellNamed(s) && Within(ms, s.members) && i < |ms| - 1
    requires Within(ms[..|ms| - 1], s.members) && HasAReason(s, ms[..|ms| - 1], i)
    ensures HasAReason(s, ms, i)
  {
    if AtALimit(s, |RemoveAll(s, ms[..|ms| - 1]).done|) {
      LimitStays(s, RemoveAll(s, ms[..|ms| - 1]), ms[|ms| - 1]);
    } else {
      StuckEarlier(s, ms, i);
    }
  }

  lemma {:induction false} ReasonNow(s: Snapshot, ms: seq<Member>)
    requires WellNamed(s) && ms != [] && Within(ms, s.members) && Within(ms[..|ms| - 1], s.members)
    requires !HeldByOthers(s, ms[|ms| - 1].name) && ms[|ms| - 1] !in RemovedMembers(RemoveAll(s, ms).done)
    ensures HasAReason(s, ms, |ms| - 1)
  {
    StaysNow(s, RemoveAll(s, ms[..|ms| - 1]), ms[|ms| - 1]);
  }

  /** A machine no other pool holds stays only because a limit is reached or its pods fitted
      nowhere at its turn. */
  lemma {:induction false} StaysForAReason(s: Snapshot, ms: seq<Member>, i: nat)
    requires WellNamed(s) && Within(ms, s.members) && i < |ms| && !HeldByOthers(s, ms[i].name)
    requires ms[i] !in RemovedMembers(RemoveAll(s, ms).done)
    ensures AtALimit(s, |RemoveAll(s, ms).done|) || StuckAt(s, ms, i)
  {
    assert Within(ms[..|ms| - 1], s.members) by { assert forall m <- ms[..|ms| - 1] :: m in ms; }
    if i < |ms| - 1 {
      NotRemovedYet(s, RemoveAll(s, ms[..|ms| - 1]), ms[|ms| - 1], ms[i]);
      StaysForAReason(s, ms[..|ms| - 1], i);
      ReasonStays(s, ms, i);
    } else {
      ReasonNow(s, ms);
    }
  }

  /** An idle machine stays only because a limit is reached. */
  lemma {:induction false} IdleMachinesGo(s: Snapshot, ms: seq<Member>, i: nat)
    requires WellNamed(s) && Within(ms, s.members) && i < |ms| && !HeldByOthers(s, ms[i].name)
    requires ms[i].movable == [] && ms[i] !in RemovedMembers(RemoveAll(s, ms).done)
    ensures AtALimit(s, |RemoveAll(s, ms).done|)
  {
    StaysForAReason(s, ms, i);
  }

  // ----- unneeded machines ------------------------------------------------------------------

  lemma {:induction false} UnneededExact(s: Snapshot, ms: seq<Member>, name: string)
    ensures name in UnneededAmong(s, ms) <==> exists m <- ms :: m.name == name && JudgedUnneeded(s, m)
    ensures name in UnneededAmong(s, ms) ==> UnneededAmong(s, ms)[name] == Since(s, name)
  {
    if ms != [] {
      UnneededExact(s, ms[..|ms| - 1], name);
      assert forall m :: m in ms <==> m in ms[..|ms| - 1] || m == ms[|ms| - 1];
    }
  }

  lemma SameName(ms: seq<Member>, a: Member, b: Member)
    requires DistinctNames(ms) && a in ms && b in ms && a.name == b.name
    ensures a == b
  {
  }

  /** A machine's unneeded period has passed exactly when it is judged unneeded now and the period
      began long enough ago. */
  lemma ExpiredExact(s: Snapshot, m: Member)
    requires DistinctNames(s.members) && m in s.members && Candidate(m)
    ensures Expired(s, m) <==> JudgedUnneeded(s, m) && s.now - Since(s, m.name) >= Seconds(s.spec.unneeded)
  {
    CandidatesExact(s);
    UnneededExact(s, Candidates(s), m.name);
    if c :| c in Candidates(s) && c.name == m.name && JudgedUnneeded(s, c) {
      SameName(s.members, c, m);
    }
  }

  lemma EligibleIsUnblocked(s: Snapshot, m: Member)
    requires DistinctNames(s.members) && m in EligibleMembers(s)
    ensures m in s.members && m.auto && m.state == Online && m.blocking == []
  {
    ExpiredExact(s, m);
  }

  // ----- the whole of it --------------------------------------------------------------------

  /** What a plan powers off: Auto machines that are Online, free of blocking pods and held by no
      other pool; never while powering on; within the budget; and never below `minOnline`. */
  lemma PowerOffBounds(s: Snapshot)
    requires WellNamed(s) && DistinctNames(s.members)
    ensures forall r <- PowerOff(s) ::
      r.member in s.members && r.member.auto && r.member.state == Online && r.member.blocking == []
      && !HeldByOthers(s, r.member.name)
    ensures PowerOff(s) != [] ==> PowerOn(s) == []
    ensures |PowerOff(s)| <= Budget(s)
    ensures PowerOff(s) != [] ==> OnlineNow(s) - |PowerOff(s)| >= s.spec.minOnline
  {
    if RunsDown(s) {
      RemovalsBounded(s, EligibleMembers(s));
      forall r | r in PowerOff(s)
        ensures r.member in s.members && r.member.auto && r.member.state == Online && r.member.blocking == []
      {
        RemovedAreListed(s, EligibleMembers(s), r);
        EligibleIsUnblocked(s, r.member);
      }
    }
  }

  lemma RankedWith(less: (Member, Member) -> bool, xs: seq<Member>, last: Member)
    requires Ordering.Ranked(less, xs) && forall x <- xs :: less(x, last)
    ensures Ordering.Ranked(less, xs + [last])
  {
  }

  lemma {:induction false} FilterKeepsRanked(less: (Member, Member) -> bool, keep: Member -> bool, xs: seq<Member>)
    requires Ordering.Ranked(less, xs)
    ensures Ordering.Ranked(less, Filter(keep, xs))
  {
    if xs != [] {
      var front, last := xs[..|xs| - 1], xs[|xs| - 1];
      FilterKeepsRanked(less, keep, front);
      FilterExact(keep, front);
      forall x | x in Filter(keep, front) ensures less(x, last) {
        assert x in front;
        var k :| 0 <= k < |front| && front[k] == x;
        assert xs[k] == x && xs[|front|] == last;
      }
      RankedWith(less, Filter(keep, front), last);
    }
  }

  lemma CandidatesRanked(s: Snapshot)
    requires DistinctNames(s.members)
    ensures Ordering.Ranked((a, b) => Before(s.spec, b, a), Candidates(s))
  {
    var ms := Filter(Candidate, s.members);
    FilterKeepsDistinct(Candidate, s.members);
    RankingIsTotal(s.spec, ms);
    var less, more := (a, b) => Before(s.spec, a, b), (a, b) => Before(s.spec, b, a);
    assert forall a, b :: more(a, b) == less(b, a);
    assert Ordering.TotalOn(more, Ordering.Elements(ms));
    Ordering.SortRanks(more, ms);
  }

  /** Machines go in the exact reverse of the order in which they would be powered on. */
  lemma PowerOffInReverseRank(s: Snapshot)
    requires WellNamed(s) && DistinctNames(s.members)
    ensures Ordering.Ranked((a, b) => Before(s.spec, b, a), RemovedMembers(PowerOff(s)))
  {
    if RunsDown(s) {
      CandidatesRanked(s);
      FilterKeepsRanked((a, b) => Before(s.spec, b, a), m => Eligible(s, m), Candidates(s));
      RemovalsKeepOrder((a, b) => Before(s.spec, b, a), s, EligibleMembers(s));
    }
  }
}
