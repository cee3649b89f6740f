/** What a pool knows and decides: members, spec, snapshot and plan (`src/scaling.rs`, `src/crd.rs`). */
module PoolModel {
  import opened Prelude
  import opened Clock
  import opened Resources
  import opened Scheduling
  import Ordering

  datatype MemberState = Online | Booting | Offline | Leaving | Unavailable | Manual

  datatype Member = Member(
    name: string,
    state: MemberState,
    auto: bool,                        // powerPolicy is Auto
    labels: Labels,
    taints: seq<Taint>,
    allocatable: Amounts,
    requested: Amounts,
    counted: Amounts,                  // the part of `requested` that counts as utilization
    movable: seq<PodView>,
    blocking: seq<string>,
    drainFailedAt: Option<int>,
    s3Capable: bool,
    registering: map<string, int>,     // extended resources not registered yet
    adoptedAt: Option<int>,
    releaseAfter: Option<int>)

  datatype ExternalNode = ExternalNode(name: string, labels: Labels, taints: seq<Taint>, free: Amounts)

  datatype PreferredNode = PreferredNode(name: string, weight: nat)

  datatype Spec = Spec(
    selector: NodeSelector,
    minOnline: nat,
    maxOnline: Option<nat>,
    upEnabled: bool,
    pendingGrace: int,
    upStep: nat,
    requireSelection: bool,
    preferS3: bool,
    preferred: seq<PreferredNode>,
    bootFailureBackoff: int,
    downEnabled: bool,
    utilizationThreshold: nat,
    unneeded: int,
    holdAfterPowerOn: Option<int>,
    delayAfterScaleUp: Option<int>,
    drainFailureBackoff: int,
    downStep: nat,
    manualGrace: int)
  {
    /** Both steps are at least 1. */
    function UpStep(): nat { if upStep > 1 then upStep else 1 }

    function DownStep(): nat { if downStep > 1 then downStep else 1 }

    /** The new name, else the deprecated one, else 600 seconds. */
    function Hold(): int {
      if holdAfterPowerOn.Some? then holdAfterPowerOn.value else delayAfterScaleUp.GetOr(600)
    }

    /** The weight of a machine: its first `preferredNodes` entry, 0 when unlisted. */
    function Weight(node: string): nat { WeightIn(preferred, node) }

    predicate BelowMax(n: nat) { maxOnline.None? || n < maxOnline.value }

    function ExcessOverMax(online: nat): nat {
      if maxOnline.Some? && online > maxOnline.value then online - maxOnline.value else 0
    }
  }

  function WeightIn(preferred: seq<PreferredNode>, node: string): nat {
    if preferred == [] then 0
    else if preferred[0].name == node then preferred[0].weight
    else WeightIn(preferred[1..], node)
  }

  /** The first entry with a machine's name weighs it, and one without an entry weighs nothing. */
  lemma {:induction false} FirstEntryWeighs(preferred: seq<PreferredNode>, node: string, k: nat)
    requires k <= |preferred| && forall j :: 0 <= j < k ==> preferred[j].name != node
    requires k < |preferred| ==> preferred[k].name == node
    ensures WeightIn(preferred, node) == if k < |preferred| then preferred[k].weight else 0
  {
    if k > 0 {
      FirstEntryWeighs(preferred[1..], node, k - 1);
    }
  }

  datatype Snapshot = Snapshot(
    spec: Spec,
    members: seq<Member>,
    pending: seq<PodView>,
    now: int,
    lastScaleUp: Option<int>,
    unneededSince: map<string, int>,
    external: seq<ExternalNode>,
    keptByOthers: map<string, seq<string>>)     // member -> the pools that hold it

  function Names(members: seq<Member>): seq<string> {
    seq(|members|, i requires 0 <= i < |members| => members[i].name)
  }

  ghost predicate DistinctNames(members: seq<Member>) {
    forall i, j :: 0 <= i < j < |members| ==> members[i].name != members[j].name
  }

  // ----- filters ----------------------------------------------------------------------------

  predicate Candidate(m: Member) { m.auto && m.state == Online }

  predicate CanOpen(m: Member) { m.auto && m.state == Offline }

  predicate Counts(m: Member) { m.state == Online || m.state == Booting }

  predicate IsBooting(m: Member) { m.state == Booting }

  predicate IsLeaving(m: Member) { m.state == Leaving }

  predicate Hosts(m: Member) { m.state == Online || m.state == Manual }

  function Filter<T>(keep: T -> bool, s: seq<T>): seq<T> {
    if s == [] then []
    else if keep(s[|s| - 1]) then Filter(keep, s[..|s| - 1]) + [s[|s| - 1]]
    else Filter(keep, s[..|s| - 1])
  }

  lemma {:induction false} FilterExact<T>(keep: T -> bool, s: seq<T>)
    ensures forall x :: x in Filter(keep, s) <==> x in s && keep(x)
    ensures |Filter(keep, s)| <= |s|
  {
    if s != [] {
      FilterExact(keep, s[..|s| - 1]);
      assert s == s[..|s| - 1] + [s[|s| - 1]];
    }
  }

  lemma {:induction false} FilterElements<T>(keep: T -> bool, s: seq<T>)
    ensures multiset(Filter(keep, s)) <= multiset(s)
    ensures forall x :: multiset(Filter(keep, s))[x] == if keep(x) then multiset(s)[x] else 0
  {
    if s != [] {
      FilterElements(keep, s[..|s| - 1]);
      assert s == s[..|s| - 1] + [s[|s| - 1]];
    }
  }

  /** A filter depends on the elements only, not on their order. */
  lemma {:induction false} FilterIgnoresOrder<T>(keep: T -> bool, s: seq<T>, t: seq<T>)
    requires multiset(s) == multiset(t)
    ensures multiset(Filter(keep, s)) == multiset(Filter(keep, t))
    ensures |Filter(keep, s)| == |Filter(keep, t)|
  {
    FilterElements(keep, s);
    FilterElements(keep, t);
    assert |multiset(Filter(keep, s))| == |multiset(Filter(keep, t))|;
  }

  lemma {:induction false} FilterKeepsDistinct(keep: Member -> bool, s: seq<Member>)
    requires DistinctNames(s)
    ensures DistinctNames(Filter(keep, s))
  {
    if s != [] {
      FilterKeepsDistinct(keep, s[..|s| - 1]);
      FilterExact(keep, s[..|s| - 1]);
      forall m | m in Filter(keep, s[..|s| - 1]) ensures m.name != s[|s| - 1].name {
        assert m in s[..|s| - 1];
      }
    }
  }

  // ----- ranking ----------------------------------------------------------------------------

  /** Rule 3: CPU, then memory, largest first. */
  predicate Larger(a: Amounts, b: Amounts) {
    a.cpu > b.cpu || (a.cpu == b.cpu && a.memory > b.memory)
  }

  predicate SameSize(a: Amounts, b: Amounts) { a.cpu == b.cpu && a.memory == b.memory }

  /** Whether `a` is powered on before `b`: weight, S3 (where preferred), size, name. */
  predicate Before(spec: Spec, a: Member, b: Member) {
    var wa, wb := spec.Weight(a.name), spec.Weight(b.name);
    if wa != wb then wa > wb
    else if spec.preferS3 && a.s3Capable != b.s3Capable then a.s3Capable
    else if !SameSize(a.allocatable, b.allocatable) then Larger(a.allocatable, b.allocatable)
    else Ordering.TextLess(a.name, b.name)
  }

  /** The ranking rule by rule: the heavier machine first; of equals, where preferred, the one that can
      sleep; then the one with more CPU, then more memory; and last by name. */
  lemma RankedByRules(spec: Spec, a: Member, b: Member)
    ensures Before(spec, a, b) <==>
      var wa, wb := WeightIn(spec.preferred, a.name), WeightIn(spec.preferred, b.name);
      var sa, sb := spec.preferS3 && a.s3Capable, spec.preferS3 && b.s3Capable;
      var x, y := a.allocatable, b.allocatable;
      || wa > wb
      || (wa == wb && sa && !sb)
      || (wa == wb && sa == sb && x.cpu > y.cpu)
      || (wa == wb && sa == sb && x.cpu == y.cpu && x.memory > y.memory)
      || (wa == wb && sa == sb && x.cpu == y.cpu && x.memory == y.memory && Ordering.TextLess(a.name, b.name))
  {
  }

  function PowerOnRank(spec: Spec, members: seq<Member>): seq<Member> {
    Ordering.SortBy((a, b) => Before(spec, a, b), members)
  }

  function PowerOffRank(spec: Spec, members: seq<Member>): seq<Member> {
    Ordering.SortBy((a, b) => Before(spec, b, a), members)
  }

  datatype Rule = ByWeight | ByS3 | BySize | ByName

  /** The rule the decision log names for choosing `chosen` over `other`. */
  function DecidingRule(spec: Spec, chosen: Member, other: Member): Rule {
    if spec.Weight(chosen.name) != spec.Weight(other.name) then ByWeight
    else if spec.preferS3 && chosen.s3Capable != other.s3Capable then ByS3
    else if !SameSize(chosen.allocatable, other.allocatable) then BySize
    else ByName
  }

  /** How two members compare under one rule alone: positive when `a` comes first. */
  function Compare(spec: Spec, rule: Rule, a: Member, b: Member): int {
    match rule
    case ByWeight => spec.Weight(a.name) - spec.Weight(b.name)
    case ByS3 => if !spec.preferS3 || a.s3Capable == b.s3Capable then 0 else if a.s3Capable then 1 else -1
    case BySize =>
      if Larger(a.allocatable, b.allocatable) then 1 else if Larger(b.allocatable, a.allocatable) then -1 else 0
    case ByName => if Ordering.TextLess(a.name, b.name) then 1 else if Ordering.TextLess(b.name, a.name) then -1 else 0
  }

  function Earlier(rule: Rule): set<Rule> {
    match rule
    case ByWeight => {}
    case ByS3 => {ByWeight}
    case BySize => {ByWeight, ByS3}
    case ByName => {ByWeight, ByS3, BySize}
  }

  /** The deciding rule is the first on which the two differ, and it favours whoever comes first. */
  lemma DecidingRuleDecides(spec: Spec, a: Member, b: Member)
    requires a.name != b.name
    ensures var rule := DecidingRule(spec, a, b);
      && Compare(spec, rule, a, b) != 0
      && (Before(spec, a, b) <==> Compare(spec, rule, a, b) > 0)
      && (forall r <- Earlier(rule) :: Compare(spec, r, a, b) == 0)
      && DecidingRule(spec, b, a) == rule
  {
    Ordering.TextLessTotal(a.name, b.name);
  }

  lemma BeforeTotal(spec: Spec, a: Member, b: Member)
    requires a.name != b.name
    ensures Before(spec, a, b) || Before(spec, b, a)
    ensures !(Before(spec, a, b) && Before(spec, b, a))
  {
    Ordering.TextLessTotal(a.name, b.name);
  }

  lemma BeforeTransitive(spec: Spec, a: Member, b: Member, c: Member)
    requires Before(spec, a, b) && Before(spec, b, c)
    ensures Before(spec, a, c)
  {
    if Ordering.TextLess(a.name, b.name) && Ordering.TextLess(b.name, c.name) {
      Ordering.TextLessTransitive(a.name, b.name, c.name);
    }
  }

  /** `power_on_order` is a strict total order on members with distinct names. */
  lemma RankingIsTotal(spec: Spec, members: seq<Member>)
    requires DistinctNames(members)
    ensures Ordering.TotalOn((a, b) => Before(spec, a, b), Ordering.Elements(members))
    ensures Ordering.Distinct(members)
  {
    var less := (a, b) => Before(spec, a, b);
    var all := Ordering.Elements(members);
    forall a, b | a in all && b in all
      ensures less(a, b) ==> !less(b, a)
      ensures a == b || less(a, b) || less(b, a)
    {
      if a.name != b.name {
        BeforeTotal(spec, a, b);
      } else {
        Ordering.TextLessTotal(a.name, a.name);
      }
    }
    forall a, b, c | a in all && b in all && c in all && less(a, b) && less(b, c) ensures less(a, c) {
      BeforeTransitive(spec, a, b, c);
    }
  }

  /** The scale-down ranking of members is the exact reverse of their scale-up ranking. */
  lemma PowerOffRankIsReverse(spec: Spec, members: seq<Member>)
    requires DistinctNames(members)
    ensures PowerOffRank(spec, members) == Ordering.Backwards(PowerOnRank(spec, members))
  {
    RankingIsTotal(spec, members);
    Ordering.OppositeSortIsReverse((a, b) => Before(spec, a, b), (a, b) => Before(spec, b, a), members);
  }

  /** The scale-up ranking does not depend on the order in which members are listed. */
  lemma PowerOnRankIgnoresOrder(spec: Spec, members: seq<Member>, others: seq<Member>)
    requires DistinctNames(members) && DistinctNames(others) && multiset(members) == multiset(others)
    ensures PowerOnRank(spec, members) == PowerOnRank(spec, others)
  {
    RankingIsTotal(spec, members);
    RankingIsTotal(spec, others);
    Ordering.SortIgnoresOrder((a, b) => Before(spec, a, b), members, others);
  }
}
