/** Pods, nodes and who may run where (`src/scaling.rs`, selectors from `src/crd.rs`,
    membership from `src/membership.rs`). */
module Scheduling {
  import opened Prelude
  import opened Resources
  import Ordering

  type Labels = map<string, string>

  datatype Taint = Taint(key: string, value: string, effect: string)

  datatype Toleration = Toleration(
    key: Option<string>, operator: Option<string>, value: Option<string>, effect: Option<string>)

  datatype Requirement = Requirement(key: string, operator: string, values: seq<string>)

  datatype PodView = PodView(
    id: string,                                   // namespace/name
    requests: Amounts,
    nodeSelector: Labels,
    affinityTerms: seq<seq<Requirement>>,         // OR of ANDs
    tolerations: seq<Toleration>,
    created: Option<int>,
    extended: map<string, int>)

  function LabelOf(labels: Labels, key: string): Option<string> {
    if key in labels then Some(labels[key]) else None
  }

  // ----- placement rules --------------------------------------------------------------------

  const TRANSIENT_TAINTS: set<string> := {
    "node.kubernetes.io/unschedulable",
    "node.kubernetes.io/not-ready",
    "node.kubernetes.io/unreachable",
    "node.kubernetes.io/network-unavailable",
    "node.cloudprovider.kubernetes.io/shutdown",
    "node.kubernetes.io/out-of-service",
    "node.cilium.io/agent-not-ready"
  }

  predicate ToleratedBy(t: Toleration, taint: Taint) {
    var effectOk := t.effect.None? || t.effect.value == "" || t.effect.value == taint.effect;
    var keyOk := if t.key.None? || t.key.value == "" then t.operator == Some("Exists") else t.key.value == taint.key;
    var valueOk := t.operator == Some("Exists") || t.value.GetOr("") == taint.value;
    effectOk && keyOk && valueOk
  }

  predicate Tolerates(tolerations: seq<Toleration>, taint: Taint) {
    exists t <- tolerations :: ToleratedBy(t, taint)
  }

  /** Whether a taint counts: it repels pods, and says more than that the node is off. */
  predicate Repels(taint: Taint) {
    taint.effect in {"NoSchedule", "NoExecute"} && taint.key !in TRANSIENT_TAINTS
  }

  function DigitsValue(s: string): Option<nat> {
    if s == "" then Some(0)
    else if !('0' <= s[|s| - 1] <= '9') then None
    else
      match DigitsValue(s[..|s| - 1])
      case None => None
      case Some(n) => Some(10 * n + (s[|s| - 1] as int - '0' as int))
  }

  /** Decimal text as a 64-bit integer: an optional sign, digits, and a value in range. */
  function ParseI64(s: string): Option<int> {
    if s == "" || s == "+" || s == "-" then None
    else
      var digits := if s[0] in {'+', '-'} then s[1..] else s;
      match DigitsValue(digits)
      case None => None
      case Some(n) =>
        var v: int := if s[0] == '-' then 0 - n else n;
        if -0x8000_0000_0000_0000 <= v < 0x8000_0000_0000_0000 then Some(v) else None
  }

  function IntOf(s: Option<string>): Option<int> {
    if s.Some? then ParseI64(s.value) else None
  }

  predicate RequirementMatches(req: Requirement, labels: Labels) {
    var value := LabelOf(labels, req.key);
    var bound := IntOf(if req.values == [] then None else Some(req.values[0]));
    match req.operator
    case "In" => value.Some? && value.value in req.values
    case "NotIn" => value.None? || value.value !in req.values
    case "Exists" => value.Some?
    case "DoesNotExist" => value.None?
    case "Gt" => IntOf(value).Some? && bound.Some? && IntOf(value).value > bound.value
    case "Lt" => IntOf(value).Some? && bound.Some? && IntOf(value).value < bound.value
    case _ => false
  }

  predicate TermMatches(term: seq<Requirement>, labels: Labels) {
    forall r <- term :: RequirementMatches(r, labels)
  }

  /** Whether the pod could be placed on a node with these labels and taints, ignoring resources. */
  predicate PodMatchesNode(pod: PodView, labels: Labels, taints: seq<Taint>) {
    && (forall k | k in pod.nodeSelector :: LabelOf(labels, k) == Some(pod.nodeSelector[k]))
    && (pod.affinityTerms == [] || exists term <- pod.affinityTerms :: TermMatches(term, labels))
    && (forall t <- taints :: Repels(t) ==> Tolerates(pod.tolerations, t))
  }

  // ----- pools and explicit selection -------------------------------------------------------

  datatype LabelOperator = In | NotIn | Exists | DoesNotExist

  datatype LabelRequirement = LabelRequirement(key: string, operator: LabelOperator, values: seq<string>)

  datatype NodeSelector = NodeSelector(matchLabels: Labels, matchExpressions: seq<LabelRequirement>) {

    predicate ExpressionHolds(r: LabelRequirement, labels: Labels) {
      var value := LabelOf(labels, r.key);
      match r.operator
      case In => value.Some? && value.value in r.values
      case NotIn => value.None? || value.value !in r.values
      case Exists => value.Some?
      case DoesNotExist => value.None?
    }

    /** An empty selector matches nothing. */
    predicate Matches(labels: Labels) {
      && (matchLabels != map[] || matchExpressions != [])
      && (forall k | k in matchLabels :: LabelOf(labels, k) == Some(matchLabels[k]))
      && (forall r <- matchExpressions :: ExpressionHolds(r, labels))
    }
  }

  /** A requirement that pins label `key` to `value`. */
  predicate Pins(r: Requirement, key: string, value: string) {
    r.key == key && r.operator == "In" && r.values != [] && forall v <- r.values :: v == value
  }

  predicate PinsInEveryTerm(pod: PodView, key: string, value: string) {
    pod.affinityTerms != [] && forall term <- pod.affinityTerms :: exists r <- term :: Pins(r, key, value)
  }

  /** Whether the pod targets nodes carrying all of the pool's `matchLabels`. */
  predicate ExplicitlySelects(pod: PodView, pool: NodeSelector) {
    && pool.matchLabels != map[]
    && forall k | k in pool.matchLabels ::
         LabelOf(pod.nodeSelector, k) == Some(pool.matchLabels[k])
         || PinsInEveryTerm(pod, k, pool.matchLabels[k])
  }

  /** Wherever an explicitly selecting pod may run, the node carries every `matchLabel` of the pool. */
  lemma ExplicitSelectionPinsLabels(pod: PodView, pool: NodeSelector, labels: Labels, taints: seq<Taint>)
    requires ExplicitlySelects(pod, pool) && PodMatchesNode(pod, labels, taints)
    ensures forall k | k in pool.matchLabels :: LabelOf(labels, k) == Some(pool.matchLabels[k])
    ensures pool.matchExpressions == [] ==> pool.Matches(labels)
  {
    forall k | k in pool.matchLabels
      ensures LabelOf(labels, k) == Some(pool.matchLabels[k])
    {
      var want := pool.matchLabels[k];
      if LabelOf(pod.nodeSelector, k) == Some(want) {
        assert LabelOf(labels, k) == Some(pod.nodeSelector[k]);
      } else {
        var term :| term in pod.affinityTerms && TermMatches(term, labels);
        var r :| r in term && Pins(r, k, want);
        assert RequirementMatches(r, labels);
      }
    }
  }

  /** Taints that only say the node is off or being cordoned never decide a placement. */
  lemma TransientTaintsNeverDecide(pod: PodView, labels: Labels, taints: seq<Taint>, more: seq<Taint>)
    requires forall t <- more :: t.key in TRANSIENT_TAINTS
    ensures PodMatchesNode(pod, labels, taints + more) <==> PodMatchesNode(pod, labels, taints)
  {
    assert forall t <- taints :: t in taints + more;
    assert forall t <- taints + more :: t in taints || t in more;
  }

  // ----- membership -------------------------------------------------------------------------

  datatype Pool = Pool(name: string, deleting: bool, selector: NodeSelector)

  datatype Membership = NoNode | NotInPool | Member(pools: seq<string>)

  function MatchingPools(labels: Labels, pools: seq<Pool>): seq<string> {
    if pools == [] then []
    else
      var p := pools[0];
      (if !p.deleting && p.selector.Matches(labels) then [p.name] else []) + MatchingPools(labels, pools[1..])
  }

  function SortedNames(names: seq<string>): seq<string> {
    Ordering.SortBy(Ordering.TextLess, names)
  }

  /** The pools a Node with these labels belongs to (`None`: there is no such Node). */
  function Resolve(labels: Option<Labels>, pools: seq<Pool>): Membership {
    if labels.None? then NoNode
    else
      var names := SortedNames(MatchingPools(labels.value, pools));
      if names == [] then NotInPool else Member(names)
  }

  function PoolsOf(m: Membership): seq<string> {
    if m.Member? then m.pools else []
  }

  lemma {:induction false} MatchingPoolsExact(labels: Labels, pools: seq<Pool>, name: string)
    ensures name in MatchingPools(labels, pools)
      <==> exists p <- pools :: p.name == name && !p.deleting && p.selector.Matches(labels)
  {
    if pools != [] {
      MatchingPoolsExact(labels, pools[1..], name);
      assert forall p :: p in pools <==> p == pools[0] || p in pools[1..];
    }
  }

  /** A machine belongs to exactly the live pools whose selector matches its Node's labels. */
  lemma MembershipExact(labels: Labels, pools: seq<Pool>, name: string)
    ensures name in PoolsOf(Resolve(Some(labels), pools))
      <==> exists p <- pools :: p.name == name && !p.deleting && p.selector.Matches(labels)
  {
    var names := MatchingPools(labels, pools);
    MatchingPoolsExact(labels, pools, name);
    Ordering.SortMembership(Ordering.TextLess, names, name);
  }

  // ----- drain classes ----------------------------------------------------------------------

  /** A pod object as the caches hold it. */
  datatype Pod = Pod(
    view: PodView,
    phase: Option<string>,
    labels: Labels,
    annotations: Labels,
    ownerKinds: seq<string>,
    deleting: bool)

  datatype DrainClass = Ignore | Evict | Block

  const SAFE_TO_EVICT := "hardware-autoscaler.safewords.com/safe-to-evict"
  const CLUSTER_SAFE_TO_EVICT := "cluster-autoscaler.kubernetes.io/safe-to-evict"
  const MIRROR := "kubernetes.io/config.mirror"

  predicate IsActive(pod: Pod) {
    pod.phase !in {Some("Succeeded"), Some("Failed")}
  }

  predicate IsDaemonSetPod(pod: Pod) { "DaemonSet" in pod.ownerKinds }

  predicate IsMirrorPod(pod: Pod) { MIRROR in pod.annotations }

  predicate IsOperatorHelper(pod: Pod) {
    && LabelOf(pod.labels, "app.kubernetes.io/name") == Some("kube-hardware-autoscaler")
    && LabelOf(pod.labels, "app.kubernetes.io/component") in {Some("sleep-probe"), Some("shutdown"), Some("wake-relay")}
  }

  /** The operator's own annotation decides; the cluster autoscaler's counts only without it. */
  function SafeToEvict(pod: Pod): Option<string> {
    var own := LabelOf(pod.annotations, SAFE_TO_EVICT);
    if own.Some? then own else LabelOf(pod.annotations, CLUSTER_SAFE_TO_EVICT)
  }

  function DrainClassOf(pod: Pod): DrainClass {
    if !IsActive(pod) || IsOperatorHelper(pod) then Ignore
    else if IsDaemonSetPod(pod) || IsMirrorPod(pod) then
      if SafeToEvict(pod) == Some("false") then Block else Ignore
    else if SafeToEvict(pod) == Some("false") then Block
    else if SafeToEvict(pod) == Some("true") then Evict
    else if pod.ownerKinds == [] then Block
    else Evict
  }
}
