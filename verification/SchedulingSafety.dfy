/** Which pods may run where, and which of them a drain moves (`src/scaling.rs`). */
module SchedulingSafety {
  import opened Prelude
  import opened Scheduling

  // ----- draining ---------------------------------------------------------------------------

  /** The pod says so itself; the cluster autoscaler's annotation counts where the operator's is missing. */
  predicate Annotated(p: Pod, value: string) {
    if "hardware-autoscaler.safewords.com/safe-to-evict" in p.annotations
    then p.annotations["hardware-autoscaler.safewords.com/safe-to-evict"] == value
    else "cluster-autoscaler.kubernetes.io/safe-to-evict" in p.annotations
         && p.annotations["cluster-autoscaler.kubernetes.io/safe-to-evict"] == value
  }

  /** A sleep probe, shutdown or relay pod of the operator. */
  predicate IsHelper(p: Pod) {
    && "app.kubernetes.io/name" in p.labels && p.labels["app.kubernetes.io/name"] == "kube-hardware-autoscaler"
    && "app.kubernetes.io/component" in p.labels
    && (p.labels["app.kubernetes.io/component"] == "sleep-probe"
        || p.labels["app.kubernetes.io/component"] == "shutdown"
        || p.labels["app.kubernetes.io/component"] == "wake-relay")
  }

  predicate Matters(p: Pod) { p.phase != Some("Succeeded") && p.phase != Some("Failed") && !IsHelper(p) }

  /** The kubelet or a DaemonSet runs it: it comes and goes with its machine. */
  predicate BelongsToNode(p: Pod) { "DaemonSet" in p.ownerKinds || "kubernetes.io/config.mirror" in p.annotations }

  /** It must not be evicted, or nobody would start it again; a DaemonSet or mirror pod only where it says
      so. */
  predicate Blocks(p: Pod) {
    && Matters(p)
    && (Annotated(p, "false") || (p.ownerKinds == [] && !BelongsToNode(p) && !Annotated(p, "true")))
  }

  /** Its controller starts it elsewhere, or it may be lost. */
  predicate Moves(p: Pod) {
    && Matters(p) && !BelongsToNode(p) && !Annotated(p, "false")
    && (p.ownerKinds != [] || Annotated(p, "true"))
  }

  lemma SaysExact(p: Pod, value: string)
    ensures SafeToEvict(p) == Some(value) <==> Annotated(p, value)
  {
  }

  lemma HelperExact(p: Pod)
    ensures IsOperatorHelper(p) <==> IsHelper(p)
  {
  }

  /** Every pod blocks its machine, is moved, or is ignored, exactly so. */
  lemma DrainClassExact(p: Pod)
    ensures DrainClassOf(p) == Block <==> Blocks(p)
    ensures DrainClassOf(p) == Evict <==> Moves(p)
    ensures DrainClassOf(p) == Ignore <==> !Blocks(p) && !Moves(p)
  {
    SaysExact(p, "false");
    SaysExact(p, "true");
    HelperExact(p);
  }

  // ----- taints -----------------------------------------------------------------------------

  /** The taint only says that the node is off, cordoned or not up yet, or it repels no pod. */
  predicate IsHarmless(t: Taint) {
    || (t.effect != "NoSchedule" && t.effect != "NoExecute")
    || t.key == "node.kubernetes.io/unschedulable" || t.key == "node.kubernetes.io/not-ready"
    || t.key == "node.kubernetes.io/unreachable" || t.key == "node.kubernetes.io/network-unavailable"
    || t.key == "node.cloudprovider.kubernetes.io/shutdown" || t.key == "node.kubernetes.io/out-of-service"
    || t.key == "node.cilium.io/agent-not-ready"
  }

  /** A toleration bears a taint of its effect (any, if it names none) and of its key: whatever the value
      with `Exists`, which alone may leave the key out, else with the same value. */
  predicate Bears(t: Toleration, taint: Taint) {
    && (t.effect == None || t.effect == Some("") || t.effect == Some(taint.effect))
    && (if t.operator == Some("Exists") then t.key == None || t.key == Some("") || t.key == Some(taint.key)
        else taint.key != "" && t.key == Some(taint.key)
             && (t.value == Some(taint.value) || (t.value == None && taint.value == "")))
  }

  lemma BearsExact(t: Toleration, taint: Taint)
    ensures ToleratedBy(t, taint) <==> Bears(t, taint)
  {
  }

  /** One more taint on a node keeps out exactly the pods that do not tolerate it, if it is one that
      counts. */
  lemma OneMoreTaint(pod: PodView, labels: Labels, taints: seq<Taint>, t: Taint)
    ensures PodMatchesNode(pod, labels, taints + [t]) <==>
      PodMatchesNode(pod, labels, taints) && (IsHarmless(t) || exists tol <- pod.tolerations :: Bears(tol, t))
  {
    RepelsExact(t);
    assert forall u :: u in taints + [t] <==> u in taints || u == t;
    forall tol <- pod.tolerations ensures ToleratedBy(tol, t) <==> Bears(tol, t) {
      BearsExact(tol, t);
    }
  }

  lemma RepelsExact(t: Taint)
    ensures Repels(t) <==> !IsHarmless(t)
  {
  }

  // ----- labels -----------------------------------------------------------------------------

  predicate Carries(labels: Labels, key: string, value: string) { key in labels && labels[key] == value }

  /** What each operator asks of the node's labels; `Gt` and `Lt` compare decimal integers. */
  predicate Asks(r: Requirement, labels: Labels) {
    || (r.operator == "In" && exists v <- r.values :: Carries(labels, r.key, v))
    || (r.operator == "NotIn" && forall v <- r.values :: !Carries(labels, r.key, v))
    || (r.operator == "Exists" && r.key in labels)
    || (r.operator == "DoesNotExist" && r.key !in labels)
    || (r.operator == "Gt" && r.key in labels && r.values != [] && Exceeds(labels[r.key], r.values[0]))
    || (r.operator == "Lt" && r.key in labels && r.values != [] && Exceeds(r.values[0], labels[r.key]))
  }

  predicate Exceeds(a: string, b: string) {
    ParseI64(a).Some? && ParseI64(b).Some? && ParseI64(a).value > ParseI64(b).value
  }

  lemma RequirementExact(r: Requirement, labels: Labels)
    ensures RequirementMatches(r, labels) <==> Asks(r, labels)
  {
  }

  /** Without taints, a pod may run where its selector's labels are, and where every requirement of some
      affinity term is met, if it has any. */
  lemma PlacementExact(pod: PodView, labels: Labels)
    ensures PodMatchesNode(pod, labels, []) <==>
      && (forall k | k in pod.nodeSelector :: Carries(labels, k, pod.nodeSelector[k]))
      && (pod.affinityTerms != [] ==> exists term <- pod.affinityTerms :: forall r <- term :: Asks(r, labels))
  {
    forall term | term in pod.affinityTerms ensures TermMatches(term, labels) <==> forall r <- term :: Asks(r, labels) {
      forall r | r in term ensures RequirementMatches(r, labels) <==> Asks(r, labels) {
        RequirementExact(r, labels);
      }
    }
  }

  // ----- decimal text -----------------------------------------------------------------------

  function Decimal(n: nat): (s: string)
    ensures s != ""
  {
    var last := [('0' as int + n % 10) as char];
    if n < 10 then last else Decimal(n / 10) + last
  }

  lemma {:induction false} DecimalValue(n: nat)
    ensures DigitsValue(Decimal(n)) == Some(n)
  {
    var last := [('0' as int + n % 10) as char];
    if n < 10 {
      assert Decimal(n)[..0] == "" && Decimal(n) == last;
    } else {
      DecimalValue(n / 10);
      assert (Decimal(n / 10) + last)[..|Decimal(n / 10)|] == Decimal(n / 10);
    }
  }

  lemma {:induction false} DecimalStartsWithDigit(n: nat)
    ensures '0' <= Decimal(n)[0] <= '9'
  {
    if n >= 10 {
      DecimalStartsWithDigit(n / 10);
    }
  }

  function Text(v: int): string { if v < 0 then "-" + Decimal(-v) else Decimal(v) }

  const I64_MIN := -0x8000_0000_0000_0000

  /** Every 64-bit integer survives being written and read, with a plus sign too; no other does. */
  lemma {:induction false} TextIsRead(v: int)
    ensures ParseI64(Text(v)) == if I64_MIN <= v < -I64_MIN then Some(v) else None
    ensures v >= 0 ==> ParseI64("+" + Text(v)) == ParseI64(Text(v))
  {
    var n: nat := if v < 0 then -v else v;
    DecimalValue(n);
    DecimalStartsWithDigit(n);
    assert ("-" + Decimal(n))[1..] == Decimal(n) && ("+" + Decimal(n))[1..] == Decimal(n);
  }

  /** So a node labelled with an integer meets `Gt` and `Lt` as the integers compare. */
  lemma ComparesIntegers(key: string, a: int, b: int, labels: Labels)
    requires I64_MIN <= a < -I64_MIN && I64_MIN <= b < -I64_MIN && Carries(labels, key, Text(a))
    ensures RequirementMatches(Requirement(key, "Gt", [Text(b)]), labels) <==> a > b
    ensures RequirementMatches(Requirement(key, "Lt", [Text(b)]), labels) <==> a < b
  {
    TextIsRead(a);
    TextIsRead(b);
  }

  // ----- pools ------------------------------------------------------------------------------

  predicate Wants(r: LabelRequirement, labels: Labels) {
    match r.operator
    case In => exists v <- r.values :: Carries(labels, r.key, v)
    case NotIn => forall v <- r.values :: !Carries(labels, r.key, v)
    case Exists => r.key in labels
    case DoesNotExist => r.key !in labels
  }

  /** A pool selects the nodes that carry all its labels and meet all its expressions; without either it
      selects none. */
  lemma SelectorExact(s: NodeSelector, labels: Labels)
    ensures s.Matches(labels) <==>
      && !(s.matchLabels == map[] && s.matchExpressions == [])
      && (forall k | k in s.matchLabels :: Carries(labels, k, s.matchLabels[k]))
      && (forall r <- s.matchExpressions :: Wants(r, labels))
  {
    forall r | r in s.matchExpressions ensures s.ExpressionHolds(r, labels) <==> Wants(r, labels) {
    }
  }

  /** A pod without affinity selects a pool explicitly if and only if every node it may run on, taints
      aside, carries the pool's labels, and the pool has some. */
  lemma SelectorOnlyExact(pod: PodView, pool: NodeSelector)
    requires pod.affinityTerms == []
    ensures ExplicitlySelects(pod, pool) <==>
      && pool.matchLabels != map[]
      && forall labels: Labels | PodMatchesNode(pod, labels, []) ::
           forall k | k in pool.matchLabels :: Carries(labels, k, pool.matchLabels[k])
  {
    assert PodMatchesNode(pod, pod.nodeSelector, []);
    if ExplicitlySelects(pod, pool) {
      forall labels: Labels | PodMatchesNode(pod, labels, [])
        ensures forall k | k in pool.matchLabels :: Carries(labels, k, pool.matchLabels[k])
      {
        ExplicitSelectionPinsLabels(pod, pool, labels, []);
      }
    }
  }

  /** The terms of the pod's affinity list values for one label each. */
  predicate OneLabelEach(pod: PodView) {
    forall term: seq<Requirement> <- pod.affinityTerms :: |term| == 1 && term[0].operator == "In" && term[0].values != []
  }

  /** The same for affinity that lists values for one label in each of its terms. */
  lemma AffinityOnlyExact(pod: PodView, pool: NodeSelector, key: string, value: string)
    requires pod.nodeSelector == map[] && OneLabelEach(pod) && pool.matchLabels == map[key := value]
    ensures ExplicitlySelects(pod, pool) <==>
      forall labels: Labels | PodMatchesNode(pod, labels, []) :: Carries(labels, key, value)
  {
    if ExplicitlySelects(pod, pool) {
      forall labels: Labels | PodMatchesNode(pod, labels, []) ensures Carries(labels, key, value) {
        ExplicitSelectionPinsLabels(pod, pool, labels, []);
        assert key in pool.matchLabels;
      }
    } else if pod.affinityTerms == [] {
      assert PodMatchesNode(pod, map[], []);
      assert !Carries(map[], key, value);
    } else {
      assert key in pool.matchLabels && !PinsInEveryTerm(pod, key, value);
      var term :| term in pod.affinityTerms && !exists r <- term :: Pins(r, key, value);
      assert term[0] in term;
      var elsewhere := RunsElsewhere(pod, term, key, value);
    }
  }

  lemma LabelMatches(r: Requirement, v: string)
    requires r.operator == "In" && v in r.values
    ensures RequirementMatches(r, map[r.key := v])
  {
  }

  lemma RunsThere(pod: PodView, term: seq<Requirement>, labels: Labels)
    requires pod.nodeSelector == map[] && term in pod.affinityTerms && TermMatches(term, labels)
    ensures PodMatchesNode(pod, labels, [])
  {
  }

  lemma OnlyTerm(r: Requirement, labels: Labels)
    ensures TermMatches([r], labels) <==> RequirementMatches(r, labels)
  {
    assert r in [r];
  }

  lemma RunsElsewhere(pod: PodView, term: seq<Requirement>, key: string, value: string) returns (labels: Labels)
    requires pod.nodeSelector == map[] && term in pod.affinityTerms
    requires |term| == 1 && term[0].operator == "In" && term[0].values != [] && !Pins(term[0], key, value)
    ensures PodMatchesNode(pod, labels, []) && !Carries(labels, key, value)
  {
    var r := term[0];
    var v := AnotherValue(r, key, value);
    labels := map[r.key := v];
    LabelMatches(r, v);
    OnlyTerm(r, labels);
    assert term == [r];
    RunsThere(pod, term, labels);
  }

  lemma AnotherValue(r: Requirement, key: string, value: string) returns (v: string)
    requires r.operator == "In" && r.values != [] && !Pins(r, key, value)
    ensures v in r.values && (r.key == key ==> v != value)
  {
    v := r.values[0];
    if r.key == key && v == value {
      v :| v in r.values && v != value;
    }
  }
}
