/** Resource amounts and the requests of a pod (`src/resources.rs`). Quantities are exact integers. */
module Resources {

  datatype Amounts = Amounts(cpu: int, memory: int, pods: int) {

    function Add(o: Amounts): Amounts {
      Amounts(cpu + o.cpu, memory + o.memory, pods + o.pods)
    }

    function Minus(o: Amounts): Amounts {
      Amounts(cpu - o.cpu, memory - o.memory, pods - o.pods)
    }

    /** Whether `req` fits in this free capacity. */
    predicate Fits(req: Amounts) {
      req.cpu <= cpu && req.memory <= memory && req.pods <= pods
    }

    predicate NonNegative() {
      0 <= cpu && 0 <= memory && 0 <= pods
    }

    /** max(cpu, memory) utilization by `used` is at least `percent`, as an exact ratio. */
    predicate UtilizedAtLeast(used: Amounts, percent: int) {
      RatioAtLeast(used.cpu, cpu, percent) || RatioAtLeast(used.memory, memory, percent)
    }
  }

  const ZERO := Amounts(0, 0, 0)

  /** 100 * used / total >= percent, where the ratio over an empty total counts as 0. */
  predicate RatioAtLeast(used: int, total: int, percent: int) {
    if total > 0 then 100 * used >= percent * total else 0 >= percent
  }

  function Sum(xs: seq<Amounts>): Amounts {
    if xs == [] then ZERO else Sum(xs[..|xs| - 1]).Add(xs[|xs| - 1])
  }

  // ----- what the scheduler reserves for a pod ----------------------------------------------

  function MaxOver(floor: int, xs: seq<int>): (m: int)
    ensures m >= floor && forall x <- xs :: m >= x
    ensures m == floor || m in xs
  {
    if xs == [] then floor
    else
      var rest := MaxOver(floor, xs[..|xs| - 1]);
      assert xs == xs[..|xs| - 1] + [xs[|xs| - 1]];
      if xs[|xs| - 1] > rest then xs[|xs| - 1] else rest
  }

  function Cpus(xs: seq<Amounts>): seq<int> { seq(|xs|, i requires 0 <= i < |xs| => xs[i].cpu) }

  function Memories(xs: seq<Amounts>): seq<int> { seq(|xs|, i requires 0 <= i < |xs| => xs[i].memory) }

  /** Containers run together, init containers before them and one at a time: the larger of the sum
      of the containers and each init container, plus the overhead. Counts as one pod. */
  method PodRequests(containers: seq<Amounts>, initContainers: seq<Amounts>, overhead: Amounts)
    returns (sum: Amounts)
    ensures sum.cpu == MaxOver(Sum(containers).cpu, Cpus(initContainers)) + overhead.cpu
    ensures sum.memory == MaxOver(Sum(containers).memory, Memories(initContainers)) + overhead.memory
    ensures sum.pods == 1
  {
    sum := ZERO;
    for i := 0 to |containers|
      invariant sum.cpu == Sum(containers[..i]).cpu && sum.memory == Sum(containers[..i]).memory
    {
      sum := Amounts(sum.cpu + containers[i].cpu, sum.memory + containers[i].memory, sum.pods);
      assert containers[..i + 1][..i] == containers[..i];
    }
    assert containers[..|containers|] == containers;
    ghost var running := sum;
    for i := 0 to |initContainers|
      invariant sum.cpu == MaxOver(running.cpu, Cpus(initContainers[..i]))
      invariant sum.memory == MaxOver(running.memory, Memories(initContainers[..i]))
    {
      var r := initContainers[i];
      sum := Amounts(if r.cpu > sum.cpu then r.cpu else sum.cpu,
                     if r.memory > sum.memory then r.memory else sum.memory, sum.pods);
      assert Cpus(initContainers[..i + 1])[..i] == Cpus(initContainers[..i]);
      assert Memories(initContainers[..i + 1])[..i] == Memories(initContainers[..i]);
    }
    assert initContainers[..|initContainers|] == initContainers;
    sum := Amounts(sum.cpu + overhead.cpu, sum.memory + overhead.memory, 1);
  }
}
