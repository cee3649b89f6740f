/** The cycles of one pool within an interleaving of all pools and machines: they are a linked run of the
    planner, so what holds of those holds here (`reconcile` in `src/controller/node_scaling_pool.rs`). */
module PoolCycles {
  import opened Prelude
  import opened Clock
  import opened PoolModel
  import opened ScaleUp
  import opened ScaleDown
  import opened PoolProtocol
  import opened PoolSafety
  import PlannerRuns
  import StatusPatch

  predicate EvaluatesFor(step: Step, q: string) { step.Evaluate? && step.look.pool == q }

  function CycleOf(w: World, look: Look): PlannerRuns.Cycle
    requires Sound(look)
  {
    PlannerRuns.Cycle(SnapshotSeen(w, look), Stores(w, look))
  }

  /** The evaluations of pool `q`, each with the snapshot it read. */
  function CyclesOf(start: World, run: seq<Step>, q: string): seq<PlannerRuns.Cycle>
    requires SoundRun(run)
  {
    if run == [] then []
    else
      var rest, step := CyclesOf(start, run[..|run| - 1], q), run[|run| - 1];
      if EvaluatesFor(step, q) then rest + [CycleOf(WorldAfter(start, run[..|run| - 1]), step.look)] else rest
  }

  /** When `q` evaluated last. */
  function LastLook(run: seq<Step>, q: string): Option<int> {
    if run == [] then None
    else if EvaluatesFor(run[|run| - 1], q) then Some(run[|run| - 1].look.now)
    else LastLook(run[..|run| - 1], q)
  }

  /** The clock of the pool does not go back. */
  predicate InOrder(run: seq<Step>, q: string) {
    run == [] ||
    (InOrder(run[..|run| - 1], q) &&
     (EvaluatesFor(run[|run| - 1], q) && LastLook(run[..|run| - 1], q).Some? ==>
        LastLook(run[..|run| - 1], q).value <= run[|run| - 1].look.now))
  }

  lemma {:induction false} NewestCycle(start: World, run: seq<Step>, q: string)
    requires SoundRun(run)
    ensures LastLook(run, q).Some? <==> CyclesOf(start, run, q) != []
    ensures CyclesOf(start, run, q) != [] ==>
      PlannerRuns.Newest(CyclesOf(start, run, q)).s.now == LastLook(run, q).value
  {
    if run != [] {
      NewestCycle(start, run[..|run| - 1], q);
    }
  }

  function MemoryOf(w: World, q: string): PlannerRuns.Memory {
    PlannerRuns.Memory(StatusOf(w, q).unneededSince, StatusOf(w, q).lastScaleUp)
  }

  lemma {:induction false} StoresMemory(w: World, look: Look)
    requires Sound(look)
    ensures MemoryOf(Evaluated(w, look), look.pool) ==
      if !Stores(w, look) then MemoryOf(w, look.pool)
      else PlannerRuns.Memory(
        StatusPatch.Patched(StatusOf(w, look.pool).unneededSince, UnneededNow(SnapshotSeen(w, look))),
        if PowerOn(SnapshotSeen(w, look)) != [] then Some(look.now) else StatusOf(w, look.pool).lastScaleUp)
  {
  }

  lemma {:induction false} OneCycleMore(cycles: seq<PlannerRuns.Cycle>, c: PlannerRuns.Cycle)
    ensures PlannerRuns.Front(cycles + [c]) == cycles && PlannerRuns.Newest(cycles + [c]) == c
  {
    assert (cycles + [c])[..|cycles|] == cycles;
  }

  lemma {:induction false} LinkedMore(cycles: seq<PlannerRuns.Cycle>, c: PlannerRuns.Cycle)
    requires PlannerRuns.Linked(cycles) && DistinctNames(c.s.members) && WellNamed(c.s)
    requires PlannerRuns.Stored(cycles) == PlannerRuns.Memory(c.s.unneededSince, c.s.lastScaleUp)
    requires cycles != [] ==> PlannerRuns.Newest(cycles).s.now <= c.s.now
    ensures PlannerRuns.Linked(cycles + [c])
  {
    OneCycleMore(cycles, c);
    assert cycles != [] ==> (cycles + [c])[|cycles| - 1] == PlannerRuns.Newest(cycles);
  }

  lemma {:induction false} StoredMore(cycles: seq<PlannerRuns.Cycle>, w: World, look: Look)
    requires Sound(look) && PlannerRuns.Stored(cycles) == MemoryOf(w, look.pool)
    ensures PlannerRuns.Stored(cycles + [CycleOf(w, look)]) == MemoryOf(Evaluated(w, look), look.pool)
  {
    OneCycleMore(cycles, CycleOf(w, look));
    StoresMemory(w, look);
  }

  lemma {:induction false} OtherKeepsMemory(w: World, step: Step, q: string)
    requires SoundStep(step) && !EvaluatesFor(step, q)
    ensures MemoryOf(After(w, step), q) == MemoryOf(w, q)
  {
    NotStoredKeeps(w, step, q);
  }

  /** In every interleaving the evaluations of a pool form a linked run, and what its status holds is what
      that run has stored: no other pool and no machine interferes. */
  lemma {:induction false} CyclesAreLinked(start: World, run: seq<Step>, q: string)
    requires SoundRun(run) && start.pools == map[] && InOrder(run, q)
    ensures PlannerRuns.Linked(CyclesOf(start, run, q))
    ensures PlannerRuns.Stored(CyclesOf(start, run, q)) == MemoryOf(WorldAfter(start, run), q)
  {
    if run != [] {
      var front, step := run[..|run| - 1], run[|run| - 1];
      var w := WorldAfter(start, front);
      CyclesAreLinked(start, front, q);
      if EvaluatesFor(step, q) {
        SnapshotIsSound(w, step.look);
        NewestCycle(start, front, q);
        LinkedMore(CyclesOf(start, front, q), CycleOf(w, step.look));
        StoredMore(CyclesOf(start, front, q), w, step.look);
      } else {
        OtherKeepsMemory(w, step, q);
      }
    }
  }

  // ----- the hold, whatever happens in between ----------------------------------------------

  lemma {:induction false} CycleAt(start: World, run: seq<Step>, q: string, i: nat)
    requires SoundRun(run) && i < |run| && EvaluatesFor(run[i], q)
    ensures var k := |CyclesOf(start, run[..i], q)|;
      k < |CyclesOf(start, run, q)| && CyclesOf(start, run, q)[k] == CycleOf(WorldAfter(start, run[..i]), run[i].look)
  {
    if i < |run| - 1 {
      CycleAt(start, run[..|run| - 1], q, i);
      assert run[..|run| - 1][..i] == run[..i];
    }
  }

  /** The cycle powers a machine on and stores the pool's status. */
  ghost predicate PowersOn(c: PlannerRuns.Cycle) { c.saved && PowerOn(c.s) != [] }

  /** It powers a machine off, and the pool is not above `maxOnline`. */
  ghost predicate PowersOff(c: PlannerRuns.Cycle) { WellNamed(c.s) && PowerOff(c.s) != [] && OverMax(c.s) == 0 }

  /** The evaluation at step `i` powers a machine on and stores the pool's status. */
  ghost predicate StoresPowerOn(start: World, run: seq<Step>, i: nat, q: string)
    requires SoundRun(run) && i < |run|
  {
    EvaluatesFor(run[i], q) && Sound(run[i].look) && PowersOn(CycleOf(WorldAfter(start, run[..i]), run[i].look))
  }

  lemma {:induction false} CyclesBefore(start: World, run: seq<Step>, q: string, i: nat, look: Look)
    requires SoundRun(run) && i < |run| && EvaluatesFor(run[i], q) && Sound(look) && look.pool == q
    ensures var k := |CyclesOf(start, run[..i], q)|; var all := run + [Evaluate(look)];
      && SoundRun(all) && k < |CyclesOf(start, run, q)|
      && CyclesOf(start, all, q) == CyclesOf(start, run, q) + [CycleOf(WorldAfter(start, run), look)]
      && CyclesOf(start, run, q)[k] == CycleOf(WorldAfter(start, run[..i]), run[i].look)
  {
    CycleAt(start, run, q, i);
    OneStepMore(start, run, Evaluate(look));
    assert (run + [Evaluate(look)])[..|run|] == run;
  }

  /** In every interleaving: after an evaluation that powered a machine on and stored its status, the pool
      powers nothing off before its hold is over, unless it is above `maxOnline`. */
  lemma {:induction false} HoldsInEveryRun(start: World, run: seq<Step>, i: nat, look: Look)
    requires SoundRun(run) && start.pools == map[] && i < |run| && Sound(look)
    requires StoresPowerOn(start, run, i, look.pool) && InOrder(run + [Evaluate(look)], look.pool)
    requires PowersOff(CycleOf(WorldAfter(start, run), look))
    ensures look.now >= run[i].look.now + Seconds(look.spec.Hold())
  {
    CyclesBefore(start, run, look.pool, i, look);
    CyclesAreLinked(start, run + [Evaluate(look)], look.pool);
    var cycles := CyclesOf(start, run, look.pool);
    HoldsInCycles(cycles, |CyclesOf(start, run[..i], look.pool)|, CycleOf(WorldAfter(start, run), look));
  }

  lemma {:induction false} HoldsInCycles(cycles: seq<PlannerRuns.Cycle>, k: nat, c: PlannerRuns.Cycle)
    requires k < |cycles| && PlannerRuns.Linked(cycles + [c])
    requires PowersOn(cycles[k]) && PowersOff(c)
    ensures c.s.now >= cycles[k].s.now + Seconds(c.s.spec.Hold())
  {
    assert (cycles + [c])[k] == cycles[k] && (cycles + [c])[|cycles|] == c;
    PlannerRuns.PowerOffWaitsForTheHold(cycles + [c], k, |cycles|);
  }
}
