/** What holds over every interleaving of pool evaluations and machine reconciles. */
module PoolSafety {
  import opened Prelude
  import opened Clock
  import opened PoolModel
  import opened PoolMembers
  import opened PoolProtocol
  import opened ScaleDown
  import opened Planner
  import M = MachineStatus
  import MachineRuns
  import MemberSafety
  import SchedulingSafety
  import ScaleDownSafety
  import opened Scheduling

  // ----- one evaluation, seen from a machine ------------------------------------------------

  lemma {:induction false} WrittenLast(st: M.Status, name: string, writes: seq<Write>, pool: string, now: int)
    ensures var after := Written(st, name, writes, pool, now);
      after == st
      || exists t :: Write(name, t) in writes && after == st.(decision := Some(M.Decision(pool, t, now)))
  {
    if writes != [] {
      var front, last := writes[..|writes| - 1], writes[|writes| - 1];
      WrittenLast(st, name, front, pool, now);
      var before := Written(st, name, front, pool, now);
      if last.name == name {
        assert Write(name, last.target) in writes;
      } else if before != st {
        var t :| Write(name, t) in front && before == st.(decision := Some(M.Decision(pool, t, now)));
        assert Write(name, t) in writes;
      }
    }
  }

  lemma {:induction false} DecidedIsPlanned(w: World, look: Look, name: string, target: M.PowerTarget)
    requires Sound(look) && Write(name, target) in PoolProtocol.Decided(w, look)
    ensures if target == M.TurnOn then name in PlanSeen(w, look).powerOn else name in PlanSeen(w, look).powerOff
  {
  }

  /** How a pool may change a machine: not at all; to On, if the machine is down, no On is in force
      and nothing holds it back; to Off, if it is on and Ready and no Off is in force. */
  predicate Respects(
    st: M.Status, after: M.Status, facts: Facts, memberOf: seq<string>, spec: Spec, pool: string, now: int)
  {
    || after == st
    || (after == st.(decision := Some(M.Decision(pool, M.TurnOn, now))) && FreeToStart(st, facts, memberOf, spec, now))
    || (after == st.(decision := Some(M.Decision(pool, M.TurnOff, now))) && FreeToStop(st, facts, memberOf))
  }

  lemma {:induction false} WriteRespects(w: World, look: Look, name: string, t: M.PowerTarget)
    requires Sound(look) && name in w.machines && Write(name, t) in PoolProtocol.Decided(w, look)
    ensures name in look.facts
    ensures Respects(w.machines[name], w.machines[name].(decision := Some(M.Decision(look.pool, t, look.now))),
                     look.facts[name], PoolsSelecting(look, name), look.spec, look.pool, look.now)
    ensures t == M.TurnOff ==> AllAgree(w, look, name)
  {
    DecidedIsPlanned(w, look, name, t);
    if t == M.TurnOn {
      OnlyFreeMachinesAreStarted(w, look, name);
    } else {
      OnlyFreeMachinesAreStopped(w, look, name);
    }
  }

  /** Every evaluation, of any pool in any world, respects every machine, and turns one off only if
      all other pools selecting it list it as releasable. */
  lemma {:induction false} EvaluationRespectsMachines(w: World, look: Look, name: string)
    requires Sound(look) && name in w.machines
    ensures name in Evaluated(w, look).machines
    ensures var st, after := w.machines[name], Evaluated(w, look).machines[name];
      after == st || (name in look.facts
        && Respects(st, after, look.facts[name], PoolsSelecting(look, name), look.spec, look.pool, look.now)
        && (Turned(after, M.TurnOff) ==> AllAgree(w, look, name)))
  {
    var writes := Reached(w, look);
    WrittenLast(w.machines[name], name, writes, look.pool, look.now);
    var after := Written(w.machines[name], name, writes, look.pool, look.now);
    if after != w.machines[name] {
      var t :| Write(name, t) in writes
        && after == w.machines[name].(decision := Some(M.Decision(look.pool, t, look.now)));
      assert Write(name, t) in PoolProtocol.Decided(w, look);
      WriteRespects(w, look, name, t);
    }
  }

  predicate Turned(after: M.Status, target: M.PowerTarget) {
    after.decision.Some? && after.decision.value.target == target
  }

  lemma {:induction false} RespectIsNoFight(
    st: M.Status, after: M.Status, facts: Facts, memberOf: seq<string>, spec: Spec, pool: string, now: int)
    requires Respects(st, after, facts, memberOf, spec, pool, now) && after != st
    ensures InForce(st, memberOf) == Some(M.TurnOn) ==> Turned(after, M.TurnOff) && OnAndReady(st)
    ensures InForce(st, memberOf) == Some(M.TurnOff) ==> Turned(after, M.TurnOn) && IsDown(st)
  {
  }

  /** Pools never fight: whichever pool evaluates, a decision in force is reversed only once it has
      been carried out, and never stamped again. */
  lemma {:induction false} PoolsNeverFight(w: World, look: Look, name: string)
    requires Sound(look) && name in w.machines && name in look.facts
    ensures var st, after := w.machines[name], Evaluated(w, look).machines[name];
      && (InForce(st, PoolsSelecting(look, name)) == Some(M.TurnOn) ==>
            after == st || (Turned(after, M.TurnOff) && OnAndReady(st)))
      && (InForce(st, PoolsSelecting(look, name)) == Some(M.TurnOff) ==>
            after == st || (Turned(after, M.TurnOn) && IsDown(st)))
  {
    EvaluationRespectsMachines(w, look, name);
    var st, after := w.machines[name], Evaluated(w, look).machines[name];
    if after != st {
      RespectIsNoFight(st, after, look.facts[name], PoolsSelecting(look, name), look.spec, look.pool, look.now);
    }
  }

  /** While a boot failure that was not left on is recorded, a pool does not turn the machine on
      before its own backoff has passed; nor before the cooldown after a manual power-off. */
  lemma {:induction false} FailedMachinesAreLeftAlone(w: World, look: Look, name: string)
    requires Sound(look) && name in w.machines && name in look.facts
    requires BackingOff(w.machines[name], look.spec, look.now)
      || CoolingDown(w.machines[name], look.facts[name].cooldown, look.now)
    ensures var st, after := w.machines[name], Evaluated(w, look).machines[name];
      after == st || (Turned(after, M.TurnOff) && OnAndReady(st))
  {
    EvaluationRespectsMachines(w, look, name);
  }

  /** A machine left on by hand under `LeaveOn` is not turned off by any pool. */
  lemma {:induction false} LeftOnIsLeftAlone(w: World, look: Look, name: string)
    requires Sound(look) && name in w.machines && name in look.facts
    requires w.machines[name].manualOn.Some? && look.facts[name].manualPolicy == M.LeaveOn
    ensures var st, after := w.machines[name], Evaluated(w, look).machines[name];
      after == st || (Turned(after, M.TurnOn) && IsDown(st))
  {
    EvaluationRespectsMachines(w, look, name);
  }

  // ----- runs -------------------------------------------------------------------------------

  datatype Step = Evaluate(look: Look) | Machine(name: string, event: MachineRuns.Event)

  ghost predicate SoundStep(step: Step) {
    if step.Evaluate? then Sound(step.look) else !step.event.Decide?
  }

  ghost predicate SoundRun(run: seq<Step>) { forall k :: 0 <= k < |run| ==> SoundStep(run[k]) }

  function After(w: World, step: Step): World
    requires SoundStep(step)
  {
    match step
    case Evaluate(look) => Evaluated(w, look)
    case Machine(name, event) =>
      if name in w.machines then w.(machines := w.machines[name := MachineRuns.Next(w.machines[name], event).st]) else w
  }

  function WorldAfter(start: World, run: seq<Step>): World
    requires SoundRun(run)
  {
    if run == [] then start else After(WorldAfter(start, run[..|run| - 1]), run[|run| - 1])
  }

  lemma {:induction false} OneStepMore(start: World, run: seq<Step>, step: Step)
    requires SoundRun(run) && SoundStep(step)
    ensures SoundRun(run + [step]) && WorldAfter(start, run + [step]) == After(WorldAfter(start, run), step)
  {
    assert (run + [step])[..|run|] == run;
  }

  datatype Evaluation = Evaluation(w: World, look: Look)

  /** The last evaluation of pool `q` whose status was stored, and the world it read. */
  ghost function LastEvaluation(start: World, run: seq<Step>, q: string): Option<Evaluation>
    requires SoundRun(run)
  {
    if run == [] then None
    else
      var w, step := WorldAfter(start, run[..|run| - 1]), run[|run| - 1];
      if step.Evaluate? && step.look.pool == q && Stores(w, step.look) then Some(Evaluation(w, step.look))
      else LastEvaluation(start, run[..|run| - 1], q)
  }

  lemma {:induction false} NotStoredKeeps(w: World, step: Step, q: string)
    requires SoundStep(step)
    requires !(step.Evaluate? && step.look.pool == q && Stores(w, step.look))
    ensures StatusOf(After(w, step), q) == StatusOf(w, q)
  {
  }

  lemma {:induction false} StoredPublishes(w: World, look: Look)
    requires Sound(look) && Stores(w, look)
    ensures StatusOf(Evaluated(w, look), look.pool).releasable == ReleasableNow(SnapshotSeen(w, look))
  {
  }

  /** What a pool publishes is what it concluded in its last stored evaluation. */
  lemma {:induction false} PublishedIsConcluded(start: World, run: seq<Step>, q: string)
    requires SoundRun(run) && start.pools == map[]
    ensures match LastEvaluation(start, run, q)
      case None => StatusOf(WorldAfter(start, run), q).releasable == []
      case Some(e) =>
        && Sound(e.look) && e.look.pool == q
        && StatusOf(WorldAfter(start, run), q).releasable == ReleasableNow(SnapshotSeen(e.w, e.look))
  {
    if run != [] {
      var front, step := run[..|run| - 1], run[|run| - 1];
      var w := WorldAfter(start, front);
      if step.Evaluate? && step.look.pool == q && Stores(w, step.look) {
        StoredPublishes(w, step.look);
      } else {
        NotStoredKeeps(w, step, q);
        PublishedIsConcluded(start, front, q);
      }
    }
  }

  lemma {:induction false} ListedIsWouldLetGo(w: World, look: Look, name: string)
    requires Sound(look) && name in ReleasableNow(SnapshotSeen(w, look))
    ensures Agrees(w, look, name)
  {
    var s := SnapshotSeen(w, look);
    SnapshotIsSound(w, look);
    ReleasableExact(s, name);
    var m :| m in s.members && m.name == name && WouldLetGo(s, m);
    MembersSeenExact(w, look, look.order, m);
    CandidateExact(name, w.machines[name], look.facts[name], PoolsSelecting(look, name), look.spec, look.rules, look.now);
  }

  /** In this evaluation the pool found the machine Auto, on and Ready, free of blocking pods and
      past its unneeded period or manual grace, with nothing holding the pool's scale-down and more
      machines online than its `minOnline`. */
  ghost predicate Agrees(w: World, look: Look, name: string) {
    && IsMember(w, look, name)
    && WouldLetGo(SnapshotSeen(w, look), MemberSeen(w, look, name))
    && FreeToStop(w.machines[name], look.facts[name], PoolsSelecting(look, name))
  }

  /** Overlapping pools agree on every Off: in every interleaving, when a pool decides Off for a
      machine, every other pool selecting it agreed in its last stored evaluation. */
  lemma {:induction false} EveryOffIsAgreed(start: World, run: seq<Step>, look: Look, name: string, q: string)
    requires SoundRun(run) && start.pools == map[] && Sound(look)
    requires name in PlanSeen(WorldAfter(start, run), look).powerOff
    requires q in PoolsSelecting(look, name) && q != look.pool
    ensures LastEvaluation(start, run, q).Some?
    ensures var theirs := LastEvaluation(start, run, q).value; Agrees(theirs.w, theirs.look, name)
  {
    OnlyFreeMachinesAreStopped(WorldAfter(start, run), look, name);
    PublishedIsConcluded(start, run, q);
    var theirs := LastEvaluation(start, run, q).value;
    ListedIsWouldLetGo(theirs.w, theirs.look, name);
  }

  // ----- a decision stands until it is carried out ------------------------------------------

  /** The step finds the decision's pool still selecting the machine, the machine not on and Ready,
      and its own controller keeping the decision. */
  ghost predicate LeavesWaiting(w: World, step: Step, name: string, d: M.Decision) {
    && name in w.machines
    && !OnAndReady(w.machines[name])
    && (step.Evaluate? ==> name in step.look.facts && d.pool in PoolsSelecting(step.look, name))
    && (step.Machine? && step.name == name ==>
          MachineRuns.Next(w.machines[name], step.event).st.decision == w.machines[name].decision)
  }

  /** All steps from number `i` on leave the machine waiting. */
  ghost predicate Waiting(start: World, run: seq<Step>, i: int, name: string, d: M.Decision)
    requires SoundRun(run) && 0 <= i <= |run|
  {
    i == |run|
    || (Waiting(start, run[..|run| - 1], i, name, d)
        && LeavesWaiting(WorldAfter(start, run[..|run| - 1]), run[|run| - 1], name, d))
  }

  predicate Stands(w: World, name: string, d: M.Decision) {
    name in w.machines && w.machines[name].decision == Some(d)
  }

  lemma {:induction false} StepKeepsOn(w: World, step: Step, name: string, d: M.Decision)
    requires SoundStep(step) && d.target == M.TurnOn
    requires Stands(w, name, d) && LeavesWaiting(w, step, name, d)
    ensures Stands(After(w, step), name, d)
  {
    if step.Evaluate? {
      EvaluationRespectsMachines(w, step.look, name);
    }
  }

  lemma {:induction false} LastStepKeepsOn(start: World, run: seq<Step>, i: int, name: string, d: M.Decision)
    requires SoundRun(run) && 0 <= i < |run| && Waiting(start, run, i, name, d) && d.target == M.TurnOn
    requires Stands(WorldAfter(start, run[..|run| - 1]), name, d)
    ensures Stands(WorldAfter(start, run), name, d)
  {
    StepKeepsOn(WorldAfter(start, run[..|run| - 1]), run[|run| - 1], name, d);
  }

  lemma FrontPrefix<T>(run: seq<T>, i: int)
    requires 0 <= i < |run|
    ensures run[..|run| - 1][..i] == run[..i]
  {
  }

  lemma {:induction false} WaitingEarlier(start: World, run: seq<Step>, i: int, name: string, d: M.Decision)
    requires SoundRun(run) && 0 <= i < |run| && Waiting(start, run, i, name, d)
    ensures SoundRun(run[..|run| - 1]) && Waiting(start, run[..|run| - 1], i, name, d)
  {
  }

  /** No pool stamps an On decision again while it waits to be carried out, so the time its timeout
      runs from never moves: in every interleaving it is the same decision until the machine is on
      and Ready or its own controller drops it. */
  lemma {:induction false} OnStandsUntilReady(start: World, run: seq<Step>, i: int, name: string, d: M.Decision)
    requires SoundRun(run) && 0 <= i <= |run| && Waiting(start, run, i, name, d) && d.target == M.TurnOn
    requires Stands(WorldAfter(start, run[..i]), name, d)
    ensures Stands(WorldAfter(start, run), name, d)
  {
    if i == |run| {
      assert run[..i] == run;
    } else {
      WaitingEarlier(start, run, i, name, d);
      FrontPrefix(run, i);
      OnStandsUntilReady(start, run[..|run| - 1], i, name, d);
      LastStepKeepsOn(start, run, i, name, d);
    }
  }

  // ----- a machine turned on is counted -----------------------------------------------------

  lemma {:induction false} WrittenSome(st: M.Status, name: string, writes: seq<Write>, pool: string, now: int)
    requires exists w <- writes :: w.name == name
    ensures exists t ::
      && Write(name, t) in writes
      && Written(st, name, writes, pool, now) == st.(decision := Some(M.Decision(pool, t, now)))
  {
    var front, last := writes[..|writes| - 1], writes[|writes| - 1];
    if last.name == name {
      WrittenLast(st, name, front, pool, now);
      assert Write(name, last.target) in writes;
    } else {
      assert forall w <- writes :: w in front || w == last;
      WrittenSome(st, name, front, pool, now);
      var t :| Write(name, t) in front
        && Written(st, name, front, pool, now) == st.(decision := Some(M.Decision(pool, t, now)));
      assert Write(name, t) in writes;
    }
  }

  /** The write that turns a machine on stands: the same evaluation never turns it off again. */
  lemma {:induction false} TurnedOnStands(w: World, look: Look, name: string)
    requires Sound(look) && name in w.machines && Write(name, M.TurnOn) in Reached(w, look)
    ensures Stands(Evaluated(w, look), name, M.Decision(look.pool, M.TurnOn, look.now))
  {
    var writes := Reached(w, look);
    assert Write(name, M.TurnOn).name == name;
    WrittenSome(w.machines[name], name, writes, look.pool, look.now);
    var t :| Write(name, t) in writes
      && Written(w.machines[name], name, writes, look.pool, look.now)
         == w.machines[name].(decision := Some(M.Decision(look.pool, t, look.now)));
    NeverBoth(w, look, name, t);
  }

  lemma {:induction false} NeverBoth(w: World, look: Look, name: string, t: M.PowerTarget)
    requires Sound(look) && name in w.machines
    requires Write(name, M.TurnOn) in Reached(w, look) && Write(name, t) in Reached(w, look)
    ensures t == M.TurnOn
  {
    assert Write(name, M.TurnOn) in PoolProtocol.Decided(w, look) && Write(name, t) in PoolProtocol.Decided(w, look);
    DecidedIsPlanned(w, look, name, M.TurnOn);
    DecidedIsPlanned(w, look, name, t);
    OnlyFreeMachinesAreStarted(w, look, name);
    if t == M.TurnOff {
      OnlyFreeMachinesAreStopped(w, look, name);
    }
  }

  /** The machine is still powering up for the pools that look at it: the pool that turned it on selects
      it, it is Auto and consistent, has not been given up, and nobody keeps it on by hand. */
  ghost predicate PowersUp(w: World, look: Look, name: string, d: M.Decision) {
    && name in w.machines && name in look.order && IsMember(w, look, name) && d.pool in PoolsSelecting(look, name)
    && MemberSafety.Managed(look.facts[name].policy, w.machines[name]) && !MemberSafety.GivenUp(w.machines[name])
    && (w.machines[name].manualOn.Some? ==> look.facts[name].manualPolicy != M.LeaveOn)
  }

  lemma {:induction false} StandingCounts(w: World, look: Look, name: string, d: M.Decision)
    requires Sound(look) && Stands(w, name, d) && d.target == M.TurnOn && PowersUp(w, look, name, d)
    ensures MemberSeen(w, look, name) in Filter(Counts, SnapshotSeen(w, look).members)
    ensures name !in PlanSeen(w, look).powerOn
  {
    var st, f, pools := w.machines[name], look.facts[name], PoolsSelecting(look, name);
    assert MemberSafety.DecidedFor(st, pools, M.TurnOn);
    MemberSafety.PoweringUpCounts(name, st, f, pools, look.spec, look.rules, look.now);
    MembersSeenExact(w, look, look.order, MemberSeen(w, look, name));
    FilterExact(Counts, SnapshotSeen(w, look).members);
    if name in PlanSeen(w, look).powerOn {
      OnlyFreeMachinesAreStarted(w, look, name);
    }
  }

  lemma TurnedOnStepStands(w: World, step: Step, name: string)
    requires SoundStep(step) && step.Evaluate? && name in w.machines && Write(name, M.TurnOn) in Reached(w, step.look)
    ensures Stands(After(w, step), name, M.Decision(step.look.pool, M.TurnOn, step.look.now))
  {
    TurnedOnStands(w, step.look, name);
  }

  lemma {:induction false} StepInRun(start: World, run: seq<Step>, i: nat)
    requires SoundRun(run) && i < |run|
    ensures SoundStep(run[i]) && WorldAfter(start, run[..i + 1]) == After(WorldAfter(start, run[..i]), run[i])
  {
    assert run[..i + 1][..i] == run[..i] && run[..i + 1][i] == run[i];
  }

  /** The evaluation at step `i` turns the machine on. */
  ghost predicate TurnsOnAt(start: World, run: seq<Step>, i: nat, name: string)
    requires SoundRun(run) && i < |run|
  {
    && run[i].Evaluate? && Sound(run[i].look) && name in WorldAfter(start, run[..i]).machines
    && Write(name, M.TurnOn) in Reached(WorldAfter(start, run[..i]), run[i].look)
  }

  lemma {:induction false} TurnedOnStandsInRun(start: World, run: seq<Step>, i: nat, name: string)
    requires SoundRun(run) && i < |run| && TurnsOnAt(start, run, i, name)
    ensures Stands(WorldAfter(start, run[..i + 1]), name, M.Decision(run[i].look.pool, M.TurnOn, run[i].look.now))
  {
    StepInRun(start, run, i);
    TurnedOnStepStands(WorldAfter(start, run[..i]), run[i], name);
  }

  /** A machine that an evaluation turned on counts as online in every later evaluation of every pool that
      selects it, in any interleaving, and is not turned on again, for as long as it powers up. */
  lemma {:induction false} TurnedOnCounts(start: World, run: seq<Step>, i: nat, name: string, look: Look)
    requires SoundRun(run) && i < |run| && Sound(look) && TurnsOnAt(start, run, i, name)
    requires var d := M.Decision(run[i].look.pool, M.TurnOn, run[i].look.now);
      Waiting(start, run, i + 1, name, d) && PowersUp(WorldAfter(start, run), look, name, d)
    ensures var w := WorldAfter(start, run); MemberSeen(w, look, name) in Filter(Counts, SnapshotSeen(w, look).members)
    ensures name !in PlanSeen(WorldAfter(start, run), look).powerOn
  {
    var d := M.Decision(run[i].look.pool, M.TurnOn, run[i].look.now);
    TurnedOnStandsInRun(start, run, i, name);
    OnStandsUntilReady(start, run, i + 1, name, d);
    StandingCounts(WorldAfter(start, run), look, name, d);
  }

  // ----- a pod that must not be evicted -----------------------------------------------------

  /** No pool ever powers off, or offers to, a machine with an active pod that is not safe to evict. */
  lemma {:induction false} GuardedIsKept(w: World, look: Look, name: string, p: Pod)
    requires Sound(look) && name in look.facts && p in look.facts[name].pods && MemberSafety.Runs(p)
    requires SchedulingSafety.Annotated(p, "false") && !SchedulingSafety.IsHelper(p)
    ensures name !in PlanSeen(w, look).powerOff && name !in PlanSeen(w, look).releasable
  {
    var s := SnapshotSeen(w, look);
    SnapshotIsSound(w, look);
    if name in PlanSeen(w, look).powerOff {
      var r := RemovedIsNamed(PowerOff(s), name);
      ScaleDownSafety.PowerOffBounds(s);
      GuardedBlocks(w, look, r.member, p);
    }
    if name in PlanSeen(w, look).releasable {
      ReleasableExact(s, name);
      var m :| m in s.members && m.name == name && WouldLetGo(s, m);
      GuardedBlocks(w, look, m, p);
    }
  }

  lemma GuardedBlocks(w: World, look: Look, m: PoolModel.Member, p: Pod)
    requires Sound(look) && m in SnapshotSeen(w, look).members && m.name in look.facts && p in look.facts[m.name].pods
    requires MemberSafety.Runs(p) && SchedulingSafety.Annotated(p, "false") && !SchedulingSafety.IsHelper(p)
    ensures m.blocking != []
  {
    MembersSeenExact(w, look, look.order, m);
    MemberSafety.GuardedIsBlocked(m.name, w.machines[m.name], look.facts[m.name], PoolsSelecting(look, m.name),
                                  look.spec, look.rules, look.now, p);
  }
}
