/** Cycles of one pool, each fed the status the cycles before it stored
    (`reconcile` in `src/controller/node_scaling_pool.rs`). */
module PlannerRuns {
  import opened Prelude
  import opened Clock
  import opened PoolModel
  import opened ScaleUp
  import opened ScaleDown
  import opened Planner
  import opened StatusPatch
  import ScaleDownSafety

  /** One evaluation; `saved` is false when a call failed and the new status was never stored. */
  datatype Cycle = Cycle(s: Snapshot, saved: bool)

  /** What the planner reads back from the pool's status. */
  datatype Memory = Memory(unneededSince: map<string, int>, lastScaleUp: Option<int>)

  function Front(run: seq<Cycle>): seq<Cycle>
    requires run != []
  {
    run[..|run| - 1]
  }

  function Newest(run: seq<Cycle>): Cycle
    requires run != []
  {
    run[|run| - 1]
  }

  function Stored(run: seq<Cycle>): Memory {
    if run == [] then Memory(map[], None)
    else
      var before, c := Stored(Front(run)), Newest(run);
      if !c.saved then before
      else Memory(Patched(before.unneededSince, UnneededNow(c.s)),
                  if PowerOn(c.s) != [] then Some(c.s.now) else before.lastScaleUp)
  }

  /** Each cycle reads the stored status, and the clock does not go back. */
  ghost predicate Linked(run: seq<Cycle>) {
    run == [] ||
    (var s := Newest(run).s;
     && Linked(Front(run))
     && s.unneededSince == Stored(Front(run)).unneededSince
     && s.lastScaleUp == Stored(Front(run)).lastScaleUp
     && DistinctNames(s.members) && WellNamed(s)
     && (|run| > 1 ==> run[|run| - 2].s.now <= s.now))
  }

  /** The cycle judges the machine of that name unneeded. */
  ghost predicate FindsUnneeded(s: Snapshot, name: string) {
    exists m <- s.members :: m.name == name && Candidate(m) && JudgedUnneeded(s, m)
  }

  lemma {:induction false} UnneededNowExact(s: Snapshot, name: string)
    ensures name in UnneededNow(s) <==> FindsUnneeded(s, name)
    ensures name in UnneededNow(s) ==> UnneededNow(s)[name] == Since(s, name)
  {
    CandidatesExact(s);
    ScaleDownSafety.UnneededExact(s, Candidates(s), name);
  }

  // ----- what the stored times say ----------------------------------------------------------

  /** Every stored cycle's patch dropped no name. */
  ghost predicate Intact(run: seq<Cycle>) {
    run == [] ||
    (Intact(Front(run))
     && (Newest(run).saved ==> Lossless(Stored(Front(run)).unneededSince, UnneededNow(Newest(run).s))))
  }

  /** After every stored cycle, a machine has a time exactly when that cycle judged it unneeded. */
  ghost predicate Truthful(run: seq<Cycle>) {
    run == [] ||
    (Truthful(Front(run))
     && (Newest(run).saved ==>
           forall name :: name in Stored(run).unneededSince <==> FindsUnneeded(Newest(run).s, name)))
  }

  /** The stored times tell the truth if and only if no patch had a name to drop. */
  lemma {:induction false} TruthfulExact(run: seq<Cycle>)
    ensures Truthful(run) <==> Intact(run)
  {
    if run != [] {
      TruthfulExact(Front(run));
      var before, after := Stored(Front(run)).unneededSince, UnneededNow(Newest(run).s);
      PatchedExact(before, after);
      forall name ensures name in after <==> FindsUnneeded(Newest(run).s, name) {
        UnneededNowExact(Newest(run).s, name);
      }
    }
  }

  /** Every stored cycle from `i` on found some machine of the pool unneeded. */
  ghost predicate NeverCleared(run: seq<Cycle>, i: int)
    requires 0 <= i
  {
    forall k :: i <= k < |run| && run[k].saved ==> UnneededNow(run[k].s) != map[]
  }

  /** Cycle `i` was stored and judged the machine unneeded, and nothing has cleared its time since. */
  ghost predicate NotedAt(run: seq<Cycle>, name: string, i: int) {
    0 <= i < |run| && run[i].saved && FindsUnneeded(run[i].s, name) && NeverCleared(run, i)
  }

  lemma {:induction false} NotedGrows(run: seq<Cycle>, name: string, i: int)
    requires run != [] && i < |run| - 1
    ensures NotedAt(run, name, i) <==>
      NotedAt(Front(run), name, i) && (Newest(run).saved ==> UnneededNow(Newest(run).s) != map[])
  {
    if 0 <= i {
      assert forall k :: 0 <= k < |run| - 1 ==> Front(run)[k] == run[k];
      if NotedAt(run, name, i) {
        forall k | i <= k < |run| - 1 && Front(run)[k].saved ensures UnneededNow(Front(run)[k].s) != map[] {
          assert run[k].saved;
        }
      }
    }
  }

  /** The first such cycle. */
  ghost predicate FirstNoted(run: seq<Cycle>, name: string, i: int) {
    NotedAt(run, name, i) && forall j :: j < i ==> !NotedAt(run, name, j)
  }

  lemma {:induction false} FirstNotedStays(run: seq<Cycle>, name: string, i: int)
    requires run != [] && FirstNoted(Front(run), name, i)
    requires Newest(run).saved ==> UnneededNow(Newest(run).s) != map[]
    ensures FirstNoted(run, name, i)
  {
    NotedGrows(run, name, i);
    forall j | j < i ensures !NotedAt(run, name, j) {
      NotedGrows(run, name, j);
    }
  }

  lemma {:induction false} FirstNotedNow(run: seq<Cycle>, name: string)
    requires run != [] && NotedAt(run, name, |run| - 1)
    requires name !in Stored(Front(run)).unneededSince
    ensures FirstNoted(run, name, |run| - 1)
  {
    forall j | j < |run| - 1 ensures !NotedAt(run, name, j) {
      NotedGrows(run, name, j);
      if NotedAt(Front(run), name, j) {
        NotedIsStored(Front(run), name, j);
      }
    }
  }

  /** What a stored time really is, in every run: the first cycle that judged the machine unneeded
      since a cycle in which no machine of the pool was, whatever was judged in between. */
  lemma {:induction false} StoredTimeIsFirstNoted(run: seq<Cycle>, name: string) returns (i: int)
    requires Linked(run) && name in Stored(run).unneededSince
    ensures FirstNoted(run, name, i) && Stored(run).unneededSince[name] == run[i].s.now
  {
    var front, c := Front(run), Newest(run);
    UnneededNowExact(c.s, name);
    if name in Stored(front).unneededSince {
      i := StoredTimeIsFirstNoted(front, name);
      FirstNotedStays(run, name, i);
    } else {
      i := |run| - 1;
      FirstNotedNow(run, name);
    }
  }

  lemma {:induction false} NotedIsStored(run: seq<Cycle>, name: string, i: int)
    requires NotedAt(run, name, i)
    ensures name in Stored(run).unneededSince
  {
    UnneededNowExact(Newest(run).s, name);
    if i < |run| - 1 {
      NotedGrows(run, name, i);
      NotedIsStored(Front(run), name, i);
    }
  }

  /** So a machine that was busy in between can count as expired the moment it is idle again: all it
      takes is that another machine of the pool was unneeded while it was busy. */
  lemma {:induction false} InterruptedMachineExpires(before: Snapshot, later: Snapshot, m: Member)
    requires m.name in before.unneededSince && !FindsUnneeded(before, m.name) && UnneededNow(before) != map[]
    requires later.unneededSince == Patched(before.unneededSince, UnneededNow(before))
    requires DistinctNames(later.members) && m in later.members && Candidate(m) && JudgedUnneeded(later, m)
    requires later.now - before.unneededSince[m.name] >= Seconds(later.spec.unneeded)
    ensures Expired(later, m)
  {
    UnneededNowExact(before, m.name);
    ScaleDownSafety.ExpiredExact(later, m);
  }

  // ----- continuously unneeded --------------------------------------------------------------

  predicate NoneSaved(run: seq<Cycle>, lo: int, hi: int)
    requires 0 <= lo && hi <= |run|
  {
    forall k :: lo <= k < hi ==> !run[k].saved
  }

  /** Cycle `i` starts the unbroken streak of stored cycles, up to the newest, in which the machine
      was judged unneeded: the stored cycle before it, if any, judged otherwise. */
  ghost predicate StreakFrom(run: seq<Cycle>, name: string, i: int) {
    && 0 <= i < |run| && run[i].saved
    && (forall k :: i <= k < |run| && run[k].saved ==> FindsUnneeded(run[k].s, name))
    && (NoneSaved(run, 0, i) || exists j :: 0 <= j < i && EndsBefore(run, name, i, j))
  }

  ghost predicate EndsBefore(run: seq<Cycle>, name: string, i: int, j: int)
    requires 0 <= j < i <= |run|
  {
    run[j].saved && !FindsUnneeded(run[j].s, name) && NoneSaved(run, j + 1, i)
  }

  /** The newest stored cycle, if any. */
  lemma {:induction false} LastSaved(run: seq<Cycle>) returns (j: int)
    ensures -1 <= j < |run| && NoneSaved(run, j + 1, |run|)
    ensures j >= 0 ==> run[j].saved
  {
    j := |run| - 1;
    while j >= 0 && !run[j].saved
      invariant -1 <= j < |run| && NoneSaved(run, j + 1, |run|)
    {
      j := j - 1;
    }
  }

  /** Every cycle of a run read what the cycles before it had stored. */
  lemma {:induction false} ReadsWhatIsStored(run: seq<Cycle>, j: int)
    requires Linked(run) && 0 <= j < |run|
    ensures Linked(run[..j]) && run[j].s.lastScaleUp == Stored(run[..j]).lastScaleUp
  {
    if j < |run| - 1 {
      ReadsWhatIsStored(Front(run), j);
      assert Front(run)[..j] == run[..j] && Front(run)[j] == run[j];
    }
  }

  /** As long as no patch had a name to drop, the stored time at which a machine became unneeded is
      that of the cycle that starts the longest unbroken streak of stored cycles up to now that judged
      it unneeded. */
  lemma {:induction false} UnneededSinceIsTheStreak(run: seq<Cycle>, name: string) returns (i: int)
    requires Linked(run) && Intact(run) && name in Stored(run).unneededSince
    ensures StreakFrom(run, name, i) && Stored(run).unneededSince[name] == run[i].s.now
  {
    var front, c := Front(run), Newest(run);
    PatchedExact(Stored(front).unneededSince, UnneededNow(c.s));
    if !c.saved {
      i := UnneededSinceIsTheStreak(front, name);
      StreakGrows(run, name, i);
    } else {
      UnneededNowExact(c.s, name);
      if name in Stored(front).unneededSince {
        i := UnneededSinceIsTheStreak(front, name);
        StreakGrows(run, name, i);
      } else {
        i := |run| - 1;
        StreakBegins(run, name);
      }
    }
  }

  lemma {:induction false} StreakGrows(run: seq<Cycle>, name: string, i: int)
    requires run != [] && StreakFrom(Front(run), name, i)
    requires Newest(run).saved ==> FindsUnneeded(Newest(run).s, name)
    ensures StreakFrom(run, name, i)
  {
    var front := Front(run);
    assert forall k :: 0 <= k < |front| ==> front[k] == run[k];
    if !NoneSaved(front, 0, i) {
      var j :| 0 <= j < i && EndsBefore(front, name, i, j);
      assert EndsBefore(run, name, i, j);
    }
  }

  lemma {:induction false} UnneededSinceIsStored(run: seq<Cycle>, name: string, j: int)
    requires Intact(run) && 0 <= j < |run| && run[j].saved && NoneSaved(run, j + 1, |run|)
    ensures name in Stored(run).unneededSince <==> FindsUnneeded(run[j].s, name)
  {
    if j + 1 < |run| {
      assert forall k :: 0 <= k < |run| - 1 ==> Front(run)[k] == run[k];
      UnneededSinceIsStored(Front(run), name, j);
    } else {
      PatchedExact(Stored(Front(run)).unneededSince, UnneededNow(run[j].s));
      UnneededNowExact(run[j].s, name);
    }
  }

  lemma {:induction false} StreakBegins(run: seq<Cycle>, name: string)
    requires run != [] && Intact(Front(run)) && Newest(run).saved && FindsUnneeded(Newest(run).s, name)
    requires name !in Stored(Front(run)).unneededSince
    ensures StreakFrom(run, name, |run| - 1)
  {
    var front := Front(run);
    assert forall k :: 0 <= k < |front| ==> front[k] == run[k];
    var j := LastSaved(front);
    if j >= 0 {
      UnneededSinceIsStored(front, name, j);
      assert EndsBefore(run, name, |run| - 1, j);
    }
  }

  // ----- the hold after a power-on ----------------------------------------------------------

  lemma {:induction false} ClockNeverGoesBack(run: seq<Cycle>, i: int, j: int)
    requires Linked(run) && 0 <= i <= j < |run|
    ensures run[i].s.now <= run[j].s.now
  {
    if j < |run| - 1 {
      ClockNeverGoesBack(Front(run), i, j);
    } else if i < j {
      ClockNeverGoesBack(Front(run), i, j - 1);
    }
  }

  /** A stored power-on is remembered: the stored time is never before it. */
  lemma {:induction false} PowerOnIsRemembered(run: seq<Cycle>, i: int)
    requires Linked(run) && 0 <= i < |run| && run[i].saved && PowerOn(run[i].s) != []
    ensures Stored(run).lastScaleUp.Some? && Stored(run).lastScaleUp.value >= run[i].s.now
  {
    if i < |run| - 1 {
      PowerOnIsRemembered(Front(run), i);
      ClockNeverGoesBack(run, i, |run| - 1);
    }
  }

  lemma {:induction false} HoldIsKept(s: Snapshot)
    requires WellNamed(s) && PowerOff(s) != [] && OverMax(s) == 0 && s.lastScaleUp.Some?
    ensures s.now >= s.lastScaleUp.value + Seconds(s.spec.Hold())
  {
  }

  /** After a power-on whose cycle was stored, the pool powers nothing off before its hold is over,
      unless it is above `maxOnline`. */
  lemma {:induction false} PowerOffWaitsForTheHold(run: seq<Cycle>, i: int, j: int)
    requires Linked(run) && 0 <= i < j < |run|
    requires run[i].saved && PowerOn(run[i].s) != []
    requires WellNamed(run[j].s) && PowerOff(run[j].s) != [] && OverMax(run[j].s) == 0
    ensures run[j].s.now >= run[i].s.now + Seconds(run[j].s.spec.Hold())
  {
    ReadsWhatIsStored(run, j);
    PowerOnIsRemembered(run[..j], i);
    HoldIsKept(run[j].s);
  }

  /** A machine that goes because it is unneeded has been judged so, in every stored cycle, for at
      least the unneeded period, and is judged so now. */
  lemma {:induction false} UnneededPowerOffWasUnneededThroughout(run: seq<Cycle>, r: ScaleDown.Removal) returns (i: int)
    requires run != [] && Linked(run) && Intact(run) && Newest(run).saved
    requires r in PowerOff(Newest(run).s) && OverMax(Newest(run).s) == 0 && !Released(Newest(run).s, r.member)
    ensures StreakFrom(run, r.member.name, i)
    ensures Newest(run).s.now - run[i].s.now >= Seconds(Newest(run).s.spec.unneeded)
  {
    var s := Newest(run).s;
    ScaleDownSafety.RemovedAreListed(s, EligibleMembers(s), r);
    i := UnneededSinceIsTheStreak(run, r.member.name);
  }
}
