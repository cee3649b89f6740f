/** Whole runs of one machine: reconciles interleaved with pool decisions and operator edits. */
module MachineRuns {
  import opened Prelude
  import opened MachineStatus
  import opened MachineStep

  datatype Event =
    | Reconcile(i: Inputs)
    | Decide(d: Decision)             // some pool stores a decision
    | ForgetManual                    // a person clears `manualPowerOn`

  /** One event. A reconcile that broke off, or whose new status could not be stored, leaves the
      stored status as it was; what it did to the machine and its Node stays done. */
  function Next(st: Status, e: Event): Outcome {
    match e
    case Reconcile(i) =>
      var o := Reconciled(st, i);
      if o.completed && i.storedOk then o else Outcome(st, o.effects, false)
    case Decide(d) => Stay(st.(decision := Some(d)))
    case ForgetManual => Stay(st.(manualOn := None))
  }

  function Init<T>(s: seq<T>): seq<T>
    requires s != []
  {
    s[..|s| - 1]
  }

  function Last<T>(s: seq<T>): T
    requires s != []
  {
    s[|s| - 1]
  }

  function StatusFrom(st: Status, run: seq<Event>): Status {
    if run == [] then st else Next(StatusFrom(st, Init(run)), Last(run)).st
  }

  /** The status after a run from an object without a status. */
  function StatusAfter(run: seq<Event>): Status {
    StatusFrom(DEFAULT_STATUS, run)
  }

  /** What the last event of a run did. */
  function LastOutcome(run: seq<Event>): Outcome
    requires run != []
  {
    Next(StatusAfter(Init(run)), Last(run))
  }

  function LastTime(run: seq<Event>): Option<int> {
    if run == [] then None
    else if Last(run).Reconcile? then Some(Last(run).i.now)
    else LastTime(Init(run))
  }

  /** The time of the last reconcile, `t` before the first. */
  function TimeAfter(t: int, e: Event): int { if e.Reconcile? then e.i.now else t }

  function TimeFrom(t: int, run: seq<Event>): int {
    if run == [] then t else TimeAfter(TimeFrom(t, Init(run)), Last(run))
  }

  /** A first event and the rest of a run, seen from the status the event leaves. */
  lemma {:induction false} FirstEvent(st: Status, e: Event, rest: seq<Event>)
    ensures StatusFrom(st, [e] + rest) == StatusFrom(Next(st, e).st, rest)
  {
    if rest == [] {
      assert [e] + rest == [e] && Init([e]) == [];
    } else {
      assert Init([e] + rest) == [e] + Init(rest);
      FirstEvent(st, e, Init(rest));
    }
  }

  predicate Later(t: Option<int>, now: int) { t.None? || t.value < now }

  /** The clock of the reconciles strictly increases, and their inputs are plausible. */
  predicate Orderly(run: seq<Event>) {
    run == [] ||
    (Orderly(Init(run)) &&
     (Last(run).Reconcile? ==> Plausible(Last(run).i) && Later(LastTime(Init(run)), Last(run).i.now)))
  }

  lemma {:induction false} OrderlyPrefix(run: seq<Event>, k: nat)
    requires k <= |run| && Orderly(run)
    ensures Orderly(run[..k])
  {
    if k < |run| {
      OrderlyPrefix(Init(run), k);
      assert Init(run)[..k] == run[..k];
    } else {
      assert run[..k] == run;
    }
  }

  /** A run grows by one event. */
  lemma {:induction false} OneMore(run: seq<Event>, e: Event)
    ensures StatusAfter(run + [e]) == Next(StatusAfter(run), e).st
    ensures LastTime(run + [e]) == if e.Reconcile? then Some(e.i.now) else LastTime(run)
    ensures Orderly(run + [e]) <==>
      Orderly(run) && (e.Reconcile? ==> Plausible(e.i) && Later(LastTime(run), e.i.now))
  {
    assert Init(run + [e]) == run;
  }

  /** A run that reached `st` at time `at` (if it has reconciled at all). */
  predicate Reached(run: seq<Event>, at: Option<int>, st: Status) {
    Orderly(run) && LastTime(run) == at && StatusAfter(run) == st
  }

  lemma OneReconcileMore(run: seq<Event>, at: Option<int>, before: Status, i: Inputs, after: Status)
    requires Reached(run, at, before) && Plausible(i) && Later(at, i.now)
    requires Next(before, Reconcile(i)).st == after
    ensures Reached(run + [Reconcile(i)], Some(i.now), after)
  {
    OneMore(run, Reconcile(i));
  }

  /** No call of the reconcile fails, and the power can be read. */
  predicate Faultless(i: Inputs) {
    i.chainBuilt && i.reading.Some? && i.accepted && i.cordonOk && i.unmarkOk && i.storedOk
  }

  predicate FaultlessRun(run: seq<Event>) {
    forall e <- run :: e.Reconcile? ==> Faultless(e.i)
  }

  predicate Issues(o: Outcome, action: Action) {
    exists e <- o.effects :: e.Issued? && e.action == action
  }

  predicate IssuesBy(o: Outcome, issuer: Issuer) {
    exists e <- o.effects :: e.Issued? && e.issuer == issuer
  }

  predicate ActsOnPower(o: Outcome) {
    exists e <- o.effects :: e.Issued?
  }
}
