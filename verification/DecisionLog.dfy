/** The decisions a pool remembers in its status (`record_decisions` in
    `src/controller/node_scaling_pool.rs`). */
module DecisionLog {
  import opened Prelude
  import PoolModel

  datatype Choice =
    | SwitchOn(node: string, reason: string)
    | SwitchOff(node: string, reason: string)
    | NoAction(reason: string)

  datatype Entry = Entry(time: int, choice: Choice)

  const MAX_RECENT := 20

  /** Doing nothing, for the reason the newest entry already gives. */
  predicate Repeats(log: seq<Entry>, c: Choice) {
    c.NoAction? && log != [] && log[|log| - 1].choice == c
  }

  /** The log with the new entries appended, and the decisions that were new. */
  function Appended(log: seq<Entry>, choices: seq<Choice>, now: int): (seq<Entry>, seq<Choice>) {
    if choices == [] then (log, [])
    else
      var rest, c := Appended(log, choices[..|choices| - 1], now), choices[|choices| - 1];
      if Repeats(rest.0, c) then rest else (rest.0 + [Entry(now, c)], rest.1 + [c])
  }

  function Newest(log: seq<Entry>): seq<Entry> {
    if |log| > MAX_RECENT then log[|log| - MAX_RECENT..] else log
  }

  class Log {
    var recent: seq<Entry>

    constructor ()
      ensures recent == []
    {
      recent := [];
    }

    /** Appends this cycle's decisions, drops the oldest beyond the limit, and returns the new ones. */
    method Record(choices: seq<Choice>, now: int) returns (added: seq<Choice>)
      modifies this
      ensures recent == Newest(Appended(old(recent), choices, now).0)
      ensures added == Appended(old(recent), choices, now).1
    {
      added := [];
      for i := 0 to |choices|
        invariant (recent, added) == Appended(old(recent), choices[..i], now)
      {
        assert choices[..i + 1][..i] == choices[..i];
        if Repeats(recent, choices[i]) {
          continue;
        }
        recent := recent + [Entry(now, choices[i])];
        added := added + [choices[i]];
      }
      assert choices[..|choices|] == choices;
      if |recent| > MAX_RECENT {
        recent := recent[|recent| - MAX_RECENT..];
      }
    }
  }

  predicate IsPowerAction(c: Choice) { !c.NoAction? }

  function Stamped(choices: seq<Choice>, now: int): seq<Entry> {
    seq(|choices|, i requires 0 <= i < |choices| => Entry(now, choices[i]))
  }

  /** Every power action is acted on, in order and once; the log gains exactly the new decisions. */
  lemma {:induction false} PowerActionsAreAlwaysNew(log: seq<Entry>, choices: seq<Choice>, now: int)
    ensures var (after, added) := Appended(log, choices, now);
      && PoolModel.Filter(IsPowerAction, added) == PoolModel.Filter(IsPowerAction, choices)
      && after == log + Stamped(added, now)
  {
    if choices != [] {
      PowerActionsAreAlwaysNew(log, choices[..|choices| - 1], now);
    }
  }

  /** Entries that do nothing never repeat back to back. */
  ghost predicate Quiet(log: seq<Entry>) {
    forall i :: 0 < i < |log| ==> !(log[i].choice.NoAction? && log[i].choice == log[i - 1].choice)
  }

  lemma {:induction false} AppendStaysQuiet(log: seq<Entry>, choices: seq<Choice>, now: int)
    requires Quiet(log)
    ensures Quiet(Appended(log, choices, now).0)
  {
    if choices != [] {
      AppendStaysQuiet(log, choices[..|choices| - 1], now);
    }
  }

  /** Recording keeps the log quiet and short, and keeps the newest entries. */
  lemma {:induction false} RecordKeepsTheLog(log: seq<Entry>, choices: seq<Choice>, now: int)
    requires Quiet(log)
    ensures var after := Newest(Appended(log, choices, now).0);
      && Quiet(after) && after == Appended(log, choices, now).0[|Appended(log, choices, now).0| - |after|..]
      && |after| == (if |Appended(log, choices, now).0| > 20 then 20 else |Appended(log, choices, now).0|)
      && (Appended(log, choices, now).1 != [] ==>
            after != [] && after[|after| - 1].choice == Appended(log, choices, now).1[|Appended(log, choices, now).1| - 1])
  {
    AppendStaysQuiet(log, choices, now);
    PowerActionsAreAlwaysNew(log, choices, now);
    var all := Appended(log, choices, now).0;
    if |all| > MAX_RECENT {
      forall i | 0 < i < MAX_RECENT ensures Newest(all)[i] == all[|all| - MAX_RECENT + i] {
      }
    }
  }

  /** The newest entry that says nothing was done, wherever it is in the log. */
  function LatestNoAction(log: seq<Entry>): Option<Choice> {
    if log == [] then None
    else if log[|log| - 1].choice.NoAction? then Some(log[|log| - 1].choice)
    else LatestNoAction(log[..|log| - 1])
  }

  predicate IsNew(log: seq<Entry>, c: Choice, now: int) { Appended(log, [c], now).1 == [c] }

  lemma NewExact(log: seq<Entry>, c: Choice, now: int)
    requires c.NoAction?
    ensures IsNew(log, c, now) <==> log == [] || log[|log| - 1].choice != c
  {
    var none: seq<Choice> := [];
    assert [c][..0] == none && Appended(log, none, now) == (log, none);
  }

  /** Doing nothing is recorded when its reason differs from that of the newest such entry, as the
      documentation says, if and only if no power action came after an entry with the same reason. */
  lemma {:induction false} RecordedAgainExact(log: seq<Entry>, c: Choice, now: int)
    requires c.NoAction?
    ensures (IsNew(log, c, now) <==> LatestNoAction(log) != Some(c))
      <==> (LatestNoAction(log) == Some(c) ==> log[|log| - 1].choice.NoAction?)
  {
    NewExact(log, c, now);
  }

  /** After a power action the same reason is recorded again. */
  lemma {:induction false} SameReasonAgain(log: seq<Entry>, action: Choice, c: Choice, earlier: int, now: int)
    requires c.NoAction? && !action.NoAction? && LatestNoAction(log) == Some(c)
    ensures LatestNoAction(log + [Entry(earlier, action)]) == Some(c) && IsNew(log + [Entry(earlier, action)], c, now)
  {
    var longer := log + [Entry(earlier, action)];
    assert longer[..|longer| - 1] == log;
    NewExact(longer, c, now);
  }
}
