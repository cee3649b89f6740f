/** String order and stable sorting, as Rust's `str` comparison and `sort_by` define them. */
module Ordering {

  /** Lexicographic order on text (by code point, which is also the order of the UTF-8 bytes). */
  predicate TextLess(a: string, b: string) {
    if b == "" then false
    else if a == "" then true
    else a[0] < b[0] || (a[0] == b[0] && TextLess(a[1..], b[1..]))
  }

  lemma {:induction false} TextLessTotal(a: string, b: string)
    ensures TextLess(a, b) || TextLess(b, a) || a == b
    ensures !(TextLess(a, b) && TextLess(b, a))
  {
    if a != "" && b != "" {
      TextLessTotal(a[1..], b[1..]);
      assert a == [a[0]] + a[1..] && b == [b[0]] + b[1..];
    }
  }

  lemma {:induction false} TextLessTransitive(a: string, b: string, c: string)
    requires TextLess(a, b) && TextLess(b, c)
    ensures TextLess(a, c)
  {
    if a != "" && a[0] == b[0] == c[0] {
      TextLessTransitive(a[1..], b[1..], c[1..]);
    }
  }

  // ----- stable insertion sort --------------------------------------------------------------

  function Insert<T>(less: (T, T) -> bool, x: T, s: seq<T>): seq<T> {
    if s == [] || !less(s[0], x) then [x] + s else [s[0]] + Insert(less, x, s[1..])
  }

  /** The stable sort of `s`: elements that neither precedes keep their order. */
  function SortBy<T>(less: (T, T) -> bool, s: seq<T>): seq<T> {
    if s == [] then [] else Insert(less, s[0], SortBy(less, s[1..]))
  }

  lemma {:induction false} InsertKeepsElements<T>(less: (T, T) -> bool, x: T, s: seq<T>)
    ensures multiset(Insert(less, x, s)) == multiset{x} + multiset(s)
  {
    if s != [] && less(s[0], x) {
      InsertKeepsElements(less, x, s[1..]);
      assert s == [s[0]] + s[1..];
    }
  }

  /** Sorting rearranges, and neither drops nor duplicates. */
  lemma {:induction false} SortKeepsElements<T>(less: (T, T) -> bool, s: seq<T>)
    ensures multiset(SortBy(less, s)) == multiset(s)
    ensures |SortBy(less, s)| == |s|
  {
    if s != [] {
      SortKeepsElements(less, s[1..]);
      InsertKeepsElements(less, s[0], SortBy(less, s[1..]));
      assert s == [s[0]] + s[1..];
    }
    assert |multiset(SortBy(less, s))| == |multiset(s)|;
  }

  lemma {:induction false} SortMembership<T>(less: (T, T) -> bool, s: seq<T>, x: T)
    ensures x in SortBy(less, s) <==> x in s
  {
    SortKeepsElements(less, s);
    assert x in multiset(SortBy(less, s)) <==> x in multiset(s);
  }

  /** Each element strictly precedes all later ones. */
  ghost predicate Ranked<T>(less: (T, T) -> bool, s: seq<T>) {
    forall i, j :: 0 <= i < j < |s| ==> less(s[i], s[j])
  }

  /** `less` is a strict total order on `all`. */
  ghost predicate TotalOn<T>(less: (T, T) -> bool, all: set<T>) {
    && (forall x, y | x in all && y in all :: less(x, y) ==> !less(y, x))
    && (forall x, y | x in all && y in all :: x == y || less(x, y) || less(y, x))
    && (forall x, y, z | x in all && y in all && z in all :: less(x, y) && less(y, z) ==> less(x, z))
  }

  ghost predicate Distinct<T>(s: seq<T>) {
    forall i, j :: 0 <= i < j < |s| ==> s[i] != s[j]
  }

  ghost function Elements<T>(s: seq<T>): set<T> { set x | x in s }

  lemma {:induction false} InsertRanked<T>(less: (T, T) -> bool, x: T, s: seq<T>, all: set<T>)
    requires TotalOn(less, all) && x in all && x !in s && forall y | y in s :: y in all
    requires Ranked(less, s)
    ensures Ranked(less, Insert(less, x, s))
  {
    if s == [] {
    } else if less(s[0], x) {
      var rest := Insert(less, x, s[1..]);
      InsertRanked(less, x, s[1..], all);
      InsertKeepsElements(less, x, s[1..]);
      forall k | 0 <= k < |rest| ensures less(s[0], rest[k]) {
        assert rest[k] in multiset(rest);
        assert rest[k] == x || rest[k] in s[1..];
      }
    } else {
      assert s[0] in s && less(x, s[0]);
      forall k | 0 <= k < |s| ensures less(x, s[k]) {
        assert s[k] in all && (k > 0 ==> less(s[0], s[k]));
      }
    }
  }

  lemma {:induction false} SortRanks<T>(less: (T, T) -> bool, s: seq<T>)
    requires Distinct(s) && TotalOn(less, Elements(s))
    ensures Ranked(less, SortBy(less, s))
  {
    SortRanksWithin(less, s, Elements(s));
  }

  lemma {:induction false} SortRanksWithin<T>(less: (T, T) -> bool, s: seq<T>, all: set<T>)
    requires Distinct(s) && TotalOn(less, all) && forall y | y in s :: y in all
    ensures Ranked(less, SortBy(less, s))
  {
    if s != [] {
      SortRanksWithin(less, s[1..], all);
      forall y | y in SortBy(less, s[1..]) ensures y in s[1..] && y != s[0] {
        SortMembership(less, s[1..], y);
      }
      InsertRanked(less, s[0], SortBy(less, s[1..]), all);
    }
  }

  lemma SameHead<T>(less: (T, T) -> bool, s: seq<T>, t: seq<T>)
    requires s != [] && multiset(s) == multiset(t) && Ranked(less, s) && Ranked(less, t)
    requires forall x, y | x in s && y in s :: less(x, y) ==> !less(y, x)
    ensures t != [] && s[0] == t[0]
  {
    assert s[0] in multiset(t);
    assert t[0] in multiset(s);
    var j :| 0 <= j < |t| && t[j] == s[0];
    var i :| 0 <= i < |s| && s[i] == t[0];
    assert forall k | 0 < k < |s| :: less(s[0], s[k]);
    assert forall k | 0 < k < |t| :: less(t[0], t[k]);
  }

  lemma TailElements<T>(s: seq<T>)
    requires s != []
    ensures multiset(s[1..]) == multiset(s) - multiset{s[0]}
  {
    assert s == [s[0]] + s[1..];
  }

  lemma RankedTail<T>(less: (T, T) -> bool, s: seq<T>)
    requires s != [] && Ranked(less, s)
    ensures Ranked(less, s[1..])
  {
  }

  /** A strictly ranked arrangement of given elements is unique. */
  lemma {:induction false} RankingUnique<T>(less: (T, T) -> bool, s: seq<T>, t: seq<T>)
    requires multiset(s) == multiset(t) && Ranked(less, s) && Ranked(less, t)
    requires forall x, y | x in s && y in s :: less(x, y) ==> !less(y, x)
    ensures s == t
  {
    if s == [] {
      assert |multiset(t)| == |multiset(s)|;
    } else {
      SameHead(less, s, t);
      assert multiset(s[1..]) == multiset(t[1..]) by {
        TailElements(s);
        TailElements(t);
      }
      RankedTail(less, s);
      RankedTail(less, t);
      RankingUnique(less, s[1..], t[1..]);
    }
  }

  lemma SameElements<T>(s: seq<T>, t: seq<T>)
    requires multiset(s) == multiset(t)
    ensures |s| == |t| && Elements(s) == Elements(t)
  {
    assert |multiset(s)| == |multiset(t)|;
    forall x ensures x in s <==> x in t {
      assert x in multiset(s) <==> x in multiset(t);
    }
  }

  /** So a sort by a strict total order depends on the elements only, not on how they were listed. */
  lemma {:induction false} SortIgnoresOrder<T>(less: (T, T) -> bool, s: seq<T>, t: seq<T>)
    requires multiset(s) == multiset(t) && Distinct(s) && Distinct(t) && TotalOn(less, Elements(s))
    ensures SortBy(less, s) == SortBy(less, t)
  {
    SameElements(s, t);
    SortRanks(less, s);
    SortRanks(less, t);
    SortKeepsElements(less, s);
    SortKeepsElements(less, t);
    SameElements(s, SortBy(less, s));
    forall x | x in SortBy(less, s) ensures x in Elements(s) {
      assert x in Elements(SortBy(less, s));
    }
    RankingUnique(less, SortBy(less, s), SortBy(less, t));
  }

  function Backwards<T>(s: seq<T>): (r: seq<T>)
    ensures |r| == |s|
    ensures forall i :: 0 <= i < |s| ==> r[i] == s[|s| - 1 - i]
  {
    if s == [] then [] else Backwards(s[1..]) + [s[0]]
  }

  lemma {:induction false} BackwardsKeepsElements<T>(s: seq<T>)
    ensures multiset(Backwards(s)) == multiset(s)
  {
    if s != [] {
      BackwardsKeepsElements(s[1..]);
      assert s == [s[0]] + s[1..];
    }
  }

  lemma {:induction false} BackwardsRanks<T>(less: (T, T) -> bool, more: (T, T) -> bool, s: seq<T>)
    requires Ranked(less, s)
    requires forall x, y | x in s && y in s :: more(x, y) == less(y, x)
    ensures Ranked(more, Backwards(s))
  {
    var b := Backwards(s);
    forall i, j | 0 <= i < j < |s| ensures more(b[i], b[j]) {
      var x, y := s[|s| - 1 - i], s[|s| - 1 - j];
      assert x in s && y in s && less(y, x);
    }
  }

  /** Sorting by the opposite order gives the exact reverse. */
  lemma {:induction false} OppositeSortIsReverse<T>(less: (T, T) -> bool, more: (T, T) -> bool, s: seq<T>)
    requires Distinct(s) && TotalOn(less, Elements(s))
    requires forall x, y | x in Elements(s) && y in Elements(s) :: more(x, y) == less(y, x)
    ensures SortBy(more, s) == Backwards(SortBy(less, s))
  {
    assert TotalOn(more, Elements(s));
    SortRanks(less, s);
    SortRanks(more, s);
    SortKeepsElements(less, s);
    SortKeepsElements(more, s);
    var up, down := SortBy(less, s), SortBy(more, s);
    forall x, y | x in up && y in up ensures more(x, y) == less(y, x) {
      SortMembership(less, s, x);
      SortMembership(less, s, y);
      assert x in Elements(s) && y in Elements(s);
    }
    forall x, y | x in down && y in down ensures more(x, y) ==> !more(y, x) {
      SortMembership(more, s, x);
      SortMembership(more, s, y);
      assert x in Elements(s) && y in Elements(s);
    }
    BackwardsRanks(less, more, up);
    BackwardsKeepsElements(up);
    RankingUnique(more, down, Backwards(up));
  }
}
