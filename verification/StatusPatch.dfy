/** What a pool's status patch leaves in the stored `unneededSince`
    (`patch_status_diff` in `src/controller/mod.rs`, status fields from `src/crd.rs`). */
module StatusPatch {
  import opened Prelude
  import opened MergePatch

  type Times = map<string, int>

  const UNNEEDED_SINCE := "unneededSince"

  function Encoded(times: Times): Fields { map name | name in times :: Number(times[name]) }

  /** The status member: left out when there is nothing in it. */
  function Member(times: Times): Option<Json> {
    if times == map[] then None else Some(Object(Encoded(times)))
  }

  lemma EmptyIsLeftOut(times: Times)
    ensures Member(times).None? <==> times == map[]
  {
  }

  /** The times stored after the patch from a status with `before` to one with `after`. */
  function Patched(before: Times, after: Times): Times {
    if after == map[] then map[] else before + after
  }

  /** What the patch leaves of one status member, given what it was and what it should be. */
  function Left(was: Option<Json>, wanted: Option<Json>): Option<Json> {
    if was == wanted || wanted.None? then wanted else Some(Merge(was, wanted.value))
  }

  lemma LeftIsApplied(before: Fields, after: Fields, k: string)
    requires k in after ==> after[k] != Null
    ensures Lookup(Apply(before, DiffOf(before, after)), k) == Left(Lookup(before, k), Lookup(after, k))
  {
    ApplyAt(before, DiffOf(before, after), k);
  }

  lemma MergedAt(t: Fields, p: Fields, k: string)
    requires forall k | k in p :: p[k].Number?
    ensures Lookup(Merge(Some(Object(t)), Object(p)).fields, k) == if k in p then Some(p[k]) else Lookup(t, k)
  {
  }

  lemma EncodedAt(b: Times, a: Times, k: string)
    ensures Lookup(Encoded(b + a), k) == if k in a then Some(Number(a[k])) else Lookup(Encoded(b), k)
  {
  }

  lemma SameFields(f: Fields, g: Fields)
    requires forall k :: Lookup(f, k) == Lookup(g, k)
    ensures f == g
  {
    forall k
      ensures k in f <==> k in g
      ensures k in f && k in g ==> f[k] == g[k]
    {
      assert Lookup(f, k) == Lookup(g, k);
    }
  }

  lemma MergeEncoded(b: Times, a: Times)
    ensures Merge(Some(Object(Encoded(b))), Object(Encoded(a))) == Object(Encoded(b + a))
  {
    var merged, goal := Merge(Some(Object(Encoded(b))), Object(Encoded(a))).fields, Encoded(b + a);
    forall k ensures Lookup(merged, k) == Lookup(goal, k) {
      MergedAt(Encoded(b), Encoded(a), k);
      EncodedAt(b, a, k);
    }
    SameFields(merged, goal);
  }

  lemma {:induction false} MergeFromNothing(t: Option<Json>, p: Fields)
    requires FieldsOf(t) == map[]
    ensures Merge(t, Object(p)) == Merge(Some(Object(map[])), Object(p))
  {
  }

  lemma LeftOfTimes(b: Times, a: Times)
    requires a != map[]
    ensures Some(Merge(Member(b), Object(Encoded(a)))) == Member(Patched(b, a))
  {
    MergeEncoded(b, a);
    assert b + a != map[] by {
      var name :| name in a;
      assert name in b + a;
    }
    if b == map[] {
      assert Encoded(b) == map[];
      MergeFromNothing(Member(b), Encoded(a));
    }
  }

  lemma SameTimes(b: Times, a: Times)
    requires Encoded(a) == Encoded(b)
    ensures a == b
  {
    assert forall k :: k in a <==> k in Encoded(a);
    assert forall k :: k in b <==> k in Encoded(b);
    forall k | k in a ensures a[k] == b[k] {
      assert Encoded(a)[k] == Encoded(b)[k];
    }
  }

  /** That is what applying the patch to the status it was made from stores. */
  lemma PatchStores(before: Fields, after: Fields, b: Times, a: Times)
    requires Lookup(before, UNNEEDED_SINCE) == Member(b) && Lookup(after, UNNEEDED_SINCE) == Member(a)
    ensures Lookup(Apply(before, DiffOf(before, after)), UNNEEDED_SINCE) == Member(Patched(b, a))
  {
    LeftIsApplied(before, after, UNNEEDED_SINCE);
    if a != map[] {
      if Member(a) == Member(b) {
        SameTimes(b, a);
        assert b + a == b;
      } else {
        LeftOfTimes(b, a);
      }
    }
  }

  /** A patch drops no name: it empties the member, or every name stored before is still there. */
  predicate Lossless(before: Times, after: Times) {
    after == map[] || forall name | name in before :: name in after
  }

  /** The stored times are those of the new status exactly when the patch has no name to drop. */
  lemma PatchedExact(before: Times, after: Times)
    ensures Patched(before, after) == after <==> Lossless(before, after)
    ensures (forall name :: name in Patched(before, after) <==> name in after) <==> Lossless(before, after)
  {
    if after != map[] {
      assert forall name :: name in before + after <==> name in before || name in after;
      if Lossless(before, after) {
        assert before + after == after;
      } else {
        var name :| name in before && name !in after;
        assert name in before + after;
      }
    }
  }
}
