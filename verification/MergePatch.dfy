/** Status patches: `merge_diff` (`src/controller/mod.rs`) against JSON Merge Patch (RFC 7396). */
module MergePatch {
  import opened Prelude

  datatype Json =
    | Null
    | Bool(b: bool)
    | Number(n: int)
    | Text(s: string)
    | Array(items: seq<Json>)
    | Object(fields: Fields)

  type Fields = map<string, Json>

  function FieldsOf(j: Option<Json>): Fields {
    if j.Some? && j.value.Object? then j.value.fields else map[]
  }

  function Lookup(t: Fields, k: string): Option<Json> {
    if k in t then Some(t[k]) else None
  }

  // ----- section 2 of RFC 7396 --------------------------------------------------------------

  /** The value that results from applying `patch` to `target` (`None`: there is no such member). */
  function Merge(target: Option<Json>, patch: Json): Json
    decreases patch
  {
    match patch
    case Object(p) =>
      var t := FieldsOf(target);
      Object((map k | k in t && k !in p :: t[k]) +
             (map k | k in p && p[k] != Null :: Merge(Lookup(t, k), p[k])))
    case _ => patch
  }

  /** The object `target` after the patch object `patch`. */
  function Apply(target: Fields, patch: Fields): Fields {
    Merge(Some(Object(target)), Object(patch)).fields
  }

  /** Member by member: what a patch does to one top-level key. */
  lemma ApplyAt(target: Fields, patch: Fields, k: string)
    ensures Lookup(Apply(target, patch), k) ==
      if k !in patch then Lookup(target, k)
      else if patch[k] == Null then None
      else Some(Merge(Lookup(target, k), patch[k]))
  {
  }

  // ----- merge_diff -------------------------------------------------------------------------

  /** Changed keys are set, removed keys are nulled, untouched keys are left out. */
  function DiffOf(before: Fields, after: Fields): Fields {
    (map k | k in after && Lookup(before, k) != Some(after[k]) :: after[k]) +
    (map k | k in before && k !in after :: Null)
  }

  /** Builds the patch with the two insertion loops of the source. */
  method MergeDiff(oldValue: Json, newValue: Json) returns (patch: Fields)
    ensures patch == DiffOf(FieldsOf(Some(oldValue)), FieldsOf(Some(newValue)))
  {
    var before, after := FieldsOf(Some(oldValue)), FieldsOf(Some(newValue));
    ghost var goal := DiffOf(before, after);
    patch := map[];
    var left := after.Keys;
    while left != {}
      invariant left <= after.Keys
      invariant forall k :: k in patch <==> k in goal && k in after && k !in left
      invariant forall k :: k in patch ==> patch[k] == goal[k]
      decreases left
    {
      var k :| k in left;
      if Lookup(before, k) != Some(after[k]) {
        patch := patch[k := after[k]];
      }
      left := left - {k};
    }
    left := before.Keys;
    while left != {}
      invariant left <= before.Keys
      invariant forall k :: k in patch <==> k in goal && (k in after || k !in left)
      invariant forall k :: k in patch ==> patch[k] == goal[k]
      decreases left
    {
      var k :| k in left;
      if k !in after {
        patch := patch[k := Null];
      }
      left := left - {k};
    }
  }

  // ----- when the patch reproduces the new value --------------------------------------------

  /** No object inside `v` has a null member. */
  predicate NullFree(v: Json) {
    match v
    case Object(f) => forall k | k in f :: f[k] != Null && NullFree(f[k])
    case _ => true
  }

  /** Wherever `v` is an object, it keeps every member that `t` has at the same place. */
  predicate KeepsMembers(t: Option<Json>, v: Json)
    decreases v
  {
    v.Object? ==>
      forall k | k in FieldsOf(t) :: k in v.fields && KeepsMembers(Lookup(FieldsOf(t), k), v.fields[k])
  }

  /** Merging `v` into `t` gives `v` itself exactly when `v` has no nulls and loses no member of `t`. */
  lemma {:induction false} MergeReplacesExact(t: Option<Json>, v: Json)
    ensures Merge(t, v) == v <==> NullFree(v) && KeepsMembers(t, v)
    decreases v
  {
    if v.Object? {
      var f, m := FieldsOf(t), Merge(t, v).fields;
      forall k | k in v.fields
        ensures Merge(Lookup(f, k), v.fields[k]) == v.fields[k]
          <==> NullFree(v.fields[k]) && KeepsMembers(Lookup(f, k), v.fields[k])
      {
        MergeReplacesExact(Lookup(f, k), v.fields[k]);
      }
      if Merge(t, v) == v {
        assert m == v.fields;
        forall k | k in v.fields
          ensures v.fields[k] != Null && Merge(Lookup(f, k), v.fields[k]) == v.fields[k]
        {
          assert k in m;
        }
        forall k | k in f
          ensures k in v.fields
        {
          assert k !in v.fields ==> k in m;
        }
      }
      if NullFree(v) && KeepsMembers(t, v) {
        assert m == v.fields;
      }
    }
  }

  predicate Changed(before: Fields, after: Fields, k: string) {
    Lookup(before, k) != Lookup(after, k)
  }

  /** What a status must satisfy for its difference to be expressible as a merge patch. */
  predicate Expressible(before: Fields, after: Fields) {
    forall k | k in after && Changed(before, after, k) ::
      after[k] != Null && NullFree(after[k]) && KeepsMembers(Lookup(before, k), after[k])
  }

  /** Applying the patch to the old status gives the new one if and only if no changed key holds a
      null or drops a nested member. */
  lemma RoundTripExact(before: Fields, after: Fields)
    ensures Apply(before, DiffOf(before, after)) == after <==> Expressible(before, after)
  {
    var result := Apply(before, DiffOf(before, after));
    forall k
      ensures Lookup(result, k) == Lookup(after, k) <==>
        (k in after && Changed(before, after, k) ==>
          after[k] != Null && NullFree(after[k]) && KeepsMembers(Lookup(before, k), after[k]))
    {
      ApplyAt(before, DiffOf(before, after), k);
      if k in after {
        MergeReplacesExact(Lookup(before, k), after[k]);
      }
    }
    if result == after {
      forall k | k in after && Changed(before, after, k)
        ensures after[k] != Null && NullFree(after[k]) && KeepsMembers(Lookup(before, k), after[k])
      {
        assert Lookup(result, k) == Lookup(after, k);
      }
    }
    if Expressible(before, after) {
      forall k
        ensures k in result <==> k in after
        ensures k in result ==> result[k] == after[k]
      {
        assert Lookup(result, k) == Lookup(after, k);
      }
      assert result == after;
    }
  }

  /** A nested member that the new status drops while its object stays keeps its old value: the
      reason a machine that stopped being unneeded keeps its entry in `unneededSince`. */
  lemma DroppedNestedMemberSurvives(before: Fields, after: Fields, k: string, member: string)
    requires k in before && k in after && before[k].Object? && after[k].Object?
    requires member in before[k].fields && member !in after[k].fields
    ensures var result := Apply(before, DiffOf(before, after));
      k in result && result[k].Object? && Lookup(result[k].fields, member) == Some(before[k].fields[member])
  {
    ApplyAt(before, DiffOf(before, after), k);
  }

  // ----- other writers ----------------------------------------------------------------------

  /** A key this writer did not change keeps whatever anyone else stored meanwhile. */
  lemma UntouchedKeysSurvive(before: Fields, after: Fields, stored: Fields, k: string)
    requires !Changed(before, after, k)
    ensures Lookup(Apply(stored, DiffOf(before, after)), k) == Lookup(stored, k)
  {
    ApplyAt(stored, DiffOf(before, after), k);
  }

  /** Patches that touch different keys can be applied in either order. */
  lemma DisjointPatchesCommute(stored: Fields, p: Fields, q: Fields)
    requires p.Keys !! q.Keys
    ensures Apply(Apply(stored, p), q) == Apply(Apply(stored, q), p)
  {
    var pq, qp := Apply(Apply(stored, p), q), Apply(Apply(stored, q), p);
    forall k
      ensures Lookup(pq, k) == Lookup(qp, k)
    {
      ApplyAt(Apply(stored, p), q, k);
      ApplyAt(Apply(stored, q), p, k);
      ApplyAt(stored, p, k);
      ApplyAt(stored, q, k);
    }
    forall k
      ensures k in pq <==> k in qp
      ensures k in pq ==> pq[k] == qp[k]
    {
      assert Lookup(pq, k) == Lookup(qp, k);
    }
  }

  /** Two controllers that start from the same status and change different keys both get their way:
      each changed key ends as if its writer had been alone. */
  lemma ConcurrentWritersBothLand(base: Fields, a: Fields, b: Fields)
    requires forall k :: !(Changed(base, a, k) && Changed(base, b, k))
    ensures var end := Apply(Apply(base, DiffOf(base, a)), DiffOf(base, b));
      forall k :: Lookup(end, k) ==
        Lookup(Apply(base, DiffOf(base, if Changed(base, a, k) then a else b)), k)
  {
    var mid := Apply(base, DiffOf(base, a));
    forall k
      ensures Lookup(Apply(mid, DiffOf(base, b)), k) ==
        Lookup(Apply(base, DiffOf(base, if Changed(base, a, k) then a else b)), k)
    {
      ApplyAt(mid, DiffOf(base, b), k);
      ApplyAt(base, DiffOf(base, b), k);
      ApplyAt(base, DiffOf(base, a), k);
    }
  }
}
