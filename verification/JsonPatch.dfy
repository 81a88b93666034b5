/** JSON merge patches: how one is computed from two documents, how one is applied, and what that does to each path. */
module JsonPatch {
  import opened Wrappers

  datatype Json = Null | Bool(b: bool) | Num(n: int) | Str(s: string) | Arr(items: seq<Json>) | Obj(fields: map<string, Json>)

  const EMPTY := Obj(map[])

  /** Section 2 of RFC 7396; an absent target is Null. */
  function MergePatch(target: Json, patch: Json): Json
    decreases patch
  {
    match patch
    case Obj(p) =>
      var t := if target.Obj? then target.fields else map[];
      Obj(map k | k in t.Keys + p.Keys && !(k in p && p[k] == Null) ::
            if k in p then MergePatch(if k in t then t[k] else Null, p[k]) else t[k])
    case _ => patch
  }

  /**
   The merge patch from a to b: for two objects the changed and added fields, and Null for the removed
   ones; otherwise b itself.
   */
  function Diff(a: Json, b: Json): Json
    decreases b, 0
  {
    if a.Obj? && b.Obj? then
      Obj(map k | k in a.fields.Keys + b.fields.Keys && !(k in a.fields && k in b.fields && Same(a.fields[k], b.fields[k])) ::
            if k !in b.fields then Null
            else if k in a.fields then Diff(a.fields[k], b.fields[k])
            else b.fields[k])
    else b
  }

  /** A field that the patch leaves out: two objects with nothing to patch, or equal values. */
  predicate Same(a: Json, b: Json)
    decreases b, 1
  {
    if a.Obj? && b.Obj? then Diff(a, b) == EMPTY else a == b
  }

  lemma {:induction false} SameIsEqual(a: Json, b: Json)
    ensures Same(a, b) <==> a == b
    decreases b
  {
    if a.Obj? && b.Obj? {
      var d := Diff(a, b).fields;
      forall k | k in b.fields && k in a.fields
        ensures k in d <==> a.fields[k] != b.fields[k]
      {
        SameIsEqual(a.fields[k], b.fields[k]);
      }
      if d == map[] {
        assert forall k :: k in a.fields.Keys + b.fields.Keys ==> k !in d;
        assert a.fields == b.fields;
      }
      if a == b {
        assert d == map[];
      }
    }
  }

  // --- Paths ---

  /** A field of an optional document. */
  function Child(j: Option<Json>, k: string): Option<Json> {
    if j.Some? && j.value.Obj? && k in j.value.fields then Some(j.value.fields[k]) else None
  }

  /** The value at a path, if there is one. */
  function At(j: Option<Json>, path: seq<string>): Option<Json>
    decreases path
  {
    if path == [] then j else At(Child(j, path[0]), path[1..])
  }

  /** What the patch between two optional documents holds for them: nothing when they are equal. */
  function PatchFor(a: Option<Json>, b: Option<Json>): Option<Json> {
    if a == b then None
    else if b.None? then Some(Null)
    else if a.None? then Some(b.value)
    else Some(Diff(a.value, b.value))
  }

  /** An optional target after a patch entry. */
  function Applied(target: Option<Json>, patch: Option<Json>): Option<Json> {
    if patch.None? then target
    else if patch.value == Null then None
    else Some(MergePatch(if target.Some? then target.value else Null, patch.value))
  }

  /** Where the new version is an object, patching goes field by field. */
  lemma PatchByField(target: Option<Json>, a: Option<Json>, b: Json, k: string)
    requires b.Obj? && a != Some(b)
    ensures Child(Applied(target, PatchFor(a, Some(b))), k) == Applied(Child(target, k), PatchFor(Child(a, k), Child(Some(b), k)))
  {
    if k in b.fields && Child(a, k).Some? {
      SameIsEqual(a.value.fields[k], b.fields[k]);
    }
  }

  /**
   The actuator did not touch the path: its two versions agree there or above, on the way down through
   objects of the new version.
   */
  predicate Untouched(a: Option<Json>, b: Option<Json>, path: seq<string>)
    decreases path
  {
    a == b || (path != [] && b.Some? && b.value.Obj? && Untouched(Child(a, path[0]), Child(b, path[0]), path[1..]))
  }

  /** A value that a patch can set or remove as a whole: absent, or neither an object nor null. */
  predicate Atomic(j: Option<Json>) {
    j.None? || (!j.value.Obj? && !j.value.Null?)
  }

  lemma {:induction false} PatchKeeps(target: Option<Json>, a: Option<Json>, b: Option<Json>, path: seq<string>)
    requires Untouched(a, b, path)
    ensures At(Applied(target, PatchFor(a, b)), path) == At(target, path)
    decreases path
  {
    if a != b {
      PatchByField(target, a, b.value, path[0]);
      PatchKeeps(Child(target, path[0]), Child(a, path[0]), Child(b, path[0]), path[1..]);
    }
  }

  lemma {:induction false} PatchSets(target: Option<Json>, a: Option<Json>, b: Option<Json>, path: seq<string>)
    requires At(a, path) != At(b, path) && Atomic(At(b, path))
    ensures At(Applied(target, PatchFor(a, b)), path) == At(b, path)
    decreases path
  {
    if path != [] {
      if b.Some? && b.value.Obj? {
        PatchByField(target, a, b.value, path[0]);
        PatchSets(Child(target, path[0]), Child(a, path[0]), Child(b, path[0]), path[1..]);
      } else {
        NothingBelow(b, path);
        NothingBelow(Applied(target, PatchFor(a, b)), path);
      }
    }
  }

  lemma {:induction false} NothingBelow(j: Option<Json>, path: seq<string>)
    requires path != [] && (j.None? || !j.value.Obj?)
    ensures At(j, path) == None
  {
    NothingInNone(path[1..]);
  }

  lemma {:induction false} NothingInNone(path: seq<string>)
    ensures At(None, path) == None
  {
    if path != [] {
      NothingInNone(path[1..]);
    }
  }

  /**
   Patching loses nothing. Whatever the stored object has become, after the patch between the actuator's
   two versions every path the actuator did not touch has the stored value, and every path where its new
   version has another value, or none any more, has the new one.
   */
  lemma PatchLosesNothing(stored: Json, a: Json, b: Json, path: seq<string>)
    requires stored.Obj? && a.Obj? && b.Obj?
    ensures Untouched(Some(a), Some(b), path) ==>
              At(Some(MergePatch(stored, Diff(a, b))), path) == At(Some(stored), path)
    ensures At(Some(a), path) != At(Some(b), path) && Atomic(At(Some(b), path)) ==>
              At(Some(MergePatch(stored, Diff(a, b))), path) == At(Some(b), path)
  {
    MergeIsApplied(stored, a, b);
    if Untouched(Some(a), Some(b), path) {
      PatchKeeps(Some(stored), Some(a), Some(b), path);
    }
    if At(Some(a), path) != At(Some(b), path) && Atomic(At(Some(b), path)) {
      PatchSets(Some(stored), Some(a), Some(b), path);
    }
  }

  lemma MergeIsApplied(stored: Json, a: Json, b: Json)
    requires stored.Obj? && a.Obj? && b.Obj?
    ensures Some(MergePatch(stored, Diff(a, b))) == Applied(Some(stored), PatchFor(Some(a), Some(b)))
  {
    if a == b {
      SameIsEqual(a, b);
      assert MergePatch(stored, EMPTY).fields == stored.fields;
    }
  }

  // --- Null, repetition, round trips ---

  /** No field anywhere is null (arrays are replaced as a whole and may hold anything). */
  predicate NullFree(j: Json) {
    j.Obj? ==> forall k :: k in j.fields ==> j.fields[k] != Null && NullFree(j.fields[k])
  }

  lemma {:induction false} MergeIsNullFree(target: Json, patch: Json)
    requires NullFree(target)
    ensures NullFree(MergePatch(target, patch)) && (MergePatch(target, patch) == Null ==> patch == Null)
    decreases patch
  {
    if patch.Obj? {
      var t := if target.Obj? then target.fields else map[];
      forall k | k in patch.fields
        ensures var was := if k in t then t[k] else Null;
                NullFree(MergePatch(was, patch.fields[k]))
                && (MergePatch(was, patch.fields[k]) == Null ==> patch.fields[k] == Null)
      {
        MergeIsNullFree(if k in t then t[k] else Null, patch.fields[k]);
      }
    }
  }

  /** Applying a patch again changes nothing. */
  lemma {:induction false} MergeIsIdempotent(target: Json, patch: Json)
    ensures MergePatch(MergePatch(target, patch), patch) == MergePatch(target, patch)
    decreases patch
  {
    if patch.Obj? {
      var t := if target.Obj? then target.fields else map[];
      var once := MergePatch(target, patch);
      forall k | k in patch.fields && patch.fields[k] != Null
        ensures MergePatch(once.fields[k], patch.fields[k]) == once.fields[k]
      {
        MergeIsIdempotent(if k in t then t[k] else Null, patch.fields[k]);
      }
      assert MergePatch(once, patch).fields == once.fields;
    }
  }

  /** A whole value as a patch, onto something that is no object or is that value already. */
  lemma {:induction false} MergeWhole(target: Json, value: Json)
    requires !target.Obj? || target == value
    ensures MergePatch(target, value) == value <==> NullFree(value)
    decreases value
  {
    if value.Obj? {
      var t := if target.Obj? then target.fields else map[];
      forall k | k in value.fields
        ensures MergePatch(if k in t then t[k] else Null, value.fields[k]) == value.fields[k] <==>
                NullFree(value.fields[k])
      {
        MergeWhole(if k in t then t[k] else Null, value.fields[k]);
      }
      var merged := MergePatch(target, value);
      if merged == value {
        assert forall k :: k in value.fields ==> k in merged.fields && merged.fields[k] == value.fields[k];
      }
      if NullFree(value) {
        assert merged.fields == value.fields;
      }
    }
  }

  /**
   The new version can be told to a server by a merge patch: wherever it differs from the old one it has
   no null field.
   */
  predicate Expressible(a: Json, b: Json)
    decreases b
  {
    if a.Obj? && b.Obj? then
      forall k :: k in b.fields ==>
        (k in a.fields && a.fields[k] == b.fields[k]) ||
        (b.fields[k] != Null && if k in a.fields then Expressible(a.fields[k], b.fields[k]) else NullFree(b.fields[k]))
    else NullFree(b)
  }

  /** Patching the old version yields the new one exactly when the new one adds or changes no null field. */
  lemma {:induction false} RoundTripIff(a: Json, b: Json)
    ensures MergePatch(a, Diff(a, b)) == b <==> Expressible(a, b)
    decreases b
  {
    if a.Obj? && b.Obj? {
      var merged := MergePatch(a, Diff(a, b));
      forall k | k in b.fields
        ensures (k in merged.fields && merged.fields[k] == b.fields[k]) <==>
                  ((k in a.fields && a.fields[k] == b.fields[k]) ||
                   (b.fields[k] != Null &&
                    if k in a.fields then Expressible(a.fields[k], b.fields[k]) else NullFree(b.fields[k])))
      {
        if k in a.fields {
          SameIsEqual(a.fields[k], b.fields[k]);
          RoundTripIff(a.fields[k], b.fields[k]);
        } else {
          MergeWhole(Null, b.fields[k]);
        }
      }
      assert forall k :: k in merged.fields ==> k in b.fields;
      if Expressible(a, b) {
        assert merged.fields == b.fields;
      }
    } else if b.Obj? {
      MergeWhole(a, b);
    }
  }

  /** A document without nulls absorbs any patch that leads to it. */
  lemma {:induction false} MergeIsAbsorbed(a: Json, b: Json)
    requires NullFree(b)
    ensures MergePatch(b, Diff(a, b)) == b
    decreases b
  {
    if a.Obj? && b.Obj? {
      forall k | k in b.fields
        ensures k in a.fields ==> MergePatch(b.fields[k], Diff(a.fields[k], b.fields[k])) == b.fields[k]
        ensures MergePatch(b.fields[k], b.fields[k]) == b.fields[k]
        ensures k in a.fields ==> (Same(a.fields[k], b.fields[k]) <==> a.fields[k] == b.fields[k])
      {
        if k in a.fields {
          MergeIsAbsorbed(a.fields[k], b.fields[k]);
          SameIsEqual(a.fields[k], b.fields[k]);
        }
        MergeWhole(b.fields[k], b.fields[k]);
      }
      forall k | k in b.fields && k in a.fields && !Same(a.fields[k], b.fields[k])
        ensures Diff(a.fields[k], b.fields[k]) != Null
      {
        DiffIsNotNull(a.fields[k], b.fields[k]);
      }
      assert MergePatch(b, Diff(a, b)).fields == b.fields;
    } else {
      MergeWhole(b, b);
    }
  }

  lemma DiffIsNotNull(a: Json, b: Json)
    ensures Diff(a, b) == Null <==> b == Null
  {
  }
}
