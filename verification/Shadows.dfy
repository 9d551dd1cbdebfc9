/**
 * The device shadow: a desired and a reported JSON document, the part of the desired document the
 * device has not reported back, and a version that counts the changes.
 */
module Shadows {
  import opened Limits
  import opened Wrappers

  datatype Json =
    | Null
    | Boolean(b: bool)
    | Integer(i: int)
    | Decimal(r: real)
    | Text(s: string)
    | List(items: seq<Json>)
    | Object(fields: Fields)

  type Fields = map<string, Json>

  datatype Shadow = Shadow(desired: Json, reported: Json, delta: Json, version: int)


  datatype Result = Updated(shadow: Shadow) | VersionOverflow

  // ---- merging and comparing documents ----

  function FieldsOf(v: Json): Fields { if v.Object? then v.fields else map[] }

  function ObjectOrEmpty(v: Json): Json { if v.Object? then v else Object(map[]) }

  /** A patch removes the keys it gives as null and sets the others. */
  function Merge(base: Fields, patch: Fields): Fields {
    map k | k in base.Keys + patch.Keys && (if k in patch then patch[k] != Null else true)
      :: if k in patch then patch[k] else base[k]
  }

  /** The desired keys the device has not reported with the desired value. */
  function Missing(desired: Fields, reported: Fields): Fields {
    map k | k in desired && !(k in reported && reported[k] == desired[k]) :: desired[k]
  }

  function ComputeDelta(desired: Json, reported: Json): Json {
    if desired.Object? && reported.Object? then Object(Missing(desired.fields, reported.fields))
    else if desired.Object? then desired
    else Object(map[])
  }

  function Without(patch: Fields, todo: set<string>): Fields { map k | k in patch && k !in todo :: patch[k] }

  lemma MergeOneMore(base: Fields, done: Fields, key: string, value: Json)
    requires key !in done
    ensures Merge(base, done[key := value])
            == if value == Null then Merge(base, done) - {key} else Merge(base, done)[key := value]
  {
  }

  lemma WithoutOneLess(patch: Fields, todo: set<string>, key: string)
    requires key in todo && key in patch
    ensures Without(patch, todo - {key}) == Without(patch, todo)[key := patch[key]]
  {
  }

  /** Key by key: nulls of the patch are gone, its other entries are set, and all other keys are as they were. */
  ghost predicate Patched(before: Json, after: Json, patch: Fields) {
    && after.Object?
    && (forall k :: k in after.fields <==> if k in patch then patch[k] != Null else k in FieldsOf(before))
    && (forall k :: k in after.fields ==> after.fields[k] == if k in patch then patch[k] else FieldsOf(before)[k])
  }

  /** Key by key: the delta holds the desired value of exactly the keys that are not reported with it. */
  ghost predicate Outstanding(desired: Json, reported: Json, delta: Json) {
    && delta.Object?
    && (forall k :: k in delta.fields <==>
          k in FieldsOf(desired) && (k !in FieldsOf(reported) || FieldsOf(reported)[k] != FieldsOf(desired)[k]))
    && (forall k :: k in delta.fields ==> delta.fields[k] == FieldsOf(desired)[k])
  }

  lemma MergeMeaning(before: Json, patch: Fields)
    ensures Patched(before, Object(Merge(FieldsOf(before), patch)), patch)
  {
  }

  lemma DeltaMeaning(desired: Json, reported: Json)
    ensures Outstanding(desired, reported, ComputeDelta(desired, reported))
  {
  }

  /** The patch is walked entry by entry over the document it changes. */
  method MergeJson(existing: Json, patch: Fields) returns (merged: Json)
    ensures merged == Object(Merge(FieldsOf(existing), patch))
    ensures Patched(existing, merged, patch)
  {
    var fields := FieldsOf(existing);
    var todo := patch.Keys;
    assert Without(patch, todo) == map[];
    while todo != {}
      invariant todo <= patch.Keys
      invariant fields == Merge(FieldsOf(existing), Without(patch, todo))
      decreases |todo|
    {
      var key :| key in todo;
      WithoutOneLess(patch, todo, key);
      MergeOneMore(FieldsOf(existing), Without(patch, todo), key, patch[key]);
      fields := if patch[key] == Null then fields - {key} else fields[key := patch[key]];
      todo := todo - {key};
    }
    assert Without(patch, {}) == patch;
    merged := Object(fields);
    MergeMeaning(existing, patch);
  }

  method CompareJson(desired: Json, reported: Json) returns (delta: Json)
    ensures delta == ComputeDelta(desired, reported)
    ensures Outstanding(desired, reported, delta)
  {
    DeltaMeaning(desired, reported);
    if !desired.Object? { return Object(map[]); }
    if !reported.Object? { return desired; }
    var d, r := desired.fields, reported.fields;
    var fields: Fields := map[];
    var todo := d.Keys;
    while todo != {}
      invariant todo <= d.Keys
      invariant fields == map k | k in Missing(d, r) && k !in todo :: d[k]
      decreases |todo|
    {
      var key :| key in todo;
      todo := todo - {key};
      if !(key in r && r[key] == d[key]) {
        fields := fields[key := d[key]];
      }
    }
    assert fields == Missing(d, r);
    delta := Object(fields);
  }

  // ---- shadow updates ----

  function NextVersion(version: int): Option<int> { if version < I32_MAX then Some(version + 1) else None }

  function Stored(desired: Json, reported: Json, version: int): Result {
    match NextVersion(version)
    case Some(v) => Updated(Shadow(desired, reported, ComputeDelta(desired, reported), v))
    case None => VersionOverflow
  }

  function PatchDesired(s: Shadow, patch: Fields): Result {
    Stored(Object(Merge(FieldsOf(s.desired), patch)), ObjectOrEmpty(s.reported), s.version)
  }

  function PatchReported(s: Shadow, patch: Fields): Result {
    Stored(ObjectOrEmpty(s.desired), Object(Merge(FieldsOf(s.reported), patch)), s.version)
  }

  function ResetShadow(s: Shadow): Result { Stored(Object(map[]), Object(map[]), s.version) }

  /** One version up with a delta to match; refused exactly at the last version. */
  ghost predicate NextOf(before: Shadow, r: Result) {
    && (r.VersionOverflow? <==> before.version >= I32_MAX)
    && (r.Updated? ==> r.shadow.version == before.version + 1 && Outstanding(r.shadow.desired, r.shadow.reported, r.shadow.delta))
  }

  method ApplyDesiredPatch(shadow: Shadow, patch: Fields) returns (r: Result)
    ensures r == PatchDesired(shadow, patch)
    ensures NextOf(shadow, r)
    ensures r.Updated? ==> Patched(shadow.desired, r.shadow.desired, patch) && r.shadow.reported == ObjectOrEmpty(shadow.reported)
  {
    var s := shadow;
    var desired := MergeJson(ObjectOrEmpty(s.desired), patch);
    var reported := ObjectOrEmpty(s.reported);
    var delta := CompareJson(desired, reported);
    s := s.(delta := delta, desired := desired, reported := reported);
    var version := NextVersion(s.version);
    if version.None? { return VersionOverflow; }
    return Updated(s.(version := version.value));
  }

  method ApplyReportedPatch(shadow: Shadow, patch: Fields) returns (r: Result)
    ensures r == PatchReported(shadow, patch)
    ensures NextOf(shadow, r)
    ensures r.Updated? ==> Patched(shadow.reported, r.shadow.reported, patch) && r.shadow.desired == ObjectOrEmpty(shadow.desired)
  {
    var s := shadow;
    var desired := ObjectOrEmpty(s.desired);
    var reported := MergeJson(ObjectOrEmpty(s.reported), patch);
    var delta := CompareJson(desired, reported);
    s := s.(delta := delta, desired := desired, reported := reported);
    var version := NextVersion(s.version);
    if version.None? { return VersionOverflow; }
    return Updated(s.(version := version.value));
  }

  method ApplyReset(shadow: Shadow) returns (r: Result)
    ensures r == ResetShadow(shadow)
    ensures NextOf(shadow, r)
    ensures r.Updated? ==> r.shadow.desired == Object(map[]) && r.shadow.reported == Object(map[]) && r.shadow.delta == Object(map[])
  {
    var s := shadow.(desired := Object(map[]), reported := Object(map[]), delta := Object(map[]));
    var version := NextVersion(s.version);
    assert Missing(map[], map[]) == map[];
    if version.None? { return VersionOverflow; }
    return Updated(s.(version := version.value));
  }

  // ---- laws of merging ----

  predicate NullFree(fields: Fields) { forall k :: k in fields ==> fields[k] != Null }

  lemma MergeAt(base: Fields, patch: Fields, k: string)
    ensures k in Merge(base, patch) <==> (if k in patch then patch[k] != Null else k in base)
    ensures k in Merge(base, patch) ==> Merge(base, patch)[k] == if k in patch then patch[k] else base[k]
  {
  }

  /** Two merges in a row are one merge by the patch in which the later entries win. */
  lemma MergesCombine(base: Fields, first: Fields, second: Fields)
    ensures Merge(Merge(base, first), second) == Merge(base, first + second)
  {
    forall k
      ensures k in Merge(Merge(base, first), second) <==> k in Merge(base, first + second)
      ensures k in Merge(base, first + second) ==>
                k in Merge(Merge(base, first), second) && Merge(Merge(base, first), second)[k] == Merge(base, first + second)[k]
    {
      MergeAt(base, first, k);
      MergeAt(Merge(base, first), second, k);
      MergeAt(base, first + second, k);
    }
  }

  /**
   * A device that reports the outstanding part back has nothing outstanding, exactly when that part
   * holds no null: a null entry removes the key from the report instead of setting it.
   */
  lemma ReportingBackSettles(desired: Fields, reported: Fields)
    ensures Missing(desired, Merge(reported, Missing(desired, reported))) == map[] <==> NullFree(Missing(desired, reported))
  {
    var delta := Missing(desired, reported);
    var after := Merge(reported, delta);
    if NullFree(delta) {
      forall k | k in desired ensures k in after && after[k] == desired[k] {
        MergeAt(reported, delta, k);
      }
      assert Missing(desired, after) == map[];
    } else {
      var k :| k in delta && delta[k] == Null;
      MergeAt(reported, delta, k);
      assert k in Missing(desired, after);
    }
  }

  /** Nothing is outstanding exactly when every desired key is reported with its desired value. */
  lemma NothingMissing(desired: Fields, reported: Fields)
    ensures Missing(desired, reported) == map[] <==> (forall k :: k in desired ==> k in reported && reported[k] == desired[k])
  {
    if Missing(desired, reported) == map[] {
      forall k | k in desired ensures k in reported && reported[k] == desired[k] {
        assert k !in Missing(desired, reported);
      }
    }
    if forall k :: k in desired ==> k in reported && reported[k] == desired[k] {
      assert Missing(desired, reported) == map[];
    }
  }

  // ---- runs of one shadow ----

  datatype Change = Desire(patch: Fields) | Report(patch: Fields) | Reset

  function Step(s: Shadow, c: Change): Result {
    match c
    case Desire(p) => PatchDesired(s, p)
    case Report(p) => PatchReported(s, p)
    case Reset => ResetShadow(s)
  }

  /** A refused change leaves the row as it was. */
  function After(s: Shadow, c: Change): Shadow {
    match Step(s, c) case Updated(t) => t case VersionOverflow => s
  }

  function Run(s: Shadow, changes: seq<Change>): Shadow
    decreases |changes|
  {
    if changes == [] then s else After(Run(s, changes[..|changes| - 1]), changes[|changes| - 1])
  }

  /** Both sides are objects without nulls at the top, and the delta is what their comparison gives. */
  predicate Consistent(s: Shadow) {
    && s.desired.Object? && NullFree(s.desired.fields)
    && s.reported.Object? && NullFree(s.reported.fields)
    && s.delta == ComputeDelta(s.desired, s.reported)
    && s.version <= I32_MAX
  }

  lemma StepIsConsistent(s: Shadow, c: Change)
    requires Consistent(s)
    ensures Consistent(After(s, c))
  {
  }

  /** The desired document is the base merged once with everything desired since the last reset. */
  function Desired(base: Fields, changes: seq<Change>): (Fields, Fields)
    decreases |changes|
  {
    if changes == [] then (base, map[])
    else
      var (b, p) := Desired(base, changes[..|changes| - 1]);
      match changes[|changes| - 1]
      case Desire(q) => (b, p + q)
      case Report(_) => (b, p)
      case Reset => (map[], map[])
  }

  function Reported(base: Fields, changes: seq<Change>): (Fields, Fields)
    decreases |changes|
  {
    if changes == [] then (base, map[])
    else
      var (b, p) := Reported(base, changes[..|changes| - 1]);
      match changes[|changes| - 1]
      case Desire(_) => (b, p)
      case Report(q) => (b, p + q)
      case Reset => (map[], map[])
  }

  lemma MergeNothing(base: Fields)
    requires NullFree(base)
    ensures Merge(base, map[]) == base
  {
  }

  /** One change moves the row to the merge of one more patch. */
  lemma StepFollows(s: Shadow, c: Change, bd: Fields, pd: Fields, br: Fields, pr: Fields)
    requires Consistent(s) && s.version < I32_MAX
    requires s.desired.fields == Merge(bd, pd) && s.reported.fields == Merge(br, pr)
    ensures var t := After(s, c);
            && t.version == s.version + 1
            && t.desired == Object(if c.Desire? then Merge(bd, pd + c.patch) else if c.Reset? then map[] else Merge(bd, pd))
            && t.reported == Object(if c.Report? then Merge(br, pr + c.patch) else if c.Reset? then map[] else Merge(br, pr))
  {
    match c
    case Desire(p) => MergesCombine(bd, pd, p);
    case Report(p) => MergesCombine(br, pr, p);
    case Reset =>
  }

  /**
   * In every run that the version counter has room for: the row stays consistent, the version counts
   * the changes one by one, and each side is one merge of the patches since the last reset, in order.
   */
  lemma {:induction false} RunIsOneMerge(s: Shadow, changes: seq<Change>)
    requires Consistent(s) && s.version + |changes| <= I32_MAX
    ensures var t := Run(s, changes);
            && Consistent(t)
            && t.version == s.version + |changes|
            && t.desired.fields == Merge(Desired(s.desired.fields, changes).0, Desired(s.desired.fields, changes).1)
            && t.reported.fields == Merge(Reported(s.reported.fields, changes).0, Reported(s.reported.fields, changes).1)
    decreases |changes|
  {
    if changes == [] {
      MergeNothing(s.desired.fields);
      MergeNothing(s.reported.fields);
    } else {
      var front, c := changes[..|changes| - 1], changes[|changes| - 1];
      RunIsOneMerge(s, front);
      var (bd, pd) := Desired(s.desired.fields, front);
      var (br, pr) := Reported(s.reported.fields, front);
      StepFollows(Run(s, front), c, bd, pd, br, pr);
      StepIsConsistent(Run(s, front), c);
      MergeNothing(map[]);
    }
  }

  /** A row whose counter is exhausted refuses every change and stays as it is. */
  lemma {:induction false} ExhaustedRowIsFrozen(s: Shadow, changes: seq<Change>)
    requires s.version == I32_MAX
    ensures Run(s, changes) == s
    decreases |changes|
  {
    if changes != [] { ExhaustedRowIsFrozen(s, changes[..|changes| - 1]); }
  }

  /** In every run a device that reports the delta it was sent leaves an empty delta. */
  lemma DeviceConverges(s: Shadow, changes: seq<Change>)
    requires Consistent(s) && s.version + |changes| < I32_MAX
    ensures var t := Run(s, changes);
            && t.delta.Object?
            && After(t, Report(t.delta.fields)).delta == Object(map[])
            && After(t, Report(t.delta.fields)).desired == t.desired
  {
    RunIsOneMerge(s, changes);
    var t := Run(s, changes);
    ReportingBackSettles(t.desired.fields, t.reported.fields);
    assert NullFree(Missing(t.desired.fields, t.reported.fields));
  }
}
