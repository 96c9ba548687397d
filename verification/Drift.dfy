/** Drift detection: pkg/engine/drift.go. */
module Drift {
  import opened JsonTree

  const KEPT_METADATA: set<string> := {"name", "namespace", "labels", "annotations"}

  function Change(live: Json, desired: Json): Json { Obj(map["live" := live, "desired" := desired]) }

  /** The fields that differ, nested where both sides hold objects. */
  function Diff(live: Json, desired: Json): Object
    requires live.Obj? && desired.Obj?
    decreases live, 1
  {
    map k | k in live.fields.Keys + desired.fields.Keys && DiffOf(live, desired, k).Some? ::
      DiffOf(live, desired, k).value
  }

  /** What the diff says about one field, if anything. */
  function DiffOf(live: Json, desired: Json, k: string): Option<Json>
    requires live.Obj? && desired.Obj?
    decreases live, 0
  {
    var a, b := live.fields, desired.fields;
    if k in a && k in b then
      if a[k].Obj? && b[k].Obj? then
        var sub := Diff(a[k], b[k]);
        if sub == map[] then None else Some(Obj(sub))
      else if a[k] == b[k] then None
      else Some(Change(a[k], b[k]))
    else if k in a then Some(Change(a[k], Null))
    else if k in b then Some(Change(Null, b[k]))
    else None
  }

  method StructuredDiff(live: Object, desired: Object) returns (result: Object)
    ensures result == Diff(Obj(live), Obj(desired))
    decreases Obj(live), 1
  {
    result := map[];
    var todo := live.Keys;
    while todo != {}
      invariant todo <= live.Keys && result.Keys <= live.Keys - todo
      invariant forall k :: k in live && k !in todo ==> Agrees(result, live, desired, k)
      decreases |todo|
    {
      var k :| k in todo;
      todo := todo - {k};
      var entry := DiffField(live, desired, k);
      if entry.Some? {
        result := result[k := entry.value];
      }
    }
    result := AddDesiredOnly(live, desired, result);
    AgreesEverywhere(live, desired, result);
  }

  /** The loop over the desired fields. */
  method AddDesiredOnly(live: Object, desired: Object, fromLive: Object) returns (result: Object)
    requires fromLive.Keys <= live.Keys
    requires forall k :: k in live ==> Agrees(fromLive, live, desired, k)
    ensures result.Keys <= live.Keys + desired.Keys
    ensures forall k :: k in live.Keys + desired.Keys ==> Agrees(result, live, desired, k)
  {
    result := fromLive;
    var todo := desired.Keys;
    while todo != {}
      invariant todo <= desired.Keys && result.Keys <= live.Keys + (desired.Keys - todo)
      invariant forall k :: k in live || (k in desired && k !in todo) ==> Agrees(result, live, desired, k)
      decreases |todo|
    {
      var k :| k in todo;
      todo := todo - {k};
      if k !in live {
        result := result[k := Change(Null, desired[k])];
      }
    }
  }

  lemma AgreesEverywhere(live: Object, desired: Object, result: Object)
    requires result.Keys <= live.Keys + desired.Keys
    requires forall k :: k in live.Keys + desired.Keys ==> Agrees(result, live, desired, k)
    ensures result == Diff(Obj(live), Obj(desired))
  {}

  predicate Agrees(result: Object, live: Object, desired: Object, k: string) {
    Get(result, k) == DiffOf(Obj(live), Obj(desired), k)
  }

  /** One turn of the loop over the live fields. */
  method DiffField(live: Object, desired: Object, k: string) returns (entry: Option<Json>)
    requires k in live
    ensures entry == DiffOf(Obj(live), Obj(desired), k)
    decreases Obj(live), 0
  {
    if k !in desired {
      return Some(Change(live[k], Null));
    }
    if live[k].Obj? && desired[k].Obj? {
      var sub := StructuredDiff(live[k].fields, desired[k].fields);
      return if |sub| > 0 then Some(Obj(sub)) else None;
    }
    return if live[k] != desired[k] then Some(Change(live[k], desired[k])) else None;
  }

  function Get(o: Object, k: string): Option<Json> { if k in o then Some(o[k]) else None }

  /** The diff is empty exactly when the trees are equal. */
  lemma {:induction false} DiffEmptyIffEqual(live: Json, desired: Json)
    requires live.Obj? && desired.Obj?
    ensures Diff(live, desired) == map[] <==> live == desired
    decreases live
  {
    var a, b, d := live.fields, desired.fields, Diff(live, desired);
    forall k ensures DiffOf(live, desired, k).Some? <==> Get(a, k) != Get(b, k)
    {
      if k in a && k in b && a[k].Obj? && b[k].Obj? { DiffEmptyIffEqual(a[k], b[k]); }
    }
    forall k ensures k in d <==> Get(a, k) != Get(b, k) {}
    if d == map[] {
      assert forall k :: Get(a, k) == Get(b, k);
      assert forall k :: (k in a <==> Get(a, k).Some?) && (k in b <==> Get(b, k).Some?);
      assert a == b;
    }
  }

  /** Where both trees hold objects on the way, the diff has an entry at a path exactly when the two
      subtrees there differ in presence or value. */
  lemma {:induction false} DiffAtPath(live: Json, desired: Json, p: Path)
    requires live.Obj? && desired.Obj? && p != []
    requires forall q: Path :: q < p ==> NodeAt(live, q) == NodeAt(desired, q) == Branch
    ensures Nested(Obj(Diff(live, desired)), p).Found? <==> Lookup(live, p) != Lookup(desired, p)
    decreases |p|
  {
    var k, rest, d := p[0], p[1..], Diff(live, desired);
    var a, b := live.fields, desired.fields;
    assert p == [k] + rest;
    assert k in d <==> DiffOf(live, desired, k).Some?;
    FieldAt(a, k);
    FieldAt(b, k);
    if rest == [] {
      FieldAt(d, k);
      if k in a && k in b && a[k].Obj? && b[k].Obj? { DiffEmptyIffEqual(a[k], b[k]); }
    } else {
      assert [k] < p;
      assert NodeAt(live, [k]) == NodeAt(desired, [k]) == Branch;
      DiffEmptyIffEqual(a[k], b[k]);
      if k in d {
        forall q: Path | q < rest ensures NodeAt(a[k], q) == NodeAt(b[k], q) == Branch
        {
          assert ([k] + q)[1..] == q && [k] + q < [k] + rest;
          assert NodeAt(live, [k] + q) == NodeAt(desired, [k] + q) == Branch;
        }
        DiffAtPath(a[k], b[k], rest);
      }
    }
  }

  function OrNull(v: Option<Json>): Json { if v.Some? then v.value else Null }

  /** And unless both subtrees are objects, the entry shows the live one and the desired one, null for an absent one. */
  lemma {:induction false} DiffShows(live: Json, desired: Json, p: Path)
    requires live.Obj? && desired.Obj? && p != []
    requires forall q: Path :: q < p ==> NodeAt(live, q) == NodeAt(desired, q) == Branch
    requires Lookup(live, p) != Lookup(desired, p) && !(NodeAt(live, p).Branch? && NodeAt(desired, p).Branch?)
    ensures Lookup(Obj(Diff(live, desired)), p) ==
            Some(Obj(map["live" := OrNull(Lookup(live, p)), "desired" := OrNull(Lookup(desired, p))]))
    decreases |p|
  {
    var k, rest, d := p[0], p[1..], Diff(live, desired);
    var a, b := live.fields, desired.fields;
    assert p == [k] + rest;
    FieldAt(a, k);
    FieldAt(b, k);
    FieldAt(d, k);
    if rest != [] {
      assert [k] < p;
      assert NodeAt(live, [k]) == NodeAt(desired, [k]) == Branch;
      DiffEmptyIffEqual(a[k], b[k]);
      forall q: Path | q < rest ensures NodeAt(a[k], q) == NodeAt(b[k], q) == Branch
      {
        assert ([k] + q)[1..] == q && [k] + q < [k] + rest;
        assert NodeAt(live, [k] + q) == NodeAt(desired, [k] + q) == Branch;
      }
      DiffShows(a[k], b[k], rest);
    }
  }

  // Sanitizing. ---------------------------------------------------------------------------------

  function Sanitized(o: Object): Object {
    (if "metadata" in o && o["metadata"].Obj?
     then o["metadata" := Obj(map k | k in o["metadata"].fields && k in KEPT_METADATA :: o["metadata"].fields[k])]
     else o) - {"status"}
  }

  method SanitizeObject(o: Object) returns (sanitized: Object)
    ensures sanitized == Sanitized(o)
  {
    sanitized := o;
    if "metadata" in sanitized && sanitized["metadata"].Obj? {
      var metadata := sanitized["metadata"].fields;
      var sanitizedMetadata: Object := map[];
      var todo := metadata.Keys;
      while todo != {}
        invariant todo <= metadata.Keys
        invariant sanitizedMetadata.Keys == (metadata.Keys - todo) * KEPT_METADATA
        invariant forall k :: k in sanitizedMetadata ==> sanitizedMetadata[k] == metadata[k]
      {
        var key :| key in todo;
        todo := todo - {key};
        if key in KEPT_METADATA {
          sanitizedMetadata := sanitizedMetadata[key := metadata[key]];
        }
      }
      assert sanitizedMetadata == map k | k in metadata && k in KEPT_METADATA :: metadata[k];
      sanitized := sanitized["metadata" := Obj(sanitizedMetadata)];
    }
    sanitized := sanitized - {"status"};
  }

  /** Whether applying would change the live object: `dryRun` is what the server would store. */
  predicate HasDrift(dryRun: Object, live: Object) { Sanitized(dryRun) != Sanitized(live) }

  ghost predicate SameAt(a: Object, b: Object, p: Path) {
    Lookup(Obj(a), p) == Lookup(Obj(b), p)
  }

  /** Equal but for status and for metadata other than name, namespace, labels and annotations. */
  ghost predicate SameIntent(a: Object, b: Object) {
    && (forall k: string :: k != "status" && k != "metadata" ==> SameAt(a, b, [k]))
    && (if NodeAt(Obj(a), ["metadata"]) == NodeAt(Obj(b), ["metadata"]) == Branch
        then forall k <- {"name", "namespace", "labels", "annotations"} :: SameAt(a, b, ["metadata", k])
        else SameAt(a, b, ["metadata"]))
  }

  /** No drift is reported, and the logged diff is empty, exactly for objects of the same intent. */
  lemma DriftIffIntentDiffers(dryRun: Object, live: Object)
    ensures HasDrift(dryRun, live) <==> !SameIntent(dryRun, live)
    ensures HasDrift(dryRun, live) <==> Diff(Obj(Sanitized(live)), Obj(Sanitized(dryRun))) != map[]
  {
    DiffEmptyIffEqual(Obj(Sanitized(live)), Obj(Sanitized(dryRun)));
    SanitizedSameIntent(dryRun, live);
  }

  lemma SanitizedSameIntent(a: Object, b: Object)
    ensures Sanitized(a) == Sanitized(b) <==> SameIntent(a, b)
  {
    var x, y := Sanitized(a), Sanitized(b);
    FieldAt(a, "metadata");
    FieldAt(b, "metadata");
    forall k: string | k != "status" && k != "metadata"
      ensures SameAt(a, b, [k]) <==> (k in x <==> k in y) && (k in x && k in y ==> x[k] == y[k])
    {
      FieldAt(a, k);
      FieldAt(b, k);
    }
    MetadataSameIntent(a, b);
    if SameIntent(a, b) {
      forall k: string ensures (k in x <==> k in y) && (k in x && k in y ==> x[k] == y[k])
      {
        if k != "status" && k != "metadata" { assert SameAt(a, b, [k]); }
      }
      assert x == y;
    }
  }

  lemma MetadataSameIntent(a: Object, b: Object)
    ensures var x, y, m := Sanitized(a), Sanitized(b), "metadata";
            (if NodeAt(Obj(a), [m]) == NodeAt(Obj(b), [m]) == Branch
             then forall k <- {"name", "namespace", "labels", "annotations"} :: SameAt(a, b, [m, k])
             else SameAt(a, b, [m]))
            <==> ((m in x <==> m in y) && (m in x && m in y ==> x[m] == y[m]))
  {
    var x, y, m := Sanitized(a), Sanitized(b), "metadata";
    FieldAt(a, m);
    FieldAt(b, m);
    if m in a && m in b && a[m].Obj? && b[m].Obj? {
      var s, t := x[m].fields, y[m].fields;
      forall k | k in KEPT_METADATA
        ensures SameAt(a, b, [m, k]) <==> (k in s <==> k in t) && (k in s && k in t ==> s[k] == t[k])
      {
        FieldOfField(a, m, k);
        FieldOfField(b, m, k);
        FieldAt(a[m].fields, k);
        FieldAt(b[m].fields, k);
      }
      if forall k <- KEPT_METADATA :: SameAt(a, b, [m, k]) {
        assert s == t;
      }
    }
  }
}
