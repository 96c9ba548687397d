/** JSON trees as the operator holds them, decoded into nested maps and lists, and the nested
    accessors of k8s.io/apimachinery through which the operator reads and edits them. */
module JsonTree {
  datatype Option<+T> = None | Some(value: T)

  datatype Json =
    | Null
    | Bool(b: bool)
    | Int(n: int)
    | Float(r: real)
    | Str(s: string)
    | List(items: seq<Json>)
    | Obj(fields: map<string, Json>)

  type Object = map<string, Json>
  type Path = seq<string>

  /** What a nested accessor returns: (value, true, nil), (nil, false, nil) or (nil, false, err). */
  datatype Access<+T> = Found(value: T) | Missing | Mismatch

  function Nested(j: Json, path: Path): Access<Json>
    decreases |path|
  {
    if path == [] then Found(j)
    else match j
      case Null => Missing
      case Obj(m) => if path[0] in m then Nested(m[path[0]], path[1..]) else Missing
      case _ => Mismatch
  }

  function NestedStr(o: Object, path: Path): Access<string> {
    match Nested(Obj(o), path)
    case Found(v) => if v.Str? then Found(v.s) else Mismatch
    case Missing => Missing
    case Mismatch => Mismatch
  }

  function NestedInt(o: Object, path: Path): Access<int> {
    match Nested(Obj(o), path)
    case Found(v) => if v.Int? then Found(v.n) else Mismatch
    case Missing => Missing
    case Mismatch => Mismatch
  }

  function NestedList(o: Object, path: Path): Access<seq<Json>> {
    match Nested(Obj(o), path)
    case Found(v) => if v.List? then Found(v.items) else Mismatch
    case Missing => Missing
    case Mismatch => Mismatch
  }

  function NestedObj(o: Object, path: Path): Access<Object> {
    match Nested(Obj(o), path)
    case Found(v) => if v.Obj? then Found(v.fields) else Mismatch
    case Missing => Missing
    case Mismatch => Mismatch
  }

  /** Sets the value at a path, creating the objects on the way; fails on a non-object on the way. */
  function SetNested(o: Object, path: Path, v: Json): (r: Option<Object>)
    requires path != []
    ensures o == map[] ==> r.Some?
    decreases |path|
  {
    if |path| == 1 then Some(o[path[0] := v])
    else
      var child := if path[0] in o then o[path[0]] else Obj(map[]);
      if !child.Obj? then None
      else
        match SetNested(child.fields, path[1..], v)
        case Some(m) => Some(o[path[0] := Obj(m)])
        case None => None
  }

  /** Removes the value at a path, and does nothing when the path does not lead through objects. */
  function RemoveNested(o: Object, path: Path): Object
    requires path != []
    decreases |path|
  {
    if |path| == 1 then o - {path[0]}
    else if path[0] in o && o[path[0]].Obj? then
      o[path[0] := Obj(RemoveNested(o[path[0]].fields, path[1..]))]
    else o
  }

  // Metadata accessors of unstructured objects. -------------------------------------------------

  function StringAt(o: Object, path: Path): string {
    match NestedStr(o, path) case Found(s) => s case _ => ""
  }

  /** A string map such as labels or annotations: null values read as "", and a value of any other
      type makes the whole map unreadable. */
  function StringMapAt(o: Object, path: Path): map<string, string> {
    match NestedObj(o, path)
    case Found(m) =>
      if forall k <- m :: m[k].Str? || m[k].Null?
      then map k | k in m :: if m[k].Str? then m[k].s else ""
      else map[]
    case _ => map[]
  }

  function SetStringMap(o: Object, path: Path, m: map<string, string>): Object
    requires path != []
  {
    match SetNested(o, path, Obj(Strs(m)))
    case Some(r) => r
    case None => o
  }

  function Kind(o: Object): string { StringAt(o, ["kind"]) }
  function ApiVersion(o: Object): string { StringAt(o, ["apiVersion"]) }
  function Name(o: Object): string { StringAt(o, ["metadata", "name"]) }
  function Namespace(o: Object): string { StringAt(o, ["metadata", "namespace"]) }
  function Labels(o: Object): map<string, string> { StringMapAt(o, ["metadata", "labels"]) }
  function Annotations(o: Object): map<string, string> { StringMapAt(o, ["metadata", "annotations"]) }

  function SetAnnotation(o: Object, key: string, value: string): Object {
    SetStringMap(o, ["metadata", "annotations"], Annotations(o)[key := value])
  }

  predicate HasAnnotation(o: Object, key: string, value: string) {
    key in Annotations(o) && Annotations(o)[key] == value
  }

  // Trees seen node by node. --------------------------------------------------------------------

  /** The node at a path: nothing, an object, or anything else with its value. */
  datatype Node = Absent | Branch | Leaf(value: Json)

  function NodeAt(j: Json, path: Path): Node {
    match Nested(j, path)
    case Found(v) => if v.Obj? then Branch else Leaf(v)
    case _ => Absent
  }

  /** Whether a subtree is present at a path, and which. */
  function Lookup(j: Json, path: Path): Option<Json> {
    match Nested(j, path)
    case Found(v) => Some(v)
    case _ => None
  }

  lemma FieldAt(o: Object, k: string)
    ensures Nested(Obj(o), [k]) == if k in o then Found(o[k]) else Missing
  {
    if k in o { assert Nested(o[k], [k][1..]) == Found(o[k]); }
  }

  lemma FieldOfField(o: Object, k: string, f: string)
    requires k in o && o[k].Obj?
    ensures Nested(Obj(o), [k, f]) == Nested(o[k], [f])
  {
    assert [k, f][1..] == [f];
  }

  lemma {:induction false} NestedStep(j: Json, p: Path, q: Path)
    ensures Nested(j, p).Found? ==> Nested(j, p + q) == Nested(Nested(j, p).value, q)
    ensures !Nested(j, p).Found? ==> !Nested(j, p + q).Found?
    decreases |p|
  {
    if p == [] {
      assert p + q == q;
    } else if j.Obj? && p[0] in j.fields {
      NestedStep(j.fields[p[0]], p[1..], q);
      assert (p + q)[1..] == p[1..] + q;
    } else {
      assert (p + q)[0] == p[0];
    }
  }

  lemma {:induction false} MissingBelow(j: Json, p: Path, q: Path)
    ensures Nested(j, p).Missing? ==> Nested(j, p + q).Missing?
    decreases |p|
  {
    if p != [] && j.Obj? && p[0] in j.fields {
      MissingBelow(j.fields[p[0]], p[1..], q);
      assert (p + q)[1..] == p[1..] + q;
    } else if p != [] {
      assert (p + q)[0] == p[0];
    }
  }

  /** A nested read is an error exactly when something that is neither an object nor null lies on the way. */
  lemma {:induction false} MismatchIff(j: Json, p: Path)
    ensures Nested(j, p).Mismatch? <==>
            exists q: Path :: q < p && NodeAt(j, q).Leaf? && NodeAt(j, q).value != Null
    decreases |p|
  {
    if p != [] {
      assert NodeAt(j, []) == if j.Obj? then Branch else Leaf(j);
      assert [] < p;
      if j.Obj? && p[0] in j.fields {
        var rest := p[1..];
        MismatchIff(j.fields[p[0]], rest);
        forall q: Path | q < p && q != [] ensures q[1..] < rest && NodeAt(j, q) == NodeAt(j.fields[p[0]], q[1..]) {
          assert q[0] == p[0];
        }
        forall q: Path | q < rest ensures [p[0]] + q < p && ([p[0]] + q)[1..] == q {
          assert p == [p[0]] + rest;
        }
        if q: Path :| q < rest && NodeAt(j.fields[p[0]], q).Leaf? && NodeAt(j.fields[p[0]], q).value != Null {
          assert NodeAt(j, [p[0]] + q) == NodeAt(j.fields[p[0]], q);
        }
      } else if j.Obj? {
        forall q: Path | q < p && q != [] ensures NodeAt(j, q) == Absent { assert q[0] == p[0]; }
      } else {
        forall q: Path | q < p && q != [] ensures NodeAt(j, q) == Absent {}
      }
    }
  }

  /** A present node below a path is reached through an object at that path. */
  lemma BranchAbove(j: Json, p: Path, q: Path)
    requires p < q && Nested(j, q).Found?
    ensures NodeAt(j, p) == Branch
  {
    NestedStep(j, p, q[|p|..]);
    assert p + q[|p|..] == q;
  }

  /** A tree is determined by its nodes. */
  lemma {:induction false} SameNodesSameTree(a: Json, b: Json)
    requires forall q: Path :: NodeAt(a, q) == NodeAt(b, q)
    ensures a == b
    decreases a
  {
    assert NodeAt(a, []) == NodeAt(b, []);
    if a.Obj? {
      forall k ensures (k in a.fields) == (k in b.fields)
      {
        assert NodeAt(a, [k]) == NodeAt(b, [k]);
        assert k in a.fields <==> Nested(a, [k]).Found?;
        assert k in b.fields <==> Nested(b, [k]).Found?;
      }
      forall k | k in a.fields ensures a.fields[k] == b.fields[k]
      {
        forall q: Path ensures NodeAt(a.fields[k], q) == NodeAt(b.fields[k], q)
        {
          assert ([k] + q)[1..] == q;
          assert NodeAt(a, [k] + q) == NodeAt(b, [k] + q);
        }
        SameNodesSameTree(a.fields[k], b.fields[k]);
      }
    }
  }

  /** Two trees whose nodes agree at and below a path hold the same subtree there, or none. */
  lemma SameNodesSameSubtree(a: Json, b: Json, p: Path)
    requires forall q: Path :: p <= q ==> NodeAt(a, q) == NodeAt(b, q)
    ensures Lookup(a, p) == Lookup(b, p)
  {
    assert NodeAt(a, p) == NodeAt(b, p);
    if Lookup(a, p).Some? {
      var x, y := Lookup(a, p).value, Lookup(b, p).value;
      forall q: Path ensures NodeAt(x, q) == NodeAt(y, q)
      {
        NestedStep(a, p, q);
        NestedStep(b, p, q);
        assert NodeAt(a, p + q) == NodeAt(b, p + q);
      }
      SameNodesSameTree(x, y);
    }
  }

  /** Every node of a tree after a successful set. */
  lemma {:induction false} SetNodes(o: Object, p: Path, v: Json, q: Path)
    requires p != [] && SetNested(o, p, v).Some?
    ensures var r := Obj(SetNested(o, p, v).value);
            NodeAt(r, q) == if p <= q then NodeAt(v, q[|p|..])
                            else if q < p then Branch
                            else NodeAt(Obj(o), q)
    decreases |p|
  {
    if q != [] && q[0] == p[0] {
      if |p| == 1 {
        assert p <= q;
        assert q[|p|..] == q[1..];
      } else {
        var child := if p[0] in o then o[p[0]] else Obj(map[]);
        SetNodes(child.fields, p[1..], v, q[1..]);
        assert p <= q <==> p[1..] <= q[1..];
        assert q < p <==> q[1..] < p[1..];
        if p <= q {
          assert q[|p|..] == q[1..][|p[1..]|..];
        }
        if p[0] !in o && q[1..] == [] {
          assert q < p;
        }
      }
    } else if q == [] {
      assert q < p;
    }
  }

  lemma SetLookup(o: Object, p: Path, v: Json, q: Path)
    requires p != [] && !(p <= q) && !(q <= p)
    ensures SetNested(o, p, v).Some? ==> Lookup(Obj(SetNested(o, p, v).value), q) == Lookup(Obj(o), q)
  {
    if SetNested(o, p, v).Some? {
      var r := Obj(SetNested(o, p, v).value);
      forall x: Path | q <= x ensures NodeAt(r, x) == NodeAt(Obj(o), x)
      {
        SetNodes(o, p, v, x);
        assert p <= x && |p| <= |q| ==> p <= q;
        assert p <= x && |q| <= |p| ==> q <= p;
      }
      SameNodesSameSubtree(r, Obj(o), q);
    }
  }

  /** A set succeeds exactly when nothing but objects lies on the way. */
  lemma {:induction false} SetSucceedsIff(o: Object, p: Path, v: Json)
    requires p != []
    ensures SetNested(o, p, v).Some? <==> forall q: Path :: q < p && q != [] ==> !NodeAt(Obj(o), q).Leaf?
    decreases |p|
  {
    if |p| > 1 {
      var child := if p[0] in o then o[p[0]] else Obj(map[]);
      FieldAt(o, p[0]);
      assert NodeAt(Obj(o), [p[0]]) == if p[0] in o then NodeAt(child, []) else Absent;
      assert [p[0]] < p;
      if child.Obj? {
        SetSucceedsIff(child.fields, p[1..], v);
        forall q: Path | q < p && q != []
          ensures p[0] in o ==> NodeAt(Obj(o), q) == NodeAt(child, q[1..])
          ensures p[0] !in o ==> NodeAt(Obj(o), q) == Absent
          ensures q[1..] < p[1..]
        {
          assert q[0] == p[0];
        }
        forall q: Path | q < p[1..]
          ensures [p[0]] + q < p && ([p[0]] + q)[1..] == q
        {
          assert p == [p[0]] + p[1..];
        }
        if SetNested(o, p, v).None? {
          var q: Path :| q < p[1..] && q != [] && NodeAt(child, q).Leaf?;
          assert NodeAt(Obj(o), [p[0]] + q).Leaf?;
        }
      }
    }
  }

  /** Every node of a tree after a removal. */
  lemma {:induction false} RemoveNodes(o: Object, p: Path, q: Path)
    requires p != []
    ensures NodeAt(Obj(RemoveNested(o, p)), q) == if p <= q then Absent else NodeAt(Obj(o), q)
    decreases |p|
  {
    if q != [] && q[0] == p[0] {
      if |p| == 1 {
        assert p <= q;
      } else {
        assert p <= q <==> p[1..] <= q[1..];
        if p[0] in o && o[p[0]].Obj? {
          RemoveNodes(o[p[0]].fields, p[1..], q[1..]);
        } else if p <= q && p[0] in o {
          assert !Nested(o[p[0]], q[1..]).Found?;
        }
      }
    }
  }

  lemma {:induction false} SetPresentValue(o: Object, p: Path)
    requires p != [] && Nested(Obj(o), p).Found?
    ensures SetNested(o, p, Nested(Obj(o), p).value) == Some(o)
    decreases |p|
  {
    if |p| > 1 {
      assert p[1..] != [];
      assert o[p[0]].Obj?;
      SetPresentValue(o[p[0]].fields, p[1..]);
      assert o[p[0] := o[p[0]]] == o;
    } else {
      assert Nested(o[p[0]], p[1..]) == Found(o[p[0]]);
      assert o[p[0] := o[p[0]]] == o;
    }
  }

  lemma {:induction false} RemoveAbsentValue(o: Object, p: Path)
    requires p != [] && !Nested(Obj(o), p).Found?
    ensures RemoveNested(o, p) == o
    decreases |p|
  {
    if |p| == 1 {
      assert p[1..] == [];
    } else if p[0] in o && o[p[0]].Obj? {
      RemoveAbsentValue(o[p[0]].fields, p[1..]);
      assert o[p[0] := o[p[0]]] == o;
    }
  }

  function Strs(m: map<string, string>): Object { map k | k in m :: Str(m[k]) }

  lemma SetMetadata(o: Object, section: string, m: map<string, string>)
    requires "metadata" in o && o["metadata"].Obj?
    ensures SetStringMap(o, ["metadata", section], m)
            == o["metadata" := Obj(o["metadata"].fields[section := Obj(Strs(m))])]
  {
    var path := ["metadata", section];
    assert path[1..] == [section];
    var fields := o["metadata"].fields;
    assert SetNested(fields, [section], Obj(Strs(m))) == Some(fields[section := Obj(Strs(m))]);
    assert SetNested(o, path, Obj(Strs(m))) == Some(o["metadata" := Obj(fields[section := Obj(Strs(m))])]);
  }

  /** A string map reads back as it was written, whatever stood there before. */
  lemma StringMapRoundTrip(o: Object, section: string, m: map<string, string>)
    requires "metadata" in o && o["metadata"].Obj?
    ensures StringMapAt(SetStringMap(o, ["metadata", section], m), ["metadata", section]) == m
  {
    SetMetadata(o, section, m);
    var r := SetStringMap(o, ["metadata", section], m);
    FieldOfField(r, "metadata", section);
    FieldAt(r["metadata"].fields, section);
    assert NestedObj(r, ["metadata", section]) == Found(Strs(m));
  }

  /** An object with a name has a metadata object. */
  lemma NamedHasMetadata(o: Object)
    requires Name(o) != ""
    ensures "metadata" in o && o["metadata"].Obj?
  {
    assert ["metadata", "name"][1..] == ["name"];
  }

  lemma AnnotationRoundTrip(o: Object, key: string, value: string)
    requires Name(o) != ""
    ensures Annotations(SetAnnotation(o, key, value)) == Annotations(o)[key := value]
  {
    NamedHasMetadata(o);
    StringMapRoundTrip(o, "annotations", Annotations(o)[key := value]);
  }

  /** A label or annotation is a string, or a null for the empty string, in a map in which everything is either. */
  lemma StringMapEntry(o: Object, section: string, key: string, value: string)
    ensures var m, node := StringMapAt(o, ["metadata", section]), NodeAt(Obj(o), ["metadata", section, key]);
            key in m && m[key] == value <==>
            MapReadable(o, section) && (node == Leaf(Str(value)) || (value == "" && node == Leaf(Null)))
  {
    NestedStep(Obj(o), ["metadata", section], [key]);
    assert ["metadata", section] + [key] == ["metadata", section, key];
    if NestedObj(o, ["metadata", section]).Found? { FieldAt(NestedObj(o, ["metadata", section]).value, key); }
  }

  predicate MapReadable(o: Object, section: string) {
    && NestedObj(o, ["metadata", section]).Found?
    && var m := NestedObj(o, ["metadata", section]).value; forall k <- m :: m[k].Str? || m[k].Null?
  }

  /** Same kind, apiVersion, name and namespace. */
  predicate SameIdentity(a: Object, b: Object) {
    Kind(a) == Kind(b) && ApiVersion(a) == ApiVersion(b) && Name(a) == Name(b) && Namespace(a) == Namespace(b)
  }

  /** Setting labels or annotations changes nothing else that identifies or labels an object. */
  lemma StringMapKeepsRest(o: Object, section: string, m: map<string, string>)
    requires section in {"labels", "annotations"}
    ensures SameIdentity(SetStringMap(o, ["metadata", section], m), o)
    ensures section != "labels" ==> Labels(SetStringMap(o, ["metadata", section], m)) == Labels(o)
  {
    SetKeepsReads(o, section, m, ["kind"]);
    SetKeepsReads(o, section, m, ["apiVersion"]);
    SetKeepsReads(o, section, m, ["metadata", "name"]);
    SetKeepsReads(o, section, m, ["metadata", "namespace"]);
    if section != "labels" { SetKeepsReads(o, section, m, ["metadata", "labels"]); }
  }

  lemma SetKeepsReads(o: Object, section: string, m: map<string, string>, q: Path)
    requires 0 < |q| <= 2 && (q[0] != "metadata" || (|q| == 2 && q[1] != section))
    ensures var r := SetStringMap(o, ["metadata", section], m);
            StringAt(r, q) == StringAt(o, q) && StringMapAt(r, q) == StringMapAt(o, q)
  {
    var path: Path := ["metadata", section];
    SetLookup(o, path, Obj(Strs(m)), q);
    var r := SetStringMap(o, path, m);
    assert Lookup(Obj(r), q) == Lookup(Obj(o), q);
  }

  lemma AnnotationKeepsRest(o: Object, key: string, value: string)
    ensures SameIdentity(SetAnnotation(o, key, value), o) && Labels(SetAnnotation(o, key, value)) == Labels(o)
  {
    StringMapKeepsRest(o, "annotations", Annotations(o)[key := value]);
  }

  /** Setting labels or annotations changes no node outside them. */
  lemma StringMapNodes(o: Object, section: string, m: map<string, string>, q: Path)
    requires Name(o) != "" && !(["metadata", section] <= q)
    ensures NodeAt(Obj(SetStringMap(o, ["metadata", section], m)), q) == NodeAt(Obj(o), q)
  {
    NamedHasMetadata(o);
    var path := ["metadata", section];
    SetMetadata(o, section, m);
    if SetNested(o, path, Obj(Strs(m))).Some? {
      SetNodes(o, path, Obj(Strs(m)), q);
      if q < path {
        FieldAt(o, "metadata");
        assert q == [] || q == ["metadata"];
      }
    }
  }

  /** A string is a node. */
  lemma StringNode(o: Object, q: Path)
    ensures StringAt(o, q) == match NodeAt(Obj(o), q) case Leaf(v) => (if v.Str? then v.s else "") case _ => ""
  {}
}
