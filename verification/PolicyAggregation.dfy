/** The aggregate node disruption policy: nodeDisruptionPolicyAggregateEntries and what it calls in
    pkg/engine/node_disruption_policy.go. */
module PolicyAggregation {
  import opened JsonTree
  import opened Sorting
  import opened NodeDisruptionPolicy

  datatype Render = RenderFailed | RenderedEmpty | Rendered(manifest: Object)

  /** An asset that may depend on a node disruption policy, with both templates rendered. */
  datatype Asset = Asset(name: string, hasPolicy: bool, dependent: Render, policy: Render)

  /** Which assets are active, and which resources (kind, namespace, name) are root-excluded. */
  datatype Scope = Scope(active: set<string>, excluded: (string, string, string) -> bool)

  function WantedPolicy(policy: Render): Wanted {
    match policy
    case RenderFailed => WantError
    case RenderedEmpty => WantNothing
    case Rendered(p) =>
      if ApiVersion(p) != CONFIGURATION_API_VERSION || Kind(p) != CONFIGURATION_KIND || Name(p) != CONFIGURATION_NAME
      then WantError
      else match NestedObj(p, ["spec", "nodeDisruptionPolicy"]) case Found(want) => Want(want) case _ => WantError
  }

  datatype Candidate = Skip | Bad | Use(want: Object)

  function CandidateOf(asset: Asset, scope: Scope): Candidate {
    if !asset.hasPolicy || asset.name !in scope.active || asset.dependent.RenderedEmpty? then Skip
    else if asset.dependent.RenderFailed? then Bad
    else
      var dependent := asset.dependent.manifest;
      if scope.excluded(Kind(dependent), Namespace(dependent), Name(dependent)) then Skip
      else
        match WantedPolicy(asset.policy)
        case Want(want) => if Covers(want, dependent) then Use(want) else Bad
        case _ => Bad
  }

  // The three parts of a policy, each a list of keyed entries. -----------------------------------

  datatype Part = Files | Units | SshKey {
    function AsKeyed(): Keyed
      requires !SshKey?
    {
      if Files? then FILES else UNITS
    }
  }

  type Entries = map<string, Object>

  predicate WellKeyed(entry: Json, id: string) {
    entry.Obj? && NestedStr(entry.fields, [id]).Found? && NestedStr(entry.fields, [id]).value != ""
  }

  function KeyedPairs(list: seq<Json>, id: string): Option<seq<(string, Object)>> {
    if list == [] then Some([])
    else
      var last := list[|list| - 1];
      match KeyedPairs(list[..|list| - 1], id)
      case None => None
      case Some(pairs) =>
        if WellKeyed(last, id) then Some(pairs + [(NestedStr(last.fields, [id]).value, last.fields)]) else None
  }

  /** The entries a policy has for a part; None where the source reports it malformed. */
  function Pairs(want: Object, part: Part): Option<seq<(string, Object)>> {
    if part.SshKey? then
      match NestedObj(want, ["sshkey"])
      case Mismatch => None
      case Missing => Some([])
      case Found(key) => Some([("sshkey", key)])
    else
      match NestedList(want, [part.AsKeyed().field])
      case Mismatch => None
      case Missing => Some([])
      case Found(list) => KeyedPairs(list, part.AsKeyed().id)
  }

  /** Adds entries one by one; two different entries for a key are a conflict. */
  function MergePairs(destination: Entries, pairs: seq<(string, Object)>): Option<Entries> {
    if pairs == [] then Some(destination)
    else
      var (key, entry) := pairs[|pairs| - 1];
      match MergePairs(destination, pairs[..|pairs| - 1])
      case None => None
      case Some(d) => if key in d && d[key] != entry then None else Some(d[key := entry])
  }

  function MergePart(destination: Entries, want: Object, part: Part): Option<Entries> {
    match Pairs(want, part)
    case None => None
    case Some(pairs) => MergePairs(destination, pairs)
  }

  function PartOf(assets: seq<Asset>, scope: Scope, part: Part): Option<Entries> {
    if assets == [] then Some(map[])
    else
      match PartOf(assets[..|assets| - 1], scope, part)
      case None => None
      case Some(d) =>
        match CandidateOf(assets[|assets| - 1], scope)
        case Skip => Some(d)
        case Bad => None
        case Use(want) => MergePart(d, want, part)
  }

  datatype Aggregate = Aggregate(files: Entries, units: Entries, sshKey: Entries) {
    function Get(part: Part): Entries {
      match part case Files => files case Units => units case SshKey => sshKey
    }
  }

  function Aggregated(assets: seq<Asset>, scope: Scope): Option<Aggregate> {
    var f, u, k := PartOf(assets, scope, Files), PartOf(assets, scope, Units), PartOf(assets, scope, SshKey);
    if f.Some? && u.Some? && k.Some? then Some(Aggregate(f.value, u.value, k.value)) else None
  }

  ghost function ListInOrder(entries: Entries, keys: seq<string>): seq<Json>
    requires forall k <- keys :: k in entries
  {
    if keys == [] then [] else ListInOrder(entries, keys[..|keys| - 1]) + [Obj(entries[keys[|keys| - 1]])]
  }

  ghost function SortedEntries(entries: Entries): seq<Json> { ListInOrder(entries, InOrder(entries.Keys)) }

  /** The nodeDisruptionPolicy object that is applied. */
  ghost function PolicyObject(a: Aggregate): Object {
    var lists := map["files" := List(SortedEntries(a.files)), "units" := List(SortedEntries(a.units))];
    if "sshkey" in a.sshKey then lists["sshkey" := Obj(a.sshKey["sshkey"])] else lists
  }

  // The loops of the source. ---------------------------------------------------------------------

  /** The entries of a list merged as they are read. */
  function MergeList(destination: Entries, list: seq<Json>, id: string): Option<Entries> {
    if list == [] then Some(destination)
    else
      var last := list[|list| - 1];
      match MergeList(destination, list[..|list| - 1], id)
      case None => None
      case Some(d) =>
        if !WellKeyed(last, id) then None
        else
          var key := NestedStr(last.fields, [id]).value;
          if key in d && d[key] != last.fields then None else Some(d[key := last.fields])
  }

  lemma {:induction false} MergeListByPairs(destination: Entries, list: seq<Json>, id: string)
    ensures MergeList(destination, list, id) ==
            match KeyedPairs(list, id) case None => None case Some(pairs) => MergePairs(destination, pairs)
  {
    if list != [] {
      MergeListByPairs(destination, list[..|list| - 1], id);
      if KeyedPairs(list, id).Some? {
        var pairs := KeyedPairs(list, id).value;
        assert pairs[..|pairs| - 1] == KeyedPairs(list[..|list| - 1], id).value;
      }
    }
  }

  lemma {:induction false} MergeFailureIsFinal(destination: Entries, list: seq<Json>, i: nat, id: string)
    requires i <= |list| && MergeList(destination, list[..i], id).None?
    ensures MergeList(destination, list, id).None?
    decreases |list|
  {
    if i == |list| {
      assert list[..i] == list;
    } else {
      assert list[..|list| - 1][..i] == list[..i];
      MergeFailureIsFinal(destination, list[..|list| - 1], i, id);
    }
  }

  method MergeEntryList(destination: Entries, list: seq<Json>, id: string) returns (r: Option<Entries>)
    ensures r == MergeList(destination, list, id)
  {
    var d := destination;
    for i := 0 to |list|
      invariant MergeList(destination, list[..i], id) == Some(d)
    {
      assert list[..i + 1][..i] == list[..i];
      var entry := list[i];
      if !WellKeyed(entry, id) {
        MergeFailureIsFinal(destination, list, i + 1, id);
        return None;
      }
      var key := NestedStr(entry.fields, [id]).value;
      if key in d && d[key] != entry.fields {
        MergeFailureIsFinal(destination, list, i + 1, id);
        return None;
      }
      d := d[key := entry.fields];
    }
    assert list[..|list|] == list;
    return Some(d);
  }

  method MergeKeyedEntries(destination: Entries, want: Object, part: Part) returns (r: Option<Entries>)
    requires !part.SshKey?
    ensures r == MergePart(destination, want, part)
  {
    var k := part.AsKeyed();
    var entries := NestedList(want, [k.field]);
    if entries.Mismatch? {
      return None;
    }
    if entries.Missing? {
      return Some(destination);
    }
    r := MergeEntryList(destination, entries.value, k.id);
    MergeListByPairs(destination, entries.value, k.id);
  }

  method MergeSSHKey(existing: Entries, want: Object) returns (r: Option<Entries>)
    ensures r == MergePart(existing, want, SshKey)
  {
    var candidate := NestedObj(want, ["sshkey"]);
    if candidate.Mismatch? {
      return None;
    }
    if candidate.Missing? {
      return Some(existing);
    }
    ghost var pairs := [("sshkey", candidate.value)];
    assert pairs[..0] == [] && MergePairs(existing, pairs[..0]) == Some(existing);
    if "sshkey" in existing && existing["sshkey"] != candidate.value {
      return None;
    }
    return Some(existing["sshkey" := candidate.value]);
  }

  /** One turn of the loop over assets; the failed part where a merge fails. */
  method MergePolicy(a: Aggregate, want: Object) returns (r: Option<Aggregate>, ghost failed: Part)
    ensures r.Some? ==> MergePart(a.files, want, Files) == Some(r.value.files)
    ensures r.Some? ==> MergePart(a.units, want, Units) == Some(r.value.units)
    ensures r.Some? ==> MergePart(a.sshKey, want, SshKey) == Some(r.value.sshKey)
    ensures r.None? ==> MergePart(a.Get(failed), want, failed).None?
  {
    failed := Files;
    var files := MergeKeyedEntries(a.files, want, Files);
    if files.None? {
      return None, Files;
    }
    var units := MergeKeyedEntries(a.units, want, Units);
    if units.None? {
      return None, Units;
    }
    var sshKey := MergeSSHKey(a.sshKey, want);
    if sshKey.None? {
      return None, SshKey;
    }
    return Some(Aggregate(files.value, units.value, sshKey.value)), Files;
  }

  method AggregateEntries(assets: seq<Asset>, scope: Scope) returns (r: Option<Aggregate>)
    ensures r == Aggregated(assets, scope)
  {
    var a := Aggregate(map[], map[], map[]);
    for i := 0 to |assets|
      invariant PartOf(assets[..i], scope, Files) == Some(a.files)
      invariant PartOf(assets[..i], scope, Units) == Some(a.units)
      invariant PartOf(assets[..i], scope, SshKey) == Some(a.sshKey)
    {
      assert assets[..i + 1][..i] == assets[..i];
      var candidate := CandidateOf(assets[i], scope);
      if candidate.Bad? {
        FailureIsFinal(assets, i + 1, scope, Files);
        return None;
      }
      if candidate.Use? {
        var next; ghost var failed;
        next, failed := MergePolicy(a, candidate.want);
        if next.None? {
          FailureIsFinal(assets, i + 1, scope, failed);
          return None;
        }
        a := next.value;
      }
    }
    assert assets[..|assets|] == assets;
    return Some(a);
  }

  lemma {:induction false} FailureIsFinal(assets: seq<Asset>, i: nat, scope: Scope, part: Part)
    requires i <= |assets| && PartOf(assets[..i], scope, part).None?
    ensures PartOf(assets, scope, part).None?
    decreases |assets|
  {
    if i == |assets| {
      assert assets[..i] == assets;
    } else {
      assert assets[..|assets| - 1][..i] == assets[..i];
      FailureIsFinal(assets[..|assets| - 1], i, scope, part);
    }
  }

  method EntriesInOrder(entries: Entries) returns (result: seq<Json>)
    ensures result == SortedEntries(entries)
  {
    var keys := SortedStringKeys(entries.Keys);
    result := EntriesAt(entries, keys);
  }

  method EntriesAt(entries: Entries, keys: seq<string>) returns (result: seq<Json>)
    requires forall k <- keys :: k in entries
    ensures result == ListInOrder(entries, keys)
  {
    result := [];
    for i := 0 to |keys|
      invariant result == ListInOrder(entries, keys[..i])
    {
      assert keys[..i + 1][..i] == keys[..i];
      result := result + [Obj(entries[keys[i]])];
    }
    assert keys[..|keys|] == keys;
  }

  // What the aggregate holds. ----------------------------------------------------------------------

  /** The asset takes part: it has a policy and is active, and its dependent does not render to nothing and is not
      root-excluded. */
  predicate InScope(asset: Asset, scope: Scope) {
    && asset.hasPolicy && asset.name in scope.active && !asset.dependent.RenderedEmpty?
    && (asset.dependent.Rendered? ==>
          var o := asset.dependent.manifest; !scope.excluded(Kind(o), Namespace(o), Name(o)))
  }

  /** The template renders to the singleton and asks for this policy. */
  predicate Asks(policy: Render, want: Object) {
    && policy.Rendered?
    && ApiVersion(policy.manifest) == "operator.openshift.io/v1" && Kind(policy.manifest) == "MachineConfiguration"
    && Name(policy.manifest) == "cluster"
    && NestedObj(policy.manifest, ["spec", "nodeDisruptionPolicy"]) == Found(want)
  }

  /** The asset takes part with a policy that covers its dependent. */
  predicate Contributes(asset: Asset, scope: Scope, want: Object) {
    && InScope(asset, scope) && asset.dependent.Rendered?
    && Asks(asset.policy, want) && Covers(want, asset.dependent.manifest)
  }

  /** Which assets are aggregated, skipped, or fail the whole. */
  lemma CandidateExact(asset: Asset, scope: Scope)
    ensures CandidateOf(asset, scope).Skip? <==> !InScope(asset, scope)
    ensures forall want :: CandidateOf(asset, scope) == Use(want) <==> Contributes(asset, scope, want)
    ensures CandidateOf(asset, scope).Bad? <==> InScope(asset, scope) && forall want :: !Contributes(asset, scope, want)
  {
    if CandidateOf(asset, scope).Use? { assert Contributes(asset, scope, CandidateOf(asset, scope).want); }
  }

  /** The policy has this entry, under this key. */
  predicate EntryOf(want: Object, part: Part, key: string, entry: Object) {
    match part
    case Files => Lists(want, "files", "path", key, entry)
    case Units => Lists(want, "units", "name", key, entry)
    case SshKey => key == "sshkey" && NestedObj(want, ["sshkey"]) == Found(entry)
  }

  predicate Lists(want: Object, field: string, id: string, key: string, entry: Object) {
    && NestedList(want, [field]).Found? && Obj(entry) in NestedList(want, [field]).value
    && NestedStr(entry, [id]) == Found(key)
  }

  /** The part is absent, or of the right type with a non-empty identifier in every entry. */
  predicate WellFormedPart(want: Object, part: Part) {
    match part
    case Files => WellFormedList(want, "files", "path")
    case Units => WellFormedList(want, "units", "name")
    case SshKey => !NestedObj(want, ["sshkey"]).Mismatch?
  }

  predicate WellFormedList(want: Object, field: string, id: string) {
    && !NestedList(want, [field]).Mismatch?
    && (NestedList(want, [field]).Found? ==>
          forall e <- NestedList(want, [field]).value ::
            e.Obj? && NestedStr(e.fields, [id]).Found? && NestedStr(e.fields, [id]).value != "")
  }

  lemma {:induction false} KeyedPairsExact(list: seq<Json>, id: string)
    ensures KeyedPairs(list, id).Some? <==> forall e <- list :: WellKeyed(e, id)
    ensures KeyedPairs(list, id).Some? ==>
              forall key, entry :: (key, entry) in KeyedPairs(list, id).value <==>
                Obj(entry) in list && NestedStr(entry, [id]) == Found(key)
  {
    if list != [] {
      var before, last := list[..|list| - 1], list[|list| - 1];
      assert list == before + [last];
      KeyedPairsExact(before, id);
    }
  }

  lemma PairsExact(want: Object, part: Part)
    ensures Pairs(want, part).Some? <==> WellFormedPart(want, part)
    ensures Pairs(want, part).Some? ==>
              forall key, entry :: (key, entry) in Pairs(want, part).value <==> EntryOf(want, part, key, entry)
  {
    if !part.SshKey? {
      var list := NestedList(want, [part.AsKeyed().field]);
      if list.Found? { KeyedPairsExact(list.value, part.AsKeyed().id); }
    }
  }

  /** An asset that takes part has this entry in its policy. */
  ghost predicate Supplies(asset: Asset, scope: Scope, part: Part, key: string, entry: Object) {
    exists want :: Contributes(asset, scope, want) && EntryOf(want, part, key, entry)
  }

  /** An asset that takes part does so with a well-formed policy. */
  ghost predicate Sound(asset: Asset, scope: Scope, part: Part) {
    InScope(asset, scope) ==> exists want :: Contributes(asset, scope, want) && WellFormedPart(want, part)
  }

  /** Both, for the candidate that the loop takes. */
  lemma CandidateSupplies(asset: Asset, scope: Scope, part: Part)
    ensures var c := CandidateOf(asset, scope);
            && (Sound(asset, scope, part) <==> !c.Bad? && (c.Use? ==> Pairs(c.want, part).Some?))
            && (forall key, e :: Supplies(asset, scope, part, key, e) <==> c.Use? && EntryOf(c.want, part, key, e))
  {
    var c := CandidateOf(asset, scope);
    CandidateExact(asset, scope);
    if c.Use? {
      PairsExact(c.want, part);
      assert Contributes(asset, scope, c.want);
      assert forall want :: Contributes(asset, scope, want) ==> want == c.want;
    }
  }

  /** Two lists of entries that do not contradict one another. */
  ghost predicate Agree(d: Entries, pairs: seq<(string, Object)>) {
    && (forall p <- pairs :: p.0 in d ==> d[p.0] == p.1)
    && (forall p <- pairs, q <- pairs :: p.0 == q.0 ==> p.1 == q.1)
  }

  predicate Holds(m: Entries, key: string, entry: Object) { key in m && m[key] == entry }

  lemma {:induction false} MergePairsExact(d: Entries, pairs: seq<(string, Object)>)
    ensures MergePairs(d, pairs).Some? <==> Agree(d, pairs)
    ensures MergePairs(d, pairs).Some? ==>
              var r := MergePairs(d, pairs).value;
              forall k, e :: Holds(r, k, e) <==> Holds(d, k, e) || (k, e) in pairs
  {
    if pairs != [] {
      var n := |pairs| - 1;
      var before, last := pairs[..n], pairs[n];
      assert pairs == before + [last];
      MergePairsExact(d, before);
      if MergePairs(d, before).Some? {
        var r := MergePairs(d, before).value;
        if last.0 in r {
          assert Holds(r, last.0, r[last.0]);
        }
        if Agree(d, pairs) {
          assert last.0 in r ==> r[last.0] == last.1;
        }
        if MergePairs(d, pairs).Some? {
          forall p | p in before && p.0 == last.0 ensures p.1 == last.1 { assert Holds(r, p.0, p.1); }
          assert last.0 in d ==> Holds(d, last.0, d[last.0]);
          assert forall p <- pairs :: p in before || p == last;
        }
      }
    }
  }

  ghost predicate Supplied(assets: seq<Asset>, scope: Scope, part: Part, key: string, entry: Object) {
    exists a :: a in assets && Supplies(a, scope, part, key, entry)
  }

  ghost predicate Consistent(assets: seq<Asset>, scope: Scope, part: Part) {
    forall key, e, f :: Supplied(assets, scope, part, key, e) && Supplied(assets, scope, part, key, f) ==> e == f
  }

  ghost predicate AllSound(assets: seq<Asset>, scope: Scope, part: Part) {
    forall a <- assets :: Sound(a, scope, part)
  }

  lemma SuppliedSnoc(assets: seq<Asset>, scope: Scope, part: Part)
    requires assets != []
    ensures var before, last := assets[..|assets| - 1], assets[|assets| - 1];
            && (forall key, e :: Supplied(assets, scope, part, key, e) <==>
                  Supplied(before, scope, part, key, e) || Supplies(last, scope, part, key, e))
            && (AllSound(assets, scope, part) <==> AllSound(before, scope, part) && Sound(last, scope, part))
  {
    assert assets == assets[..|assets| - 1] + [assets[|assets| - 1]];
  }

  /** Aggregation of a part succeeds exactly when every policy is sound and no two contradict one
      another, and then holds, unchanged, exactly the entries supplied. */
  lemma {:induction false} PartExact(assets: seq<Asset>, scope: Scope, part: Part)
    ensures PartOf(assets, scope, part).Some? <==> AllSound(assets, scope, part) && Consistent(assets, scope, part)
    ensures PartOf(assets, scope, part).Some? ==>
              var r := PartOf(assets, scope, part).value;
              forall key, e :: Holds(r, key, e) <==> Supplied(assets, scope, part, key, e)
  {
    if assets != [] {
      var before, last := assets[..|assets| - 1], assets[|assets| - 1];
      PartExact(before, scope, part);
      SuppliedSnoc(assets, scope, part);
      CandidateSupplies(last, scope, part);
      var c := CandidateOf(last, scope);
      if PartOf(before, scope, part).Some? && c.Use? && Pairs(c.want, part).Some? {
        var d, pairs := PartOf(before, scope, part).value, Pairs(c.want, part).value;
        PairsExact(c.want, part);
        MergePairsExact(d, pairs);
        assert forall key, e :: Supplies(last, scope, part, key, e) <==> (key, e) in pairs;
        AgreeIffConsistent(assets, scope, part, d, pairs);
      }
    }
  }

  lemma AgreeIffConsistent(assets: seq<Asset>, scope: Scope, part: Part, d: Entries, pairs: seq<(string, Object)>)
    requires assets != []
    requires forall key, e :: Supplied(assets, scope, part, key, e) <==> Holds(d, key, e) || (key, e) in pairs
    ensures Agree(d, pairs) <==> Consistent(assets, scope, part)
  {
    if Agree(d, pairs) {
      forall key, e, f | Supplied(assets, scope, part, key, e) && Supplied(assets, scope, part, key, f)
        ensures e == f
      {
        assert (key, e) in pairs && (key, f) in pairs ==> e == f;
      }
    }
    if Consistent(assets, scope, part) {
      forall p | p in pairs && p.0 in d ensures d[p.0] == p.1
      {
        assert (p.0, p.1) == p;
        assert Holds(d, p.0, d[p.0]) && Supplied(assets, scope, part, p.0, p.1);
      }
      forall p, q | p in pairs && q in pairs && p.0 == q.0 ensures p.1 == q.1
      {
        assert (p.0, p.1) == p && (q.0, q.1) == q;
        assert Supplied(assets, scope, part, p.0, p.1) && Supplied(assets, scope, part, q.0, q.1);
      }
    }
  }

  /** The same assets in any order, and with any repetition, aggregate to the same result or all fail. */
  lemma AggregationIgnoresOrder(xs: seq<Asset>, ys: seq<Asset>, scope: Scope)
    requires forall a :: a in xs <==> a in ys
    ensures Aggregated(xs, scope) == Aggregated(ys, scope)
  {
    PartIgnoresOrder(xs, ys, scope, Files);
    PartIgnoresOrder(xs, ys, scope, Units);
    PartIgnoresOrder(xs, ys, scope, SshKey);
  }

  lemma PartIgnoresOrder(xs: seq<Asset>, ys: seq<Asset>, scope: Scope, part: Part)
    requires forall a :: a in xs <==> a in ys
    ensures PartOf(xs, scope, part) == PartOf(ys, scope, part)
  {
    PartExact(xs, scope, part);
    PartExact(ys, scope, part);
    assert forall key, e :: Supplied(xs, scope, part, key, e) <==> Supplied(ys, scope, part, key, e);
    if PartOf(xs, scope, part).Some? {
      var r, t := PartOf(xs, scope, part).value, PartOf(ys, scope, part).value;
      forall k ensures (k in r <==> k in t) && (k in r ==> r[k] == t[k])
      {
        if k in r { assert Holds(r, k, r[k]); }
        if k in t { assert Holds(t, k, t[k]); }
      }
      assert r == t;
    }
  }

  /** The aggregate has an entry for every file and unit of every dependent that takes part. */
  lemma AggregateCoversDependents(assets: seq<Asset>, scope: Scope, asset: Asset, want: Object, part: Part, i: nat)
    requires Aggregated(assets, scope).Some? && asset in assets && Contributes(asset, scope, want) && !part.SshKey?
    requires i < |ConfigEntries(asset.dependent.manifest, part.AsKeyed())|
    ensures exists name :: Named(ConfigEntries(asset.dependent.manifest, part.AsKeyed())[i], part.AsKeyed().id, name)
                        && name in Aggregated(assets, scope).value.Get(part)
  {
    var k := part.AsKeyed();
    var entry := ConfigEntries(asset.dependent.manifest, k)[i];
    CoveredEntries(want, asset.dependent.manifest, k, i);
    var name := NestedStr(entry.fields, [k.id]).value;
    PartExact(assets, scope, part);
    var list := NestedList(want, [k.field]).value;
    var j :| 0 <= j < |list| && Named(list[j], k.id, name);
    assert EntryOf(want, part, name, list[j].fields);
    assert Supplies(asset, scope, part, name, list[j].fields);
    assert Supplied(assets, scope, part, name, list[j].fields);
    assert Named(entry, k.id, name);
  }

  /** Every entry of the aggregate is filed under its own identifier. */
  lemma AggregateIsKeyed(assets: seq<Asset>, scope: Scope, part: Part)
    requires !part.SshKey? && PartOf(assets, scope, part).Some?
    ensures forall key <- PartOf(assets, scope, part).value ::
            Named(Obj(PartOf(assets, scope, part).value[key]), part.AsKeyed().id, key)
  {
    var r := PartOf(assets, scope, part).value;
    PartExact(assets, scope, part);
    forall key <- r ensures Named(Obj(r[key]), part.AsKeyed().id, key) {
      assert Holds(r, key, r[key]);
      assert Supplied(assets, scope, part, key, r[key]);
    }
  }

  /** The entries of the applied policy ascend by key, and are those of the aggregate. */
  lemma EntriesAscend(entries: Entries) returns (keys: seq<string>)
    ensures |SortedEntries(entries)| == |keys| && (forall k :: k in keys <==> k in entries)
    ensures forall i, j :: 0 <= i < j < |keys| ==> Less(keys[i], keys[j])
    ensures forall i | 0 <= i < |keys| :: SortedEntries(entries)[i] == Obj(entries[keys[i]])
  {
    keys := InOrder(entries.Keys);
    InOrderIsSorted(entries.Keys);
    ListedEntries(entries, keys);
  }

  lemma {:induction false} ListedEntries(entries: Entries, keys: seq<string>)
    requires forall k <- keys :: k in entries
    ensures |ListInOrder(entries, keys)| == |keys|
    ensures forall i | 0 <= i < |keys| :: ListInOrder(entries, keys)[i] == Obj(entries[keys[i]])
  {
    if keys != [] { ListedEntries(entries, keys[..|keys| - 1]); }
  }
}
