/** Progress of tombstone cleanup: a reconcile, one step of the Machine Config Operator and another reconcile
    delete every labelled tombstone. */
module PlatformProgress {
  import opened JsonTree
  import opened Ownership
  import opened NodeDisruptionPolicy
  import opened PolicyAggregation
  import opened Tombstones
  import opened Platform
  import Masking = JsonPointer
  import Sorting

  /** No API call fails, and nobody else acts during a reconcile. */
  ghost predicate Quiet(e: Env) {
    && (forall n, c :: e.moves(n, c) == c)
    && (forall n :: !e.fails(n))
  }

  // Deletions. ----------------------------------------------------------------------------------------------

  predicate Doomed(objects: map<Ref, Object>, refs: seq<Ref>, machineConfigs: bool, ref: Ref) {
    ref in objects && ref in refs && IsMachineConfigRef(ref) == machineConfigs && Labelled(objects[ref])
  }

  /** The objects without the labelled ones among the tombstones of one kind. */
  function Pruned(objects: map<Ref, Object>, refs: seq<Ref>, machineConfigs: bool): map<Ref, Object> {
    map ref | ref in objects && !Doomed(objects, refs, machineConfigs, ref) :: objects[ref]
  }

  lemma {:induction false} QuietDeletions(e: Env, refs: seq<Ref>, machineConfigs: bool, w: World)
    requires Quiet(e)
    ensures DeleteTombstones(e, refs, machineConfigs, w).cluster ==
            w.cluster.(objects := Pruned(w.cluster.objects, refs, machineConfigs))
    decreases |refs|
  {
    var objects := w.cluster.objects;
    if refs == [] {
      assert Pruned(objects, refs, machineConfigs) == objects;
    } else {
      var w1 := DeleteTombstone(e, refs[0], machineConfigs, w);
      assert w1.cluster == w.cluster.(objects := Pruned(objects, [refs[0]], machineConfigs)) by {
        assert Pruned(objects, [refs[0]], machineConfigs) ==
               if Doomed(objects, [refs[0]], machineConfigs, refs[0]) then objects - {refs[0]} else objects;
      }
      QuietDeletions(e, refs[1..], machineConfigs, w1);
      assert refs == [refs[0]] + refs[1..];
      assert Pruned(w1.cluster.objects, refs[1..], machineConfigs) == Pruned(objects, refs, machineConfigs);
    }
  }

  // Checks. -------------------------------------------------------------------------------------------------

  /** No live, labelled tombstoned MachineConfig has this outcome. */
  ghost predicate NoneIs(c: Cluster, refs: seq<Ref>, effective: Object, verdict: Check) {
    forall ref <- refs | IsMachineConfigRef(ref) :: RefCheck(c, ref, effective) != verdict
  }

  lemma {:induction false} QuietScan(e: Env, refs: seq<Ref>, effective: Object, w: World)
    requires Quiet(e) && NoneIs(w.cluster, refs, effective, CheckError)
    ensures var s := ScanTombstones(e, refs, effective, w);
            && s.world.cluster == w.cluster && s.verdict != CheckError
            && (s.verdict == Clear <==> NoneIs(w.cluster, refs, effective, Blocked))
    decreases |refs|
  {
    if refs != [] {
      assert refs[0] in refs && forall ref <- refs[1..] :: ref in refs;
      var next := if IsMachineConfigRef(refs[0]) then Called(e, w) else w;
      assert next.cluster == w.cluster;
      QuietScan(e, refs[1..], effective, next);
      assert forall ref <- refs :: ref == refs[0] || ref in refs[1..];
    }
  }

  ghost predicate Readable(e: Env, c: Cluster) {
    c.config.Some? ==>
      match EffectivePolicies(c.config.value)
      case Mismatch => false
      case Missing => true
      case Found(effective) => NoneIs(c, e.tombstones, effective, CheckError)
  }

  lemma QuietCheck(e: Env, w: World)
    requires Quiet(e) && Readable(e, w.cluster)
    ensures var s := CheckTombstones(e, w);
            && s.world.cluster == w.cluster && s.verdict != CheckError
            && (s.verdict == Blocked ==> w.cluster.config.Some? && EffectivePolicies(w.cluster.config.value).Found?)
            && (w.cluster.config.Some? && EffectivePolicies(w.cluster.config.value).Found? ==>
                  (s.verdict == Clear <==>
                    NoneIs(w.cluster, e.tombstones, EffectivePolicies(w.cluster.config.value).value, Blocked)))
  {
    if w.cluster.config.Some? && EffectivePolicies(w.cluster.config.value).Found? {
      QuietScan(e, e.tombstones, EffectivePolicies(w.cluster.config.value).value, Called(e, w));
    }
  }

  /** A quiet check leaves the cluster alone, readable or not. */
  lemma QuietCheckKeeps(e: Env, w: World)
    requires Quiet(e)
    ensures CheckTombstones(e, w).world.cluster == w.cluster
  {
    if w.cluster.config.Some? && EffectivePolicies(w.cluster.config.value).Found? {
      QuietScanKeeps(e, e.tombstones, EffectivePolicies(w.cluster.config.value).value, Called(e, w));
    }
  }

  lemma {:induction false} QuietScanKeeps(e: Env, refs: seq<Ref>, effective: Object, w: World)
    requires Quiet(e)
    ensures ScanTombstones(e, refs, effective, w).world.cluster == w.cluster
    decreases |refs|
  {
    if refs != [] {
      QuietScanKeeps(e, refs[1..], effective, w);
      QuietScanKeeps(e, refs[1..], effective, Called(e, w));
    }
  }

  // The apply and what the Machine Config Operator makes of it. ---------------------------------------------

  /** The singleton is managed and has no ignore-fields, if there is one. */
  predicate Unoverridden(c: Cluster) {
    c.config.Some? ==> !IsUnmanaged(c.config.value) && !IgnoresFields(c.config.value)
  }

  lemma QuietAggregate(e: Env, w: World, desired: Object, allowCreate: bool)
    requires Quiet(e) && Unoverridden(w.cluster)
    ensures var p := ApplyAggregate(e, w, desired, allowCreate);
            && !p.error && p.world.cluster.objects == w.cluster.objects
            && (allowCreate ==> p.managed && p.world.cluster == ServerApply(w.cluster, desired))
  {
    if w.cluster.config.Some? { assert Masking.Mask(desired, w.cluster.config.value) == Some(desired); }
    assert Called(e, w).cluster == w.cluster;
  }

  /** The policy reported in the status is the policy of the spec. */
  lemma ObservedPolicies(config: Object)
    ensures EffectivePolicies(ObservedConfig(config)) == Found(SpecPolicy(config))
    ensures FieldsAt(ObservedConfig(config), "metadata") == FieldsAt(config, "metadata")
  {
    var o := ObservedConfig(config);
    var status := o["status"].fields;
    assert ["status", "nodeDisruptionPolicyStatus", "clusterPolicies"] ==
      ["status"] + ["nodeDisruptionPolicyStatus", "clusterPolicies"];
    FieldAt(o, "status");
    NestedStep(Obj(o), ["status"], ["nodeDisruptionPolicyStatus", "clusterPolicies"]);
    FieldOfField(status, "nodeDisruptionPolicyStatus", "clusterPolicies");
    FieldAt(status["nodeDisruptionPolicyStatus"].fields, "clusterPolicies");
  }

  lemma AppliedPolicies(config: Object, others: map<(string, string), set<string>>, desired: Object)
    ensures SpecPolicy(AppliedConfig(config, others, desired)) == MergedPolicy(config, others, desired)
    ensures var before := FieldsAt(config, "metadata");
            var after := FieldsAt(AppliedConfig(config, others, desired), "metadata");
            && ("annotations" in after <==> "annotations" in before)
            && ("annotations" in before ==> after["annotations"] == before["annotations"])
  {
  }

  lemma AnnotationsFrom(o: Object)
    ensures Annotations(o) == StringMapAt(FieldsAt(o, "metadata"), ["annotations"])
  {
    var m := FieldsAt(o, "metadata");
    FieldAt(o, "metadata");
    FieldAt(m, "annotations");
    if "metadata" in o && o["metadata"].Obj? {
      FieldOfField(o, "metadata", "annotations");
    } else {
      assert ["metadata", "annotations"][1..] == ["annotations"];
    }
  }

  /** Neither an apply nor the Machine Config Operator touches the annotations. */
  lemma AnnotationsStay(config: Object, others: map<(string, string), set<string>>, desired: Object)
    ensures Annotations(ObservedConfig(AppliedConfig(config, others, desired))) == Annotations(config)
  {
    var applied := AppliedConfig(config, others, desired);
    AppliedPolicies(config, others, desired);
    ObservedPolicies(applied);
    AnnotationsFrom(config);
    AnnotationsFrom(ObservedConfig(applied));
    FieldAt(FieldsAt(config, "metadata"), "annotations");
    FieldAt(FieldsAt(applied, "metadata"), "annotations");
  }

  // The merged lists. ---------------------------------------------------------------------------------------

  lemma {:induction false} StayingExact(live: seq<Json>, others: map<(string, string), set<string>>, applied: seq<Json>,
                                        k: Keyed, entry: Json)
    ensures entry in StayingEntries(live, others, applied, k) <==> entry in live && Stays(entry, others, applied, k)
  {
    if live != [] { StayingExact(live[1..], others, applied, k, entry); }
  }

  lemma MergedLists(config: Object, others: map<(string, string), set<string>>, desired: Object, k: Keyed)
    requires k == FILES || k == UNITS
    ensures var applied := PolicyList(desired, k);
            NestedList(MergedPolicy(config, others, desired), [k.field]) ==
            Found(StayingEntries(PolicyList(config, k), others, applied, k) + applied)
  {
    FieldAt(MergedPolicy(config, others, desired), k.field);
  }

  ghost function EntriesFor(a: Aggregate, k: Keyed): Entries { if k == FILES then a.files else a.units }

  lemma DesiredSpec(policy: Object)
    ensures SpecPolicy(DesiredConfig(policy)) == policy
  {
    assert FieldsAt(DesiredConfig(policy), "spec") == map["nodeDisruptionPolicy" := Obj(policy)];
  }

  lemma DesiredList(policy: Object, k: Keyed, list: seq<Json>)
    requires k.field in policy && policy[k.field] == List(list)
    ensures PolicyList(DesiredConfig(policy), k) == list
  {
    DesiredSpec(policy);
    FieldAt(policy, k.field);
  }

  lemma DesiredLists(a: Aggregate, k: Keyed)
    requires k == FILES || k == UNITS
    ensures PolicyList(DesiredConfig(PolicyObject(a)), k) == SortedEntries(EntriesFor(a, k))
  {
    DesiredList(PolicyObject(a), k, SortedEntries(EntriesFor(a, k)));
  }

  /** Nobody but the operator's former selves supplies an entry for a file or unit of the MachineConfig. */
  ghost predicate Unsupplied(machineConfig: Object, a: Aggregate, others: map<(string, string), set<string>>) {
    forall k <- {FILES, UNITS} :: KeyedUnsupplied(machineConfig, a, others, k)
  }

  ghost predicate KeyedUnsupplied(machineConfig: Object, a: Aggregate, others: map<(string, string), set<string>>,
                                  k: Keyed) {
    forall entry <- ConfigEntries(machineConfig, k), name: string | Named(entry, k.id, name) ::
      name !in EntriesFor(a, k) && !OthersManage(others, k.field, name)
  }

  lemma SortedEntriesExact(entries: Entries, entry: Json)
    ensures entry in SortedEntries(entries) <==> exists key :: key in entries && entry == Obj(entries[key])
  {
    var keys := Sorting.InOrder(entries.Keys);
    ListedEntries(entries, keys);
    if key :| key in entries && entry == Obj(entries[key]) {
      assert key in keys;
      var i :| 0 <= i < |keys| && keys[i] == key;
      assert SortedEntries(entries)[i] == entry;
    }
    if entry in SortedEntries(entries) {
      var i :| 0 <= i < |SortedEntries(entries)| && SortedEntries(entries)[i] == entry;
      assert keys[i] in keys && entry == Obj(entries[keys[i]]);
    }
  }

  /** Every entry of a part of the aggregate is filed under its own identifier. */
  ghost predicate Filed(entries: Entries, id: string) { forall key <- entries :: Named(Obj(entries[key]), id, key) }

  lemma AggregateIsFiled(assets: seq<Asset>, scope: Scope, a: Aggregate, k: Keyed)
    requires Aggregated(assets, scope) == Some(a) && (k == FILES || k == UNITS)
    ensures Filed(EntriesFor(a, k), k.id)
  {
    AggregateIsKeyed(assets, scope, if k == FILES then Files else Units);
  }

  /** The names in the applied list are the keys of the part. */
  lemma SortedNames(entries: Entries, id: string, name: string)
    requires Filed(entries, id)
    ensures HasNamed(SortedEntries(entries), id, name) <==> name in entries
  {
    var list := SortedEntries(entries);
    if HasNamed(list, id, name) {
      var i :| 0 <= i < |list| && Named(list[i], id, name);
      SortedEntriesExact(entries, list[i]);
    }
    if name in entries {
      SortedEntriesExact(entries, Obj(entries[name]));
      var i :| 0 <= i < |list| && list[i] == Obj(entries[name]);
      assert Named(list[i], id, name);
    }
  }

  /** An entry that only another manager applies. */
  ghost predicate Foreign(entry: Json, entries: Entries, others: map<(string, string), set<string>>, k: Keyed) {
    exists name :: Named(entry, k.id, name) && name !in entries && OthersManage(others, k.field, name)
  }

  lemma StaysIffForeign(entry: Json, entries: Entries, others: map<(string, string), set<string>>, k: Keyed)
    requires Filed(entries, k.id)
    ensures Stays(entry, others, SortedEntries(entries), k) <==> Foreign(entry, entries, others, k)
  {
    if Stays(entry, others, SortedEntries(entries), k) {
      var name := KeyOfEntry(entry, k.id).value;
      SortedNames(entries, k.id, name);
      assert Named(entry, k.id, name);
    }
    if Foreign(entry, entries, others, k) {
      var name :| Named(entry, k.id, name) && name !in entries && OthersManage(others, k.field, name);
      SortedNames(entries, k.id, name);
      assert KeyOfEntry(entry, k.id) == Some(name);
    }
  }

  /** After an apply, a list has exactly the entries of the aggregate, and of the live ones those that only another
      manager applies. */
  lemma MergedEntries(assets: seq<Asset>, scope: Scope, a: Aggregate, config: Object,
                      others: map<(string, string), set<string>>, k: Keyed, entry: Json)
    requires Aggregated(assets, scope) == Some(a) && (k == FILES || k == UNITS)
    ensures var list := NestedList(MergedPolicy(config, others, DesiredConfig(PolicyObject(a))), [k.field]);
            var entries := EntriesFor(a, k);
            && list.Found?
            && (entry in list.value <==>
                  || (exists key :: key in entries && entry == Obj(entries[key]))
                  || (entry in PolicyList(config, k) && Foreign(entry, entries, others, k)))
  {
    var entries := EntriesFor(a, k);
    MergedLists(config, others, DesiredConfig(PolicyObject(a)), k);
    DesiredLists(a, k);
    AggregateIsFiled(assets, scope, a, k);
    SortedEntriesExact(entries, entry);
    StaysIffForeign(entry, entries, others, k);
    StayingExact(PolicyList(config, k), others, SortedEntries(entries), k, entry);
  }

  lemma MergedIdentified(assets: seq<Asset>, scope: Scope, a: Aggregate, config: Object,
                         others: map<(string, string), set<string>>, k: Keyed)
    requires Aggregated(assets, scope) == Some(a) && (k == FILES || k == UNITS)
    ensures var list := NestedList(MergedPolicy(config, others, DesiredConfig(PolicyObject(a))), [k.field]);
            list.Found? && Identified(list.value, a, others, k)
  {
    var list := NestedList(MergedPolicy(config, others, DesiredConfig(PolicyObject(a))), [k.field]);
    AggregateIsFiled(assets, scope, a, k);
    MergedEntries(assets, scope, a, config, others, k, Null);
    forall entry <- list.value ensures IdentifiedEntry(entry, a, others, k) {
      MergedEntries(assets, scope, a, config, others, k, entry);
    }
  }

  ghost predicate Identified(list: seq<Json>, a: Aggregate, others: map<(string, string), set<string>>, k: Keyed) {
    forall entry <- list :: IdentifiedEntry(entry, a, others, k)
  }

  ghost predicate IdentifiedEntry(entry: Json, a: Aggregate, others: map<(string, string), set<string>>, k: Keyed) {
    exists name :: Named(entry, k.id, name) && (name in EntriesFor(a, k) || OthersManage(others, k.field, name))
  }

  lemma IdentifiedIsFree(machineConfig: Object, list: seq<Json>, a: Aggregate,
                         others: map<(string, string), set<string>>, k: Keyed)
    requires Identified(list, a, others, k) && KeyedUnsupplied(machineConfig, a, others, k)
    ensures Typed(list, k.id) && Unnamed(ConfigEntries(machineConfig, k), list, k.id)
  {
    forall i | 0 <= i < |list| ensures list[i].Obj? && !NestedStr(list[i].fields, [k.id]).Mismatch? {
      assert list[i] in list && IdentifiedEntry(list[i], a, others, k);
    }
    var entries := ConfigEntries(machineConfig, k);
    forall i, name | 0 <= i < |entries| && Named(entries[i], k.id, name) ensures !HasNamed(list, k.id, name) {
      assert entries[i] in entries;
      forall j | 0 <= j < |list| ensures !Named(list[j], k.id, name) {
        assert list[j] in list && IdentifiedEntry(list[j], a, others, k);
      }
    }
  }

  ghost predicate ConfigTyped(machineConfig: Object) {
    forall k <- {FILES, UNITS} :: KeyedTyped(machineConfig, k)
  }

  ghost predicate KeyedTyped(machineConfig: Object, k: Keyed) {
    && !NestedList(machineConfig, ["spec", "config", k.section, k.field]).Mismatch?
    && Typed(ConfigEntries(machineConfig, k), k.id)
  }

  lemma FreeIsClear(machineConfig: Object, policy: Object, a: Aggregate, others: map<(string, string), set<string>>)
    requires ConfigTyped(machineConfig) && Unsupplied(machineConfig, a, others)
    requires forall k <- {FILES, UNITS} ::
            NestedList(policy, [k.field]).Found? && Identified(NestedList(policy, [k.field]).value, a, others, k)
    ensures PolicyCheck(machineConfig, policy) == Clear
  {
    KeyedFreeIsClear(machineConfig, policy, a, others, FILES);
    KeyedFreeIsClear(machineConfig, policy, a, others, UNITS);
  }

  lemma KeyedFreeIsClear(machineConfig: Object, policy: Object, a: Aggregate,
                         others: map<(string, string), set<string>>, k: Keyed)
    requires KeyedTyped(machineConfig, k) && KeyedUnsupplied(machineConfig, a, others, k)
    requires NestedList(policy, [k.field]).Found? && Identified(NestedList(policy, [k.field]).value, a, others, k)
    ensures KeyedCheck(machineConfig, policy, k) == Clear
  {
    IdentifiedIsFree(machineConfig, NestedList(policy, [k.field]).value, a, others, k);
    KeyedClear(machineConfig, policy, k);
  }

  /** After an apply, no policy entry applies to a MachineConfig that nobody supplies entries for. */
  lemma AppliedIsClear(assets: seq<Asset>, scope: Scope, a: Aggregate, config: Object,
                       others: map<(string, string), set<string>>, machineConfig: Object)
    requires Aggregated(assets, scope) == Some(a) && ConfigTyped(machineConfig) && Unsupplied(machineConfig, a, others)
    ensures PolicyCheck(machineConfig, MergedPolicy(config, others, DesiredConfig(PolicyObject(a)))) == Clear
  {
    MergedIdentified(assets, scope, a, config, others, FILES);
    MergedIdentified(assets, scope, a, config, others, UNITS);
    FreeIsClear(machineConfig, MergedPolicy(config, others, DesiredConfig(PolicyObject(a))), a, others);
  }

  // One reconcile. ------------------------------------------------------------------------------------------

  /** A reconcile that goes through: everything before the assets succeeds, the policies aggregate, and so do
      the assets reconcile. */
  predicate GoesThrough(inp: Inputs) {
    && inp.enabled && inp.prepared && inp.assetsOk && inp.policyAvailable
    && !inp.scope.excluded(CONFIGURATION_KIND, "", CONFIGURATION_NAME) && Aggregated(inp.assets, inp.scope).Some?
  }

  /** The objects with tombstones, and those without. */
  function Inside(objects: map<Ref, Object>, refs: seq<Ref>): map<Ref, Object> {
    map ref | ref in objects && ref in refs :: objects[ref]
  }

  function Outside(objects: map<Ref, Object>, refs: seq<Ref>): map<Ref, Object> {
    map ref | ref in objects && ref !in refs :: objects[ref]
  }

  /** Reconciling the other assets touches neither the singleton nor anything that has a tombstone. */
  ghost predicate Spares(inp: Inputs, refs: seq<Ref>) {
    forall c :: Spared(c, inp.reconcileAssets(c), refs)
  }

  predicate Spared(before: Cluster, after: Cluster, refs: seq<Ref>) {
    && after.config == before.config && after.others == before.others
    && Inside(after.objects, refs) == Inside(before.objects, refs)
  }

  lemma QuietPolicy(e: Env, inp: Inputs, prune: bool, w: World, a: Aggregate)
    requires Quiet(e) && GoesThrough(inp) && Aggregated(inp.assets, inp.scope) == Some(a) && Unoverridden(w.cluster)
    ensures var p := ReconcilePolicy(e, inp, prune, w);
            && !p.error && p.world.cluster.objects == w.cluster.objects
            && (prune || HasEntries(a) ==> p.world.cluster == ServerApply(w.cluster, DesiredConfig(PolicyObject(a))))
  {
    QuietAggregate(e, w, DesiredConfig(PolicyObject(a)), HasEntries(a) || prune);
  }

  lemma QuietAssets(e: Env, inp: Inputs, w: World)
    requires Quiet(e)
    ensures AssetsStep(e, inp, w).cluster == inp.reconcileAssets(w.cluster)
  {
    assert Finds(e, w) == w.cluster;
  }

  lemma QuietFinish(e: Env, blocked: bool, managed: bool, w: World)
    requires Quiet(e)
    ensures var c, pruned := Finished(e, blocked, managed, w).cluster, Pruned(w.cluster.objects, e.tombstones, true);
            (c == w.cluster && blocked) || c == w.cluster.(objects := pruned)
  {
    QuietDeletions(e, e.tombstones, true, w);
    if blocked && managed {
      var o := ObserveGeneration(e, w);
      QuietCheckKeeps(e, o.world);
      QuietDeletions(e, e.tombstones, true, Barrier(e, managed, w).world);
    }
  }

  /** What a quiet reconcile makes of the cluster once the policy is reconciled. */
  lemma QuietAfterPolicy(e: Env, inp: Inputs, blocked: bool, p: PolicyResult)
    requires Quiet(e)
    ensures var r, c := AfterPolicy(e, inp, blocked, p).cluster, inp.reconcileAssets(p.world.cluster);
            if p.error then r == p.world.cluster
            else || (r == c && (blocked || !inp.assetsOk))
                 || (r == c.(objects := Pruned(c.objects, e.tombstones, true)) && inp.assetsOk)
  {
    QuietAssets(e, inp, p.world);
    QuietFinish(e, blocked, p.managed, AssetsStep(e, inp, p.world));
  }

  /** Without the labelled tombstones of either kind. */
  function Cleaned(objects: map<Ref, Object>, refs: seq<Ref>): map<Ref, Object> {
    map ref | ref in objects && !(ref in refs && Labelled(objects[ref])) :: objects[ref]
  }

  lemma CleanedInTwo(objects: map<Ref, Object>, refs: seq<Ref>, after: map<Ref, Object>)
    requires Inside(after, refs) == Inside(Pruned(objects, refs, false), refs)
    ensures Inside(Pruned(after, refs, true), refs) == Inside(Cleaned(objects, refs), refs)
    ensures Outside(Pruned(after, refs, true), refs) == Outside(after, refs)
    ensures Outside(Pruned(objects, refs, false), refs) == Outside(objects, refs)
  {
    var two, one := Inside(Pruned(after, refs, true), refs), Inside(Cleaned(objects, refs), refs);
    forall ref ensures (ref in two <==> ref in one) && (ref in two ==> two[ref] == one[ref]) {
      assert ref in Inside(after, refs) <==> ref in Inside(Pruned(objects, refs, false), refs);
      assert ref in Inside(after, refs) ==> after[ref] == Inside(after, refs)[ref] == objects[ref];
    }
  }

  /** A quiet reconcile with a clear check cleans up at once. */
  lemma ClearReconcile(e: Env, inp: Inputs, w: World)
    requires Quiet(e) && GoesThrough(inp) && Unoverridden(w.cluster) && Spares(inp, e.tombstones)
    requires CheckTombstones(e, DeleteTombstones(e, e.tombstones, false, w)).verdict == Clear
    ensures Inside(Reconciled(e, inp, w).cluster.objects, e.tombstones) ==
            Inside(Cleaned(w.cluster.objects, e.tombstones), e.tombstones)
  {
    var w1 := DeleteTombstones(e, e.tombstones, false, w);
    QuietDeletions(e, e.tombstones, false, w);
    QuietCheckKeeps(e, w1);
    var c := CheckTombstones(e, w1).world;
    QuietPolicy(e, inp, false, c, Aggregated(inp.assets, inp.scope).value);
    var p := ReconcilePolicy(e, inp, false, c);
    QuietAfterPolicy(e, inp, false, p);
    assert Spared(p.world.cluster, inp.reconcileAssets(p.world.cluster), e.tombstones);
    CleanedInTwo(w.cluster.objects, e.tombstones, inp.reconcileAssets(p.world.cluster).objects);
  }

  /** A quiet reconcile with a blocked check applies the aggregate, and at most cleans up. */
  lemma BlockedReconcile(e: Env, inp: Inputs, w: World, a: Aggregate)
    requires Quiet(e) && GoesThrough(inp) && Aggregated(inp.assets, inp.scope) == Some(a) && Unoverridden(w.cluster)
    requires Spares(inp, e.tombstones)
    requires w.cluster.config.Some?
    requires CheckTombstones(e, DeleteTombstones(e, e.tombstones, false, w)).verdict == Blocked
    ensures var c, objects, refs := Reconciled(e, inp, w).cluster, w.cluster.objects, e.tombstones;
            && c.config == ServerApply(w.cluster, DesiredConfig(PolicyObject(a))).config && c.others == w.cluster.others
            && (|| Inside(c.objects, refs) == Inside(Pruned(objects, refs, false), refs)
                || Inside(c.objects, refs) == Inside(Cleaned(objects, refs), refs))
  {
    var w1 := DeleteTombstones(e, e.tombstones, false, w);
    QuietDeletions(e, e.tombstones, false, w);
    QuietCheckKeeps(e, w1);
    var c := CheckTombstones(e, w1).world;
    QuietPolicy(e, inp, true, c, a);
    var p := ReconcilePolicy(e, inp, true, c);
    QuietAfterPolicy(e, inp, true, p);
    assert Spared(p.world.cluster, inp.reconcileAssets(p.world.cluster), e.tombstones);
    CleanedInTwo(w.cluster.objects, e.tombstones, inp.reconcileAssets(p.world.cluster).objects);
  }

  lemma QuietPolicyKeeps(e: Env, inp: Inputs, prune: bool, w: World)
    requires Quiet(e)
    ensures ReconcilePolicy(e, inp, prune, w).world.cluster.objects == w.cluster.objects
  {
    var a := Aggregated(inp.assets, inp.scope);
    if a.Some? { QuietAggregateKeeps(e, w, DesiredConfig(PolicyObject(a.value)), HasEntries(a.value) || prune); }
  }

  lemma QuietAggregateKeeps(e: Env, w: World, desired: Object, allowCreate: bool)
    requires Quiet(e)
    ensures ApplyAggregate(e, w, desired, allowCreate).world.cluster.objects == w.cluster.objects
  {
    var w1 := Called(e, w);
    QuietPlanKeeps(e, w1, PlanFor(w1.cluster.config, desired, allowCreate));
  }

  lemma QuietPlanKeeps(e: Env, w: World, plan: Plan)
    requires Quiet(e)
    ensures CarryOut(e, w, plan).world.cluster.objects == w.cluster.objects
  {
  }

  /** Whatever comes of it, a quiet reconcile removes nothing that has a tombstone but what is labelled, and outside the
      tombstones leaves what was there or what reconciling the other assets made of it. */
  lemma QuietReconcile(e: Env, inp: Inputs, w: World)
    requires Quiet(e) && Spares(inp, e.tombstones)
    ensures var r, objects, refs := Reconciled(e, inp, w).cluster.objects, w.cluster.objects, e.tombstones;
            && (|| Inside(r, refs) == Inside(objects, refs)
                || Inside(r, refs) == Inside(Pruned(objects, refs, false), refs)
                || Inside(r, refs) == Inside(Cleaned(objects, refs), refs))
            && (|| Outside(r, refs) == Outside(objects, refs)
                || exists c: Cluster :: && Outside(c.objects, refs) == Outside(objects, refs)
                                        && Outside(r, refs) == Outside(inp.reconcileAssets(c).objects, refs))
  {
    var objects, refs := w.cluster.objects, e.tombstones;
    var w1 := DeleteTombstones(e, refs, false, w);
    QuietDeletions(e, refs, false, w);
    QuietCheckKeeps(e, w1);
    var c := CheckTombstones(e, w1);
    var p := ReconcilePolicy(e, inp, c.verdict == Blocked, c.world);
    QuietPolicyKeeps(e, inp, c.verdict == Blocked, c.world);
    QuietAfterPolicy(e, inp, c.verdict == Blocked, p);
    assert Spared(p.world.cluster, inp.reconcileAssets(p.world.cluster), refs);
    CleanedInTwo(objects, refs, inp.reconcileAssets(p.world.cluster).objects);
    assert Outside(p.world.cluster.objects, refs) == Outside(objects, refs);
  }

  // Two reconciles. -----------------------------------------------------------------------------------------

  /** Every live, labelled tombstoned MachineConfig is well typed, as is the status, and nobody else supplies
      policy entries for it. */
  ghost predicate Abandoned(e: Env, c: Cluster, a: Aggregate) {
    forall ref <- e.tombstones | IsMachineConfigRef(ref) && LabelledIn(c, ref) ::
      && ConfigTyped(c.objects[ref]) && Unsupplied(c.objects[ref], a, c.others)
      && (c.config.Some? && EffectivePolicies(c.config.value).Found? ==>
         WellTyped(c.objects[ref], EffectivePolicies(c.config.value).value))
  }

  lemma AbandonedIsReadable(e: Env, c: Cluster, a: Aggregate)
    requires Abandoned(e, c, a) && (c.config.Some? ==> !EffectivePolicies(c.config.value).Mismatch?)
    ensures Readable(e, c)
  {
    if c.config.Some? && EffectivePolicies(c.config.value).Found? {
      var effective := EffectivePolicies(c.config.value).value;
      forall ref <- e.tombstones | IsMachineConfigRef(ref) ensures RefCheck(c, ref, effective) != CheckError {
        if LabelledIn(c, ref) { WellTypedDecides(c.objects[ref], effective); }
      }
    }
  }

  /** Once the Machine Config Operator has taken over the applied policy, the check is clear. */
  lemma ObservedIsClear(e: Env, inp: Inputs, a: Aggregate, config: Object, c: Cluster, w: World)
    requires Quiet(e) && Aggregated(inp.assets, inp.scope) == Some(a)
    requires c.config == Some(ObservedConfig(AppliedConfig(config, c.others, DesiredConfig(PolicyObject(a)))))
    requires w.cluster == c
    requires forall ref <- e.tombstones | IsMachineConfigRef(ref) && LabelledIn(c, ref) ::
               ConfigTyped(c.objects[ref]) && Unsupplied(c.objects[ref], a, c.others)
    ensures CheckTombstones(e, w).verdict == Clear
  {
    var desired := DesiredConfig(PolicyObject(a));
    var policy := MergedPolicy(config, c.others, desired);
    AppliedPolicies(config, c.others, desired);
    ObservedPolicies(AppliedConfig(config, c.others, desired));
    forall ref <- e.tombstones | IsMachineConfigRef(ref) ensures RefCheck(c, ref, policy) == Clear {
      if LabelledIn(c, ref) { AppliedIsClear(inp.assets, inp.scope, a, config, c.others, c.objects[ref]); }
    }
    QuietCheck(e, w);
  }

  lemma FewerAreAbandoned(e: Env, c: Cluster, fewer: Cluster, a: Aggregate)
    requires Abandoned(e, c, a) && fewer.config == c.config && fewer.others == c.others
    requires forall ref <- fewer.objects :: ref in c.objects && fewer.objects[ref] == c.objects[ref]
    ensures Abandoned(e, fewer, a)
  {
    forall ref <- e.tombstones | IsMachineConfigRef(ref) && LabelledIn(fewer, ref) ensures LabelledIn(c, ref) {
    }
  }

  /** A tombstone is as it is inside. */
  lemma InsideAt(objects: map<Ref, Object>, after: map<Ref, Object>, refs: seq<Ref>, ref: Ref)
    requires Inside(after, refs) == Inside(Pruned(objects, refs, false), refs) && ref in refs && ref in after
    ensures ref in objects && after[ref] == objects[ref]
  {
    assert Inside(after, refs)[ref] == after[ref];
  }

  lemma CleanedAgain(objects: map<Ref, Object>, after: map<Ref, Object>, refs: seq<Ref>)
    requires Inside(after, refs) == Inside(Pruned(objects, refs, false), refs)
    ensures Inside(Cleaned(after, refs), refs) == Inside(Cleaned(objects, refs), refs)
  {
    var x, y := Inside(Cleaned(after, refs), refs), Inside(Cleaned(objects, refs), refs);
    forall ref ensures (ref in x <==> ref in y) && (ref in x ==> x[ref] == y[ref]) {
      assert ref in Inside(after, refs) <==> ref in Inside(Pruned(objects, refs, false), refs);
      assert ref in Inside(after, refs) ==> after[ref] == Inside(after, refs)[ref] == objects[ref];
    }
  }

  /** After a blocked reconcile that left MachineConfigs and a step of the Machine Config Operator, the next
      reconcile cleans up. */
  lemma SecondReconcile(e: Env, first: Inputs, second: Inputs, w: World, w2: World, a: Aggregate)
    requires Quiet(e) && GoesThrough(first) && GoesThrough(second) && Spares(second, e.tombstones)
    requires Aggregated(first.assets, first.scope) == Some(a)
    requires w.cluster.config.Some? && Unoverridden(w.cluster) && Abandoned(e, w.cluster, a)
    requires var applied := AppliedConfig(w.cluster.config.value, w.cluster.others, DesiredConfig(PolicyObject(a)));
             w2.cluster.config == Some(ObservedConfig(applied))
    requires w2.cluster.others == w.cluster.others
    requires Inside(w2.cluster.objects, e.tombstones) ==
            Inside(Pruned(w.cluster.objects, e.tombstones, false), e.tombstones)
    ensures Inside(Reconciled(e, second, w2).cluster.objects, e.tombstones) ==
            Inside(Cleaned(w.cluster.objects, e.tombstones), e.tombstones)
  {
    var config := w.cluster.config.value;
    var w3 := DeleteTombstones(e, e.tombstones, false, w2);
    QuietDeletions(e, e.tombstones, false, w2);
    forall ref <- e.tombstones | IsMachineConfigRef(ref) && LabelledIn(w3.cluster, ref)
      ensures ConfigTyped(w3.cluster.objects[ref]) && Unsupplied(w3.cluster.objects[ref], a, w3.cluster.others)
    {
      InsideAt(w.cluster.objects, w2.cluster.objects, e.tombstones, ref);
      assert LabelledIn(w.cluster, ref);
    }
    ObservedIsClear(e, first, a, config, w3.cluster, w3);
    AnnotationsStay(config, w.cluster.others, DesiredConfig(PolicyObject(a)));
    ClearReconcile(e, second, w2);
    CleanedAgain(w.cluster.objects, w2.cluster.objects, e.tombstones);
  }

  /** The first reconcile either cleans up, or applies the aggregate and leaves the MachineConfigs. */
  lemma FirstReconcile(e: Env, inp: Inputs, w: World, a: Aggregate)
    requires Quiet(e) && GoesThrough(inp) && Spares(inp, e.tombstones) && Aggregated(inp.assets, inp.scope) == Some(a)
    requires Unoverridden(w.cluster) && Abandoned(e, w.cluster, a)
    requires w.cluster.config.Some? ==> !EffectivePolicies(w.cluster.config.value).Mismatch?
    ensures var c, objects, refs := Reconciled(e, inp, w).cluster, w.cluster.objects, e.tombstones;
            || Inside(c.objects, refs) == Inside(Cleaned(objects, refs), refs)
            || (w.cluster.config.Some?
                && c.config ==
                   Some(AppliedConfig(w.cluster.config.value, w.cluster.others, DesiredConfig(PolicyObject(a))))
                && c.others == w.cluster.others
                && Inside(c.objects, refs) == Inside(Pruned(objects, refs, false), refs))
  {
    var w1 := DeleteTombstones(e, e.tombstones, false, w);
    QuietDeletions(e, e.tombstones, false, w);
    FewerAreAbandoned(e, w.cluster, w1.cluster, a);
    AbandonedIsReadable(e, w1.cluster, a);
    QuietCheck(e, w1);
    if CheckTombstones(e, w1).verdict == Clear {
      ClearReconcile(e, inp, w);
    } else {
      BlockedReconcile(e, inp, w, a);
    }
  }

  lemma StaysClean(objects: map<Ref, Object>, after: map<Ref, Object>, refs: seq<Ref>)
    requires Inside(after, refs) == Inside(Cleaned(objects, refs), refs)
    ensures Inside(Pruned(after, refs, false), refs) == Inside(after, refs) == Inside(Cleaned(after, refs), refs)
  {
    forall ref | ref in refs && ref in after ensures !Labelled(after[ref]) {
      assert Inside(after, refs)[ref] == after[ref];
      assert Inside(Cleaned(objects, refs), refs)[ref] == objects[ref];
    }
  }

  /** If nobody else supplies policy entries for the tombstoned MachineConfigs, the singleton is managed without
      ignore-fields and two reconciles go through, then a reconcile, a step of the Machine Config Operator and a
      reconcile leave, of the objects with tombstones, exactly those that are not labelled. */
  lemma TombstonesAreCleanedUp(e: Env, first: Inputs, second: Inputs, w: World, a: Aggregate)
    requires Quiet(e) && GoesThrough(first) && GoesThrough(second) && Spares(first, e.tombstones)
    requires Spares(second, e.tombstones)
    requires Aggregated(first.assets, first.scope) == Some(a) && Unoverridden(w.cluster) && Abandoned(e, w.cluster, a)
    requires w.cluster.config.Some? ==> !EffectivePolicies(w.cluster.config.value).Mismatch?
    ensures var w1 := Reconciled(e, first, w);
            var w2 := w1.(cluster := McoStep(w1.cluster));
            Inside(Reconciled(e, second, w2).cluster.objects, e.tombstones) ==
              Inside(Cleaned(w.cluster.objects, e.tombstones), e.tombstones)
  {
    var w1 := Reconciled(e, first, w);
    var w2 := w1.(cluster := McoStep(w1.cluster));
    FirstReconcile(e, first, w, a);
    if Inside(w1.cluster.objects, e.tombstones) == Inside(Cleaned(w.cluster.objects, e.tombstones), e.tombstones) {
      QuietReconcile(e, second, w2);
      StaysClean(w.cluster.objects, w2.cluster.objects, e.tombstones);
    } else {
      SecondReconcile(e, first, second, w, w2, a);
    }
  }
}
