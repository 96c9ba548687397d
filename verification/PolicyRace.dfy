/** What is effective when a MachineConfig is deleted, while the Machine Config Operator takes over policies
    between any two API calls of a reconcile. */
module PolicyRace {
  import opened JsonTree
  import opened Ownership
  import opened NodeDisruptionPolicy
  import opened PolicyAggregation
  import opened Tombstones
  import opened Platform
  import Progress = PlatformProgress
  import Safety = PlatformSafety
  import Masking = JsonPointer

  /** Nobody but the Machine Config Operator acts during a reconcile; API calls may fail. */
  ghost predicate McoOnly(e: Env) {
    forall n, c :: e.moves(n, c) == c || e.moves(n, c) == McoStep(c)
  }

  ghost predicate SpecFree(c: Cluster, machineConfig: Object) {
    c.config.Some? ==> NoEntries(machineConfig, SpecPolicy(c.config.value))
  }

  /** No effective policy entry applies to the MachineConfig. */
  ghost predicate StatusFree(c: Cluster, machineConfig: Object) {
    c.config.Some? && EffectivePolicies(c.config.value).Found? ==>
      NoEntries(machineConfig, EffectivePolicies(c.config.value).value)
  }

  ghost predicate Free(c: Cluster, machineConfig: Object) { SpecFree(c, machineConfig) && StatusFree(c, machineConfig) }

  predicate Has(c: Cluster, ref: Ref, machineConfig: Object) { ref in c.objects && c.objects[ref] == machineConfig }

  // What the Machine Config Operator can do to the singleton. -----------------------------------------------

  predicate ConfigFollows(before: Option<Object>, after: Option<Object>) {
    after == before || (before.Some? && after == Some(ObservedConfig(before.value)))
  }

  lemma ConfigFollowsThen(a: Option<Object>, b: Option<Object>, c: Option<Object>)
    requires ConfigFollows(a, b) && ConfigFollows(b, c)
    ensures ConfigFollows(a, c)
  {
    if a.Some? { ObservedTwice(a.value); }
  }

  lemma ObservedTwice(config: Object)
    ensures ObservedConfig(ObservedConfig(config)) == ObservedConfig(config)
  {
    var once := ObservedConfig(config);
    ObservedMetadata(config);
    assert SpecPolicy(once) == SpecPolicy(config);
    assert FieldsAt(once, "status") == once["status"].fields;
    assert ObservedConfig(once)["status"] == once["status"];
  }

  lemma ObservedMetadata(config: Object)
    ensures Generation(ObservedConfig(config)) == Generation(config)
    ensures Annotations(ObservedConfig(config)) == Annotations(config)
  {
    SameField(config, ObservedConfig(config), "metadata", ["generation"]);
    SameField(config, ObservedConfig(config), "metadata", ["annotations"]);
    assert ["metadata"] + ["generation"] == ["metadata", "generation"];
    assert ["metadata"] + ["annotations"] == ["metadata", "annotations"];
  }

  /** What lies below a field depends on that field alone. */
  lemma SameField(a: Object, b: Object, k: string, rest: Path)
    requires (k in a <==> k in b) && (k in a ==> a[k] == b[k])
    ensures Nested(Obj(a), [k] + rest) == Nested(Obj(b), [k] + rest)
  {
    assert ([k] + rest)[1..] == rest;
  }

  /** The Machine Config Operator at most took over the policy of the spec. */
  ghost predicate Follows(before: Cluster, after: Cluster) {
    ConfigFollows(before.config, after.config) && after.others == before.others && after.objects == before.objects
  }

  lemma FollowsThen(a: Cluster, b: Cluster, c: Cluster)
    requires Follows(a, b) && Follows(b, c)
    ensures Follows(a, c)
  {
    ConfigFollowsThen(a.config, b.config, c.config);
  }

  lemma FollowsKeeps(before: Cluster, after: Cluster, o: Object)
    requires ConfigFollows(before.config, after.config)
    ensures SpecFree(before, o) <==> SpecFree(after, o)
    ensures Free(before, o) ==> Free(after, o)
    ensures before.config.Some? <==> after.config.Some?
    ensures before.config.Some? ==> Annotations(before.config.value) == Annotations(after.config.value)
  {
    if before.config.Some? {
      Progress.ObservedPolicies(before.config.value);
      ObservedMetadata(before.config.value);
      assert SpecPolicy(ObservedConfig(before.config.value)) == SpecPolicy(before.config.value);
    }
  }

  // Deletions. ----------------------------------------------------------------------------------------------

  /** Every deletion of a tombstone in the newer events found no effective entry for the MachineConfig. */
  ghost predicate FreeDeletions(log: seq<Event>, longer: seq<Event>, ref: Ref, o: Object) {
    forall i | |log| <= i < |longer| && longer[i].Deleted? && longer[i].ref == ref ::
      StatusFree(longer[i].write.found, o)
  }

  lemma CallFollows(e: Env, w: World)
    requires McoOnly(e)
    ensures Follows(w.cluster, Finds(e, w)) && Called(e, w).cluster == Finds(e, w)
  {
  }

  lemma CallKeepsFree(e: Env, w: World, o: Object)
    requires McoOnly(e) && Free(w.cluster, o)
    ensures Free(Finds(e, w), o)
  {
    CallFollows(e, w);
    FollowsKeeps(w.cluster, Finds(e, w), o);
  }

  lemma OneDeletionIsFree(log: seq<Event>, deleted: Event, ref: Ref, o: Object)
    requires deleted.Deleted? && StatusFree(deleted.write.found, o)
    ensures FreeDeletions(log, log + [deleted], ref, o)
  {
    assert forall i | |log| <= i < |log + [deleted]| :: (log + [deleted])[i] == deleted;
  }

  /** What a deletion attempt adds to the log, and that it leaves the singleton as one of its calls found it. */
  lemma DeletionEvents(e: Env, r: Ref, machineConfigs: bool, w: World)
    ensures var c, w1 := DeleteTombstone(e, r, machineConfigs, w), Called(e, w);
            var found := Finds(e, w1);
            && c.cluster.config in {w.cluster.config, w1.cluster.config, found.config}
            && var event := Deleted(|w1.calls|, r, Call(w1.cluster, w1.cluster), Call(found, c.cluster));
               c.log == w.log || c.log == w.log + [event]
  {
  }

  lemma DeletionIsFree(e: Env, r: Ref, machineConfigs: bool, w: World, ref: Ref, o: Object)
    requires McoOnly(e) && Free(w.cluster, o)
    ensures var c := DeleteTombstone(e, r, machineConfigs, w);
            w.log <= c.log && Free(c.cluster, o) && FreeDeletions(w.log, c.log, ref, o)
  {
    var c, w1 := DeleteTombstone(e, r, machineConfigs, w), Called(e, w);
    CallKeepsFree(e, w, o);
    CallKeepsFree(e, w1, o);
    DeletionEvents(e, r, machineConfigs, w);
    var event := Deleted(|w1.calls|, r, Call(w1.cluster, w1.cluster), Call(Finds(e, w1), c.cluster));
    OneDeletionIsFree(w.log, event, ref, o);
  }

  lemma {:induction false} DeletionsAreFree(e: Env, refs: seq<Ref>, machineConfigs: bool, w: World, ref: Ref, o: Object)
    requires McoOnly(e) && Free(w.cluster, o)
    ensures var r := DeleteTombstones(e, refs, machineConfigs, w); w.log <= r.log && FreeDeletions(w.log, r.log, ref, o)
    decreases |refs|
  {
    if refs != [] {
      var w1 := DeleteTombstone(e, refs[0], machineConfigs, w);
      DeletionIsFree(e, refs[0], machineConfigs, w, ref, o);
      DeletionsAreFree(e, refs[1..], machineConfigs, w1, ref, o);
      FreeDeletionsThen(w.log, w1.log, DeleteTombstones(e, refs[1..], machineConfigs, w1).log, ref, o);
    }
  }

  lemma FreeDeletionsThen(log: seq<Event>, mid: seq<Event>, longer: seq<Event>, ref: Ref, o: Object)
    requires log <= mid <= longer && FreeDeletions(log, mid, ref, o) && FreeDeletions(mid, longer, ref, o)
    ensures FreeDeletions(log, longer, ref, o)
  {
    forall i | |log| <= i < |longer| && longer[i].Deleted? && longer[i].ref == ref
      ensures StatusFree(longer[i].write.found, o)
    {
      assert i < |mid| ==> longer[i] == mid[i];
    }
  }

  /** The deletion of other kinds of tombstones leaves a MachineConfig and, but for the Machine Config Operator,
      the singleton. */
  lemma {:induction false} OtherDeletions(e: Env, refs: seq<Ref>, w: World, ref: Ref, o: Object)
    requires McoOnly(e) && IsMachineConfigRef(ref) && Has(w.cluster, ref, o)
    ensures var c := DeleteTombstones(e, refs, false, w).cluster;
            ConfigFollows(w.cluster.config, c.config) && c.others == w.cluster.others && Has(c, ref, o)
    decreases |refs|
  {
    if refs != [] {
      var w1 := DeleteTombstone(e, refs[0], false, w);
      OtherDeletion(e, refs[0], w, ref, o);
      OtherDeletions(e, refs[1..], w1, ref, o);
      ConfigFollowsThen(w.cluster.config, w1.cluster.config, DeleteTombstones(e, refs, false, w).cluster.config);
    }
  }

  lemma OtherDeletion(e: Env, r: Ref, w: World, ref: Ref, o: Object)
    requires McoOnly(e) && IsMachineConfigRef(ref) && Has(w.cluster, ref, o)
    ensures var c := DeleteTombstone(e, r, false, w).cluster;
            ConfigFollows(w.cluster.config, c.config) && c.others == w.cluster.others && Has(c, ref, o)
  {
    var w1 := Called(e, w);
    CallFollows(e, w);
    CallFollows(e, w1);
    FollowsThen(w.cluster, w1.cluster, Finds(e, w1));
  }

  // Checks. -------------------------------------------------------------------------------------------------

  lemma {:induction false} ScanFollows(e: Env, refs: seq<Ref>, effective: Object, w: World)
    requires McoOnly(e)
    ensures Follows(w.cluster, ScanTombstones(e, refs, effective, w).world.cluster)
    decreases |refs|
  {
    if refs != [] {
      var w1 := Called(e, w);
      CallFollows(e, w);
      ScanFollows(e, refs[1..], effective, w);
      ScanFollows(e, refs[1..], effective, w1);
      FollowsThen(w.cluster, w1.cluster, ScanTombstones(e, refs[1..], effective, w1).world.cluster);
    }
  }

  lemma CheckFollows(e: Env, w: World)
    requires McoOnly(e)
    ensures Follows(w.cluster, CheckTombstones(e, w).world.cluster)
  {
    var w1 := Called(e, w);
    CallFollows(e, w);
    if w1.cluster.config.Some? && EffectivePolicies(w1.cluster.config.value).Found? {
      var effective := EffectivePolicies(w1.cluster.config.value).value;
      ScanFollows(e, e.tombstones, effective, w1);
      FollowsThen(w.cluster, w1.cluster, ScanTombstones(e, e.tombstones, effective, w1).world.cluster);
    }
  }

  /** A clear scan found no entry for a MachineConfig that was there all along. */
  lemma {:induction false} ClearScan(e: Env, refs: seq<Ref>, effective: Object, w: World, ref: Ref, o: Object)
    requires McoOnly(e) && IsMachineConfigRef(ref) && ref in refs && Has(w.cluster, ref, o) && Labelled(o)
    requires ScanTombstones(e, refs, effective, w).verdict == Clear
    ensures NoEntries(o, effective)
    decreases |refs|
  {
    var w1 := Called(e, w);
    CallFollows(e, w);
    if refs[0] == ref {
      assert RefCheck(w1.cluster, ref, effective) == PolicyCheck(o, effective);
      ClearIffNoEntries(o, effective);
    } else {
      ClearScan(e, refs[1..], effective, if IsMachineConfigRef(refs[0]) then w1 else w, ref, o);
    }
  }

  /** With no entry in the spec, a clear check means no effective entry, then and after. */
  lemma ClearCheck(e: Env, w: World, ref: Ref, o: Object)
    requires McoOnly(e) && IsMachineConfigRef(ref) && ref in e.tombstones && Has(w.cluster, ref, o) && Labelled(o)
    requires SpecFree(w.cluster, o) && CheckTombstones(e, w).verdict == Clear
    ensures Free(CheckTombstones(e, w).world.cluster, o)
  {
    var w1 := Called(e, w);
    CallFollows(e, w);
    FollowsKeeps(w.cluster, w1.cluster, o);
    assert Free(w1.cluster, o) by {
      if w1.cluster.config.Some? && EffectivePolicies(w1.cluster.config.value).Found? {
        ClearScan(e, e.tombstones, EffectivePolicies(w1.cluster.config.value).value, w1, ref, o);
      }
    }
    ScanKeepsFree(e, w, o);
  }

  lemma ScanKeepsFree(e: Env, w: World, o: Object)
    requires McoOnly(e) && Free(Called(e, w).cluster, o)
    ensures Free(CheckTombstones(e, w).world.cluster, o)
  {
    var w1 := Called(e, w);
    if w1.cluster.config.Some? && EffectivePolicies(w1.cluster.config.value).Found? {
      var effective := EffectivePolicies(w1.cluster.config.value).value;
      ScanFollows(e, e.tombstones, effective, w1);
      FollowsKeeps(w1.cluster, ScanTombstones(e, e.tombstones, effective, w1).world.cluster, o);
    }
  }

  // The apply. ----------------------------------------------------------------------------------------------

  /** The aggregate has no entry for the MachineConfig, and applying it leaves none in the spec. */
  lemma AppliedIsFree(assets: seq<Asset>, scope: Scope, a: Aggregate, c: Cluster, desired: Object, o: Object)
    requires Aggregated(assets, scope) == Some(a) && Progress.Unsupplied(o, a, c.others)
    requires desired == DesiredConfig(PolicyObject(a))
    ensures var r := ServerApply(c, desired);
            SpecFree(r, o) && (StatusFree(c, o) ==> StatusFree(r, o))
  {
    var config := if c.config.Some? then c.config.value else map[];
    MergedIsFree(assets, scope, a, config, c.others, o);
    Progress.AppliedPolicies(config, c.others, desired);
    StatusStays(config, c.others, desired);
  }

  lemma StatusStays(config: Object, others: map<(string, string), set<string>>, desired: Object)
    ensures EffectivePolicies(AppliedConfig(config, others, desired)) == EffectivePolicies(config)
  {
    SameField(config, AppliedConfig(config, others, desired), "status",
      ["nodeDisruptionPolicyStatus", "clusterPolicies"]);
    assert ["status"] + ["nodeDisruptionPolicyStatus", "clusterPolicies"] ==
      ["status", "nodeDisruptionPolicyStatus", "clusterPolicies"];
  }

  lemma MergedIsFree(assets: seq<Asset>, scope: Scope, a: Aggregate, config: Object,
                     others: map<(string, string), set<string>>, o: Object)
    requires Aggregated(assets, scope) == Some(a) && Progress.Unsupplied(o, a, others)
    ensures NoEntries(o, MergedPolicy(config, others, DesiredConfig(PolicyObject(a))))
  {
    var policy := MergedPolicy(config, others, DesiredConfig(PolicyObject(a)));
    forall k <- {FILES, UNITS} ensures Unnamed(ConfigEntries(o, k), ListOr(NestedList(policy, [k.field])), k.id) {
      KeyedMergedIsFree(assets, scope, a, config, others, o, k);
    }
  }

  lemma KeyedMergedIsFree(assets: seq<Asset>, scope: Scope, a: Aggregate, config: Object,
                          others: map<(string, string), set<string>>, o: Object, k: Keyed)
    requires Aggregated(assets, scope) == Some(a) && Progress.KeyedUnsupplied(o, a, others, k)
    requires k == FILES || k == UNITS
    ensures Unnamed(ConfigEntries(o, k),
            ListOr(NestedList(MergedPolicy(config, others, DesiredConfig(PolicyObject(a))), [k.field])), k.id)
  {
    Progress.MergedIdentified(assets, scope, a, config, others, k);
    Progress.IdentifiedIsFree(o,
      NestedList(MergedPolicy(config, others, DesiredConfig(PolicyObject(a))), [k.field]).value, a, others, k);
  }

  predicate NoIgnoredFields(c: Cluster) { c.config.Some? ==> !IgnoresFields(c.config.value) }

  lemma FollowsKeepsFields(before: Cluster, after: Cluster)
    requires ConfigFollows(before.config, after.config) && NoIgnoredFields(before)
    ensures NoIgnoredFields(after)
  {
    if before.config.Some? { ObservedMetadata(before.config.value); }
  }

  /** Without ignore-fields a plan applies the aggregate as it is. */
  lemma PlanAsIs(c: Cluster, desired: Object, allowCreate: bool)
    requires NoIgnoredFields(c)
    ensures var plan := PlanFor(c.config, desired, allowCreate); plan == Leave || plan == Apply(desired, true)
  {
    if c.config.Some? { assert Masking.Mask(desired, c.config.value) == Some(desired); }
  }

  lemma AggregateSteps(e: Env, w: World, desired: Object, allowCreate: bool)
    requires NoIgnoredFields(Called(e, w).cluster)
    ensures var p, w1 := ApplyAggregate(e, w, desired, allowCreate), Called(e, w);
            || (!p.managed && p.world.cluster in {w1.cluster, Finds(e, w1)})
            || p.world.cluster == ServerApply(Finds(e, w1), desired)
  {
    PlanAsIs(Called(e, w).cluster, desired, allowCreate);
  }

  lemma AggregateKeepsFree(e: Env, inp: Inputs, w: World, a: Aggregate, desired: Object, allowCreate: bool, ref: Ref,
                           o: Object)
    requires McoOnly(e) && NoIgnoredFields(w.cluster) && Has(w.cluster, ref, o)
    requires desired == DesiredConfig(PolicyObject(a))
    requires Aggregated(inp.assets, inp.scope) == Some(a) && Progress.Unsupplied(o, a, w.cluster.others)
    ensures var p := ApplyAggregate(e, w, desired, allowCreate);
            && (Free(w.cluster, o) ==> Free(p.world.cluster, o)) && (p.managed ==> SpecFree(p.world.cluster, o))
            && Has(p.world.cluster, ref, o)
  {
    var w1 := Called(e, w);
    CallFollows(e, w);
    CallFollows(e, w1);
    FollowsKeepsFields(w.cluster, w1.cluster);
    AggregateSteps(e, w, desired, allowCreate);
    if Free(w.cluster, o) {
      CallKeepsFree(e, w, o);
      CallKeepsFree(e, w1, o);
    }
    AppliedIsFree(inp.assets, inp.scope, a, Finds(e, w1), desired, o);
  }

  /** Reconciling the policies is the apply of the aggregate, or nothing. */
  lemma PolicyIs(e: Env, inp: Inputs, prune: bool, w: World, a: Aggregate, desired: Object)
    requires Aggregated(inp.assets, inp.scope) == Some(a) && desired == DesiredConfig(PolicyObject(a))
    ensures ReconcilePolicy(e, inp, prune, w) in
              {PolicyResult(w, false, false), ApplyAggregate(e, w, desired, HasEntries(a) || prune)}
  {
  }

  lemma PolicyKeepsFree(e: Env, inp: Inputs, prune: bool, w: World, a: Aggregate, ref: Ref, o: Object)
    requires McoOnly(e) && NoIgnoredFields(w.cluster) && Has(w.cluster, ref, o)
    requires Aggregated(inp.assets, inp.scope) == Some(a) && Progress.Unsupplied(o, a, w.cluster.others)
    ensures var p := ReconcilePolicy(e, inp, prune, w);
            && (Free(w.cluster, o) ==> Free(p.world.cluster, o)) && (p.managed ==> SpecFree(p.world.cluster, o))
            && Has(p.world.cluster, ref, o)
  {
    var desired := DesiredConfig(PolicyObject(a));
    AggregateKeepsFree(e, inp, w, a, desired, HasEntries(a) || prune, ref, o);
    PolicyIs(e, inp, prune, w, a, desired);
  }

  /** Reconciling the other assets keeps what it spares. */
  lemma AssetsKeepFree(e: Env, inp: Inputs, w: World, ref: Ref, o: Object)
    requires McoOnly(e) && Progress.Spares(inp, e.tombstones) && ref in e.tombstones && Has(w.cluster, ref, o)
    ensures var c := AssetsStep(e, inp, w).cluster;
            && Has(c, ref, o) && (SpecFree(w.cluster, o) ==> SpecFree(c, o)) && (Free(w.cluster, o) ==> Free(c, o))
  {
    var found := Finds(e, w);
    CallFollows(e, w);
    FollowsKeeps(w.cluster, found, o);
    SparedKeeps(found, inp.reconcileAssets(found), e.tombstones, ref, o);
  }

  lemma SparedKeeps(before: Cluster, after: Cluster, refs: seq<Ref>, ref: Ref, o: Object)
    requires Progress.Spared(before, after, refs) && ref in refs && Has(before, ref, o)
    ensures after.config == before.config && Has(after, ref, o)
  {
    assert Progress.Inside(before.objects, refs)[ref] == o;
    assert Progress.Inside(after.objects, refs)[ref] == after.objects[ref];
  }

  // What is effective at a deletion. ------------------------------------------------------------------------

  /** Behind the barrier nothing is effective for a MachineConfig without entries in the spec. */
  lemma BarrierIsFree(e: Env, w: World, ref: Ref, o: Object)
    requires McoOnly(e) && IsMachineConfigRef(ref) && ref in e.tombstones && Has(w.cluster, ref, o) && Labelled(o)
    requires SpecFree(w.cluster, o) && Barrier(e, true, w).observed
    ensures Free(Barrier(e, true, w).world.cluster, o)
  {
    var read := ObserveGeneration(e, w).world;
    GenerationKeeps(e, w, ref, o);
    ClearCheck(e, read, ref, o);
  }

  lemma GenerationKeeps(e: Env, w: World, ref: Ref, o: Object)
    requires McoOnly(e) && Has(w.cluster, ref, o) && SpecFree(w.cluster, o)
    ensures var c := ObserveGeneration(e, w).world.cluster; Has(c, ref, o) && SpecFree(c, o)
  {
    CallFollows(e, w);
    FollowsKeeps(w.cluster, Finds(e, w), o);
    assert ObserveGeneration(e, w).world.cluster == Finds(e, w);
  }

  lemma FinishIsFree(e: Env, blocked: bool, managed: bool, w: World, ref: Ref, o: Object)
    requires McoOnly(e) && IsMachineConfigRef(ref) && ref in e.tombstones && Has(w.cluster, ref, o) && Labelled(o)
    requires if blocked then managed ==> SpecFree(w.cluster, o) else Free(w.cluster, o)
    ensures FreeDeletions(w.log, Finished(e, blocked, managed, w).log, ref, o)
  {
    if !blocked {
      DeletionsAreFree(e, e.tombstones, true, w, ref, o);
    } else if managed {
      var b := Barrier(e, true, w);
      Safety.BarrierEvents(e, w);
      if b.observed {
        BarrierIsFree(e, w, ref, o);
        DeletionsAreFree(e, e.tombstones, true, b.world, ref, o);
        FreeDeletionsThen(w.log, b.world.log, DeleteTombstones(e, e.tombstones, true, b.world).log, ref, o);
      }
    }
  }

  lemma AfterPolicyIsFree(e: Env, inp: Inputs, blocked: bool, p: PolicyResult, ref: Ref, o: Object)
    requires McoOnly(e) && Progress.Spares(inp, e.tombstones)
    requires IsMachineConfigRef(ref) && ref in e.tombstones && Has(p.world.cluster, ref, o) && Labelled(o)
    requires if blocked then p.managed ==> SpecFree(p.world.cluster, o) else Free(p.world.cluster, o)
    ensures FreeDeletions(p.world.log, AfterPolicy(e, inp, blocked, p).log, ref, o)
  {
    var w := AssetsStep(e, inp, p.world);
    AssetsKeepFree(e, inp, p.world, ref, o);
    FinishIsFree(e, blocked, p.managed, w, ref, o);
    Safety.FinishTraced(e, blocked, p.managed, w);
    FreeDeletionsThen(p.world.log, w.log, Finished(e, blocked, p.managed, w).log, ref, o);
  }

  lemma ApplyIsFree(log: seq<Event>, p: PolicyResult, ref: Ref, o: Object)
    requires Safety.AppliesAtMost(log, p)
    ensures log <= p.world.log && FreeDeletions(log, p.world.log, ref, o)
  {
  }

  lemma CheckedIsFree(e: Env, inp: Inputs, w: World, blocked: bool, a: Aggregate, ref: Ref, o: Object)
    requires McoOnly(e) && NoIgnoredFields(w.cluster) && Progress.Spares(inp, e.tombstones)
    requires IsMachineConfigRef(ref) && ref in e.tombstones && Has(w.cluster, ref, o) && Labelled(o)
    requires Aggregated(inp.assets, inp.scope) == Some(a) && Progress.Unsupplied(o, a, w.cluster.others)
    requires blocked || Free(w.cluster, o)
    ensures FreeDeletions(w.log, ReconcileChecked(e, inp, w, blocked).log, ref, o)
  {
    var p := ReconcilePolicy(e, inp, blocked, w);
    PolicyKeepsFree(e, inp, blocked, w, a, ref, o);
    Safety.PolicyEvents(e, inp, blocked, w);
    ApplyIsFree(w.log, p, ref, o);
    AfterPolicyIsFree(e, inp, blocked, p, ref, o);
    Safety.AfterPolicyTraced(e, inp, blocked, p);
    FreeDeletionsThen(w.log, p.world.log, AfterPolicy(e, inp, blocked, p).log, ref, o);
  }

  /** The policies that the first check of a reconcile goes by. */
  ghost function FirstCheck(e: Env, w: World): Scanned {
    CheckTombstones(e, DeleteTombstones(e, e.tombstones, false, w))
  }

  /** The reconcile up to the end of its first check. */
  lemma FirstCheckKeeps(e: Env, w: World, ref: Ref, o: Object)
    requires McoOnly(e) && NoIgnoredFields(w.cluster) && IsMachineConfigRef(ref) && ref in e.tombstones
    requires Has(w.cluster, ref, o) && Labelled(o)
    ensures var c := FirstCheck(e, w);
            && NoIgnoredFields(c.world.cluster) && Has(c.world.cluster, ref, o)
            && c.world.cluster.others == w.cluster.others
            && (c.verdict == Clear && SpecFree(w.cluster, o) ==> Free(c.world.cluster, o))
  {
    var w1 := DeleteTombstones(e, e.tombstones, false, w);
    OtherDeletions(e, e.tombstones, w, ref, o);
    FollowsKeeps(w.cluster, w1.cluster, o);
    FollowsKeepsFields(w.cluster, w1.cluster);
    CheckFollows(e, w1);
    FollowsKeepsFields(w1.cluster, FirstCheck(e, w).world.cluster);
    if FirstCheck(e, w).verdict == Clear && SpecFree(w.cluster, o) { ClearCheck(e, w1, ref, o); }
  }

  lemma CheckEvents(e: Env, w: World, ref: Ref, o: Object)
    ensures w.log <= CheckTombstones(e, w).world.log && FreeDeletions(w.log, CheckTombstones(e, w).world.log, ref, o)
  {
    Safety.ScanClusterTraced(e, w);
  }

  lemma FirstDeletionsEvents(e: Env, w: World, ref: Ref, o: Object)
    requires IsMachineConfigRef(ref)
    ensures w.log <= DeleteTombstones(e, e.tombstones, false, w).log
    ensures FreeDeletions(w.log, DeleteTombstones(e, e.tombstones, false, w).log, ref, o)
  {
    Safety.DeletionsOnly(e, e.tombstones, false, w);
  }

  lemma FirstCheckEvents(e: Env, w: World, ref: Ref, o: Object)
    requires IsMachineConfigRef(ref)
    ensures w.log <= FirstCheck(e, w).world.log && FreeDeletions(w.log, FirstCheck(e, w).world.log, ref, o)
    ensures w.log <= DeleteTombstones(e, e.tombstones, false, w).log
    ensures FreeDeletions(w.log, DeleteTombstones(e, e.tombstones, false, w).log, ref, o)
  {
    var w1 := DeleteTombstones(e, e.tombstones, false, w);
    FirstDeletionsEvents(e, w, ref, o);
    CheckEvents(e, w1, ref, o);
    FreeDeletionsThen(w.log, w1.log, CheckTombstones(e, w1).world.log, ref, o);
  }

  /** While only the Machine Config Operator interferes, nobody supplies entries for a tombstoned MachineConfig and
      the singleton has no ignore-fields: if the spec has no entry for the MachineConfig either, or the first check
      blocks, then no entry is effective for it at the moment it is deleted. */
  lemma NothingEffectiveAtDeletion(e: Env, inp: Inputs, w: World, a: Aggregate, ref: Ref, o: Object)
    requires McoOnly(e) && NoIgnoredFields(w.cluster) && Progress.Spares(inp, e.tombstones)
    requires IsMachineConfigRef(ref) && ref in e.tombstones && Has(w.cluster, ref, o) && Labelled(o)
    requires Aggregated(inp.assets, inp.scope) == Some(a) && Progress.Unsupplied(o, a, w.cluster.others)
    requires SpecFree(w.cluster, o) || FirstCheck(e, w).verdict == Blocked
    ensures FreeDeletions(w.log, Reconciled(e, inp, w).log, ref, o)
  {
    var c := FirstCheck(e, w);
    FirstCheckKeeps(e, w, ref, o);
    FirstCheckEvents(e, w, ref, o);
    if c.verdict != CheckError {
      CheckedIsFree(e, inp, c.world, c.verdict == Blocked, a, ref, o);
      Safety.CheckedTraced(e, inp, c.world, c.verdict == Blocked);
      FreeDeletionsThen(w.log, c.world.log, ReconcileChecked(e, inp, c.world, c.verdict == Blocked).log, ref, o);
    }
  }

  // The condition is needed. --------------------------------------------------------------------------------

  /** Nobody interferes and nothing fails; or the Machine Config Operator takes over the spec before call k. */
  function Calm(refs: seq<Ref>): Env { Env((n: nat, c: Cluster) => c, (n: nat) => false, refs) }

  function Late(refs: seq<Ref>, k: nat): Env {
    Env((n: nat, c: Cluster) => if n == k then McoStep(c) else c, (n: nat) => false, refs)
  }

  lemma SameCall(refs: seq<Ref>, k: nat, w: World)
    requires |w.calls| != k
    ensures Finds(Late(refs, k), w) == w.cluster && Finds(Calm(refs), w) == w.cluster
    ensures Called(Late(refs, k), w) == Called(Calm(refs), w)
  {
  }

  /** Deletions and checks that end before call k do not notice it. */
  lemma SameDeletion(refs: seq<Ref>, k: nat, r: Ref, machineConfigs: bool, w: World)
    requires |DeleteTombstone(Calm(refs), r, machineConfigs, w).calls| <= k
    ensures DeleteTombstone(Late(refs, k), r, machineConfigs, w) == DeleteTombstone(Calm(refs), r, machineConfigs, w)
  {
    if IsMachineConfigRef(r) == machineConfigs {
      SameCall(refs, k, w);
      if LabelledIn(w.cluster, r) { SameCall(refs, k, Called(Calm(refs), w)); }
    }
  }

  lemma {:induction false} SameDeletions(refs: seq<Ref>, k: nat, rest: seq<Ref>, machineConfigs: bool, w: World)
    requires |DeleteTombstones(Calm(refs), rest, machineConfigs, w).calls| <= k
    ensures DeleteTombstones(Late(refs, k), rest, machineConfigs, w) ==
            DeleteTombstones(Calm(refs), rest, machineConfigs, w)
    decreases |rest|
  {
    if rest != [] {
      var w1 := DeleteTombstone(Calm(refs), rest[0], machineConfigs, w);
      Safety.DeletionsTraced(Calm(refs), rest[1..], machineConfigs, w1);
      SameDeletion(refs, k, rest[0], machineConfigs, w);
      SameDeletions(refs, k, rest[1..], machineConfigs, w1);
    }
  }

  lemma {:induction false} SameScan(refs: seq<Ref>, k: nat, rest: seq<Ref>, effective: Object, w: World)
    requires |ScanTombstones(Calm(refs), rest, effective, w).world.calls| <= k
    ensures ScanTombstones(Late(refs, k), rest, effective, w) == ScanTombstones(Calm(refs), rest, effective, w)
    decreases |rest|
  {
    if rest != [] {
      if !IsMachineConfigRef(rest[0]) {
        SameScan(refs, k, rest[1..], effective, w);
      } else {
        var w1 := Called(Calm(refs), w);
        Safety.ScanGrows(Calm(refs), rest[1..], effective, w1);
        SameCall(refs, k, w);
        if RefCheck(w1.cluster, rest[0], effective) == Clear { SameScan(refs, k, rest[1..], effective, w1); }
      }
    }
  }

  lemma SameCheck(refs: seq<Ref>, k: nat, w: World)
    requires |CheckTombstones(Calm(refs), w).world.calls| <= k
    ensures CheckTombstones(Late(refs, k), w) == CheckTombstones(Calm(refs), w)
  {
    var w1 := Called(Calm(refs), w);
    Safety.ScanClusterTraced(Calm(refs), w);
    SameCall(refs, k, w);
    if w1.cluster.config.Some? && EffectivePolicies(w1.cluster.config.value).Found? {
      SameScan(refs, k, refs, EffectivePolicies(w1.cluster.config.value).value, w1);
    }
  }

  /** The first check is over before call k if it would be without interference. */
  lemma SameFirstCheck(refs: seq<Ref>, w: World)
    ensures var calm := FirstCheck(Calm(refs), w);
            FirstCheck(Late(refs, |calm.world.calls|), w) == calm && w.log <= calm.world.log
  {
    var k, w1 := |FirstCheck(Calm(refs), w).world.calls|, DeleteTombstones(Calm(refs), refs, false, w);
    Safety.DeletionsTraced(Calm(refs), refs, false, w);
    Safety.CheckTraced(Calm(refs), w1);
    SameDeletions(refs, k, refs, false, w);
    SameCheck(refs, k, w1);
  }

  lemma CalmFirstCheck(refs: seq<Ref>, w: World, ref: Ref, o: Object)
    requires IsMachineConfigRef(ref) && Has(w.cluster, ref, o)
    ensures var c := FirstCheck(Calm(refs), w).world.cluster;
            c.config == w.cluster.config && c.others == w.cluster.others && Has(c, ref, o)
  {
    var w1 := DeleteTombstones(Calm(refs), refs, false, w);
    Progress.QuietDeletions(Calm(refs), refs, false, w);
    Progress.QuietCheckKeeps(Calm(refs), w1);
  }

  /** Every policy of the status is effective. */
  ghost predicate Reports(c: Cluster, policy: Object) {
    c.config.Some? && EffectivePolicies(c.config.value) == Found(policy)
  }

  lemma LatePolicy(refs: seq<Ref>, w: World, desired: Object, allowCreate: bool)
    requires w.cluster.config.Some? && NoIgnoredFields(w.cluster)
    ensures var p := ApplyAggregate(Late(refs, |w.calls|), w, desired, allowCreate);
            && |w.calls| < |p.world.calls| && p.world.cluster.objects == w.cluster.objects
            && !p.error && Reports(p.world.cluster, SpecPolicy(w.cluster.config.value))
  {
    var e, config := Late(refs, |w.calls|), w.cluster.config.value;
    var w1 := Called(e, w);
    assert w1.cluster == w.cluster.(config := Some(ObservedConfig(config)));
    SameCall(refs, |w.calls|, w1);
    FollowsKeepsFields(w.cluster, w1.cluster);
    PlanAsIs(w1.cluster, desired, allowCreate);
    LateStatus(w1.cluster, config, desired);
  }

  lemma LateStatus(c: Cluster, config: Object, desired: Object)
    requires c.config == Some(ObservedConfig(config))
    ensures Reports(c, SpecPolicy(config)) && Reports(ServerApply(c, desired), SpecPolicy(config))
  {
    Progress.ObservedPolicies(config);
    StatusStays(ObservedConfig(config), c.others, desired);
  }

  lemma UnfreeLater(log: seq<Event>, mid: seq<Event>, longer: seq<Event>, ref: Ref, o: Object)
    requires mid <= longer && !FreeDeletions(log, mid, ref, o)
    ensures !FreeDeletions(log, longer, ref, o)
  {
    var i :| |log| <= i < |mid| && mid[i].Deleted? && mid[i].ref == ref && !StatusFree(mid[i].write.found, o);
    assert longer[i] == mid[i];
  }

  lemma UnfreeEarlier(log: seq<Event>, mid: seq<Event>, longer: seq<Event>, ref: Ref, o: Object)
    requires |log| <= |mid| && !FreeDeletions(mid, longer, ref, o)
    ensures !FreeDeletions(log, longer, ref, o)
  {
  }

  lemma LateDeletion(refs: seq<Ref>, k: nat, w: World, ref: Ref, policy: Object, o: Object)
    requires IsMachineConfigRef(ref) && k < |w.calls| && Has(w.cluster, ref, o) && Labelled(o)
    requires Reports(w.cluster, policy) && !NoEntries(o, policy)
    ensures !FreeDeletions(w.log, DeleteTombstone(Late(refs, k), ref, true, w).log, ref, o)
  {
    var r, w1 := DeleteTombstone(Late(refs, k), ref, true, w), Called(Late(refs, k), w);
    SameCall(refs, k, w);
    SameCall(refs, k, w1);
    assert r.log[|w.log|].Deleted? && r.log[|w.log|].ref == ref && r.log[|w.log|].write.found == w.cluster;
    assert !StatusFree(w.cluster, o);
  }

  /** Another deletion leaves a MachineConfig and the singleton. */
  lemma LateOther(refs: seq<Ref>, k: nat, r: Ref, w: World, ref: Ref, o: Object)
    requires k < |w.calls| && r != ref && Has(w.cluster, ref, o)
    ensures var c := DeleteTombstone(Late(refs, k), r, true, w).cluster; c.config == w.cluster.config && Has(c, ref, o)
  {
    SameCall(refs, k, w);
    SameCall(refs, k, Called(Late(refs, k), w));
  }

  lemma {:induction false} LateDeletions(refs: seq<Ref>, k: nat, rest: seq<Ref>, w: World, ref: Ref, policy: Object,
                                         o: Object)
    requires IsMachineConfigRef(ref) && ref in rest && k < |w.calls| && Has(w.cluster, ref, o) && Labelled(o)
    requires Reports(w.cluster, policy) && !NoEntries(o, policy)
    ensures !FreeDeletions(w.log, DeleteTombstones(Late(refs, k), rest, true, w).log, ref, o)
    decreases |rest|
  {
    var e := Late(refs, k);
    var w1 := DeleteTombstone(e, rest[0], true, w);
    var r := DeleteTombstones(e, rest[1..], true, w1);
    Safety.DeletionTraced(e, rest[0], true, w);
    Safety.DeletionsTraced(e, rest[1..], true, w1);
    if rest[0] == ref {
      LateDeletion(refs, k, w, ref, policy, o);
      UnfreeLater(w.log, w1.log, r.log, ref, o);
    } else {
      LateOther(refs, k, rest[0], w, ref, o);
      LateDeletions(refs, k, rest[1..], w1, ref, policy, o);
      UnfreeEarlier(w.log, w1.log, r.log, ref, o);
    }
  }

  /** From the end of the policy on, with the policies of the old spec effective. */
  lemma LateFinish(inp: Inputs, refs: seq<Ref>, k: nat, p: PolicyResult, ref: Ref, policy: Object, o: Object)
    requires inp.assetsOk && !p.error && k < |p.world.calls| && Progress.Spares(inp, refs)
    requires IsMachineConfigRef(ref) && ref in refs && Has(p.world.cluster, ref, o) && Labelled(o)
    requires Reports(p.world.cluster, policy) && !NoEntries(o, policy)
    ensures !FreeDeletions(p.world.log, AfterPolicy(Late(refs, k), inp, false, p).log, ref, o)
  {
    var e := Late(refs, k);
    var w := AssetsStep(e, inp, p.world);
    SameCall(refs, k, p.world);
    SparedKeeps(p.world.cluster, inp.reconcileAssets(p.world.cluster), refs, ref, o);
    LateDeletions(refs, k, refs, w, ref, policy, o);
    UnfreeEarlier(p.world.log, w.log, DeleteTombstones(e, refs, true, w).log, ref, o);
  }

  lemma LateReconcilePolicy(inp: Inputs, refs: seq<Ref>, w: World)
    requires w.cluster.config.Some? && NoIgnoredFields(w.cluster) && Progress.GoesThrough(inp)
    ensures var p := ReconcilePolicy(Late(refs, |w.calls|), inp, false, w);
            && |w.calls| < |p.world.calls| && p.world.cluster.objects == w.cluster.objects
            && !p.error && Reports(p.world.cluster, SpecPolicy(w.cluster.config.value))
  {
    var a := Aggregated(inp.assets, inp.scope).value;
    LatePolicy(refs, w, DesiredConfig(PolicyObject(a)), HasEntries(a) || false);
  }

  lemma LateReconcile(inp: Inputs, refs: seq<Ref>, w: World, ref: Ref, o: Object)
    requires w.cluster.config.Some? && NoIgnoredFields(w.cluster) && Progress.GoesThrough(inp)
    requires Progress.Spares(inp, refs)
    requires IsMachineConfigRef(ref) && ref in refs && Has(w.cluster, ref, o) && Labelled(o) && !SpecFree(w.cluster, o)
    ensures !FreeDeletions(w.log, ReconcileChecked(Late(refs, |w.calls|), inp, w, false).log, ref, o)
  {
    var e := Late(refs, |w.calls|);
    LateReconcilePolicy(inp, refs, w);
    Safety.PolicyTraced(e, inp, false, w);
    LateAfter(inp, refs, w, ReconcilePolicy(e, inp, false, w), ref, o);
  }

  lemma LateAfter(inp: Inputs, refs: seq<Ref>, w: World, p: PolicyResult, ref: Ref, o: Object)
    requires w.cluster.config.Some? && inp.assetsOk && !p.error && Progress.Spares(inp, refs)
    requires IsMachineConfigRef(ref) && ref in refs && Has(w.cluster, ref, o) && Labelled(o) && !SpecFree(w.cluster, o)
    requires |w.calls| < |p.world.calls| && p.world.cluster.objects == w.cluster.objects && w.log <= p.world.log
    requires Reports(p.world.cluster, SpecPolicy(w.cluster.config.value))
    ensures !FreeDeletions(w.log, AfterPolicy(Late(refs, |w.calls|), inp, false, p).log, ref, o)
  {
    LateFinish(inp, refs, |w.calls|, p, ref, SpecPolicy(w.cluster.config.value), o);
    UnfreeEarlier(w.log, p.world.log, AfterPolicy(Late(refs, |w.calls|), inp, false, p).log, ref, o);
  }

  lemma ClearGoesOn(e: Env, inp: Inputs, w: World)
    requires inp.enabled && inp.prepared && FirstCheck(e, w).verdict == Clear
    ensures Reconciled(e, inp, w) == ReconcileChecked(e, inp, FirstCheck(e, w).world, false)
  {
  }

  /** Where the spec has an entry, the Machine Config Operator can make it effective between a clear check and the
      deletion. */
  lemma LateTakeover(inp: Inputs, refs: seq<Ref>, w: World, ref: Ref, o: Object) returns (e: Env)
    requires w.cluster.config.Some? && NoIgnoredFields(w.cluster) && Progress.GoesThrough(inp)
    requires Progress.Spares(inp, refs)
    requires IsMachineConfigRef(ref) && ref in refs && Has(w.cluster, ref, o) && Labelled(o) && !SpecFree(w.cluster, o)
    requires FirstCheck(Calm(refs), w).verdict == Clear
    ensures McoOnly(e) && e.tombstones == refs && !FreeDeletions(w.log, Reconciled(e, inp, w).log, ref, o)
  {
    var c := FirstCheck(Calm(refs), w).world;
    e := Late(refs, |c.calls|);
    SameFirstCheck(refs, w);
    CalmFirstCheck(refs, w, ref, o);
    ClearGoesOn(e, inp, w);
    LateReconcile(inp, refs, c, ref, o);
    UnfreeEarlier(w.log, c.log, Reconciled(e, inp, w).log, ref, o);
  }

  // A first check that would not be clear. ------------------------------------------------------------------

  predicate SameAt(a: Cluster, b: Cluster, ref: Ref) {
    (ref in a.objects <==> ref in b.objects) && (ref in a.objects ==> a.objects[ref] == b.objects[ref])
  }

  /** The clusters have the same MachineConfigs. */
  ghost predicate SameMachineConfigs(a: Cluster, b: Cluster) {
    forall ref | IsMachineConfigRef(ref) :: SameAt(a, b, ref)
  }

  lemma OtherDeletionSpares(e: Env, r: Ref, w: World)
    requires McoOnly(e)
    ensures var c := DeleteTombstone(e, r, false, w).cluster;
            ConfigFollows(w.cluster.config, c.config) && SameMachineConfigs(w.cluster, c)
  {
    var w1 := Called(e, w);
    CallFollows(e, w);
    CallFollows(e, w1);
    FollowsThen(w.cluster, w1.cluster, Finds(e, w1));
  }

  lemma {:induction false} OtherDeletionsSpare(e: Env, rest: seq<Ref>, w: World)
    requires McoOnly(e)
    ensures var c := DeleteTombstones(e, rest, false, w).cluster;
            ConfigFollows(w.cluster.config, c.config) && SameMachineConfigs(w.cluster, c)
    decreases |rest|
  {
    if rest != [] {
      var w1 := DeleteTombstone(e, rest[0], false, w);
      var r := DeleteTombstones(e, rest[1..], false, w1);
      OtherDeletionSpares(e, rest[0], w);
      OtherDeletionsSpare(e, rest[1..], w1);
      ConfigFollowsThen(w.cluster.config, w1.cluster.config, r.cluster.config);
      forall ref | IsMachineConfigRef(ref) ensures SameAt(w.cluster, r.cluster, ref) {
        assert SameAt(w.cluster, w1.cluster, ref) && SameAt(w1.cluster, r.cluster, ref);
      }
    }
  }

  ghost predicate AllClear(c: Cluster, rest: seq<Ref>, effective: Object) {
    forall ref <- rest | IsMachineConfigRef(ref) :: RefCheck(c, ref, effective) == Clear
  }

  lemma {:induction false} ClearScanAll(e: Env, rest: seq<Ref>, effective: Object, w: World)
    requires McoOnly(e) && ScanTombstones(e, rest, effective, w).verdict == Clear
    ensures AllClear(w.cluster, rest, effective)
    decreases |rest|
  {
    if rest != [] {
      var w1 := Called(e, w);
      CallFollows(e, w);
      ClearScanAll(e, rest[1..], effective, if IsMachineConfigRef(rest[0]) then w1 else w);
      forall ref <- rest | IsMachineConfigRef(ref) ensures RefCheck(w.cluster, ref, effective) == Clear {
        assert RefCheck(w.cluster, ref, effective) == RefCheck(w1.cluster, ref, effective);
        assert ref == rest[0] || ref in rest[1..];
      }
    }
  }

  lemma CalmScanIsClear(refs: seq<Ref>, effective: Object, w: World)
    requires AllClear(w.cluster, refs, effective)
    ensures ScanTombstones(Calm(refs), refs, effective, w).verdict == Clear
  {
    Progress.QuietScan(Calm(refs), refs, effective, w);
  }

  lemma SameChecks(a: Cluster, b: Cluster, rest: seq<Ref>, effective: Object)
    requires SameMachineConfigs(a, b) && AllClear(a, rest, effective)
    ensures AllClear(b, rest, effective)
  {
    forall ref <- rest | IsMachineConfigRef(ref) ensures RefCheck(b, ref, effective) == Clear {
      assert SameAt(a, b, ref);
      assert RefCheck(a, ref, effective) == RefCheck(b, ref, effective);
    }
  }

  /** A clear first check did not read the policies of the spec, if these have an entry for the MachineConfig. */
  lemma ClearReadsNoTakeover(e: Env, w: World, config: Object, ref: Ref, o: Object)
    requires McoOnly(e) && IsMachineConfigRef(ref) && ref in e.tombstones && Has(w.cluster, ref, o) && Labelled(o)
    requires Finds(e, w).config == Some(ObservedConfig(config)) && CheckTombstones(e, w).verdict == Clear
    ensures NoEntries(o, SpecPolicy(config))
  {
    CallFollows(e, w);
    Progress.ObservedPolicies(config);
    ClearScan(e, e.tombstones, SpecPolicy(config), Called(e, w), ref, o);
  }

  lemma ClearReadsStatus(e: Env, w: World, config: Object)
    requires McoOnly(e) && Finds(e, w).config == Some(config) && CheckTombstones(e, w).verdict == Clear
    ensures !EffectivePolicies(config).Mismatch?
    ensures EffectivePolicies(config).Found? ==> AllClear(Finds(e, w), e.tombstones, EffectivePolicies(config).value)
  {
    if EffectivePolicies(config).Found? {
      ClearScanAll(e, e.tombstones, EffectivePolicies(config).value, Called(e, w));
    }
  }

  /** What a clear first check read: the policies of the old status, and no entry in them for any MachineConfig. */
  lemma ClearReadsOldStatus(e: Env, w: World, ref: Ref, o: Object)
    requires McoOnly(e) && IsMachineConfigRef(ref) && ref in e.tombstones
    requires Has(w.cluster, ref, o) && Labelled(o) && !SpecFree(w.cluster, o)
    requires FirstCheck(e, w).verdict == Clear
    ensures w.cluster.config.Some? && !EffectivePolicies(w.cluster.config.value).Mismatch?
    ensures EffectivePolicies(w.cluster.config.value).Found? ==>
              AllClear(w.cluster, e.tombstones, EffectivePolicies(w.cluster.config.value).value)
  {
    var w1 := DeleteTombstones(e, e.tombstones, false, w);
    var found, config := Finds(e, w1), w.cluster.config.value;
    OtherDeletions(e, e.tombstones, w, ref, o);
    OtherDeletionsSpare(e, e.tombstones, w);
    CallFollows(e, w1);
    ConfigFollowsThen(w.cluster.config, w1.cluster.config, found.config);
    if found.config == w.cluster.config {
      ClearReadsStatus(e, w1, config);
      if EffectivePolicies(config).Found? {
        BackToStart(w.cluster, w1.cluster, found, e.tombstones, EffectivePolicies(config).value);
      }
    } else {
      ClearReadsNoTakeover(e, w1, config, ref, o);
    }
  }

  lemma BackToStart(start: Cluster, mid: Cluster, found: Cluster, rest: seq<Ref>, effective: Object)
    requires SameMachineConfigs(start, mid) && found.objects == mid.objects && AllClear(found, rest, effective)
    ensures AllClear(start, rest, effective)
  {
    forall ref | IsMachineConfigRef(ref) ensures SameAt(found, start, ref) {
      assert SameAt(start, mid, ref);
    }
    SameChecks(found, start, rest, effective);
  }

  /** A first check that would not be clear left alone is not clear under any behaviour of the Machine Config Operator,
      as long as the spec has an entry for a tombstoned MachineConfig. */
  lemma ClearOnlyIfCalmClear(e: Env, w: World, ref: Ref, o: Object)
    requires McoOnly(e) && IsMachineConfigRef(ref) && ref in e.tombstones
    requires Has(w.cluster, ref, o) && Labelled(o) && !SpecFree(w.cluster, o)
    requires FirstCheck(e, w).verdict == Clear
    ensures FirstCheck(Calm(e.tombstones), w).verdict == Clear
  {
    var refs := e.tombstones;
    ClearReadsOldStatus(e, w, ref, o);
    var w1 := DeleteTombstones(Calm(refs), refs, false, w);
    CalmDeletions(refs, w);
    if EffectivePolicies(w.cluster.config.value).Found? {
      var effective := EffectivePolicies(w.cluster.config.value).value;
      SameChecks(w.cluster, w1.cluster, refs, effective);
      CalmScanIsClear(refs, effective, Called(Calm(refs), w1));
    }
  }

  lemma CalmDeletions(refs: seq<Ref>, w: World)
    ensures var c := DeleteTombstones(Calm(refs), refs, false, w).cluster;
            c.config == w.cluster.config && SameMachineConfigs(w.cluster, c)
  {
    Progress.QuietDeletions(Calm(refs), refs, false, w);
  }

  /** A reconcile whose first check fails deletes no MachineConfig. */
  lemma FailedCheckDeletesNothing(e: Env, inp: Inputs, w: World, ref: Ref, o: Object)
    requires IsMachineConfigRef(ref) && FirstCheck(e, w).verdict == CheckError
    ensures FreeDeletions(w.log, Reconciled(e, inp, w).log, ref, o)
  {
    FirstCheckEvents(e, w, ref, o);
  }

  /** A tombstoned MachineConfig is deleted with nothing effective for it, whatever the Machine Config Operator does
      meanwhile, exactly when the spec has no entry for it or the first check, left alone, would not be clear: the
      generation barrier stands only behind a blocked first check. */
  lemma BarrierCoversSpecIff(inp: Inputs, refs: seq<Ref>, w: World, a: Aggregate, ref: Ref, o: Object)
    requires NoIgnoredFields(w.cluster) && Progress.GoesThrough(inp) && Progress.Spares(inp, refs)
    requires Aggregated(inp.assets, inp.scope) == Some(a) && Progress.Unsupplied(o, a, w.cluster.others)
    requires IsMachineConfigRef(ref) && ref in refs && Has(w.cluster, ref, o) && Labelled(o)
    ensures (forall e | McoOnly(e) && e.tombstones == refs :: FreeDeletions(w.log, Reconciled(e, inp, w).log, ref, o))
            <==> SpecFree(w.cluster, o) || FirstCheck(Calm(refs), w).verdict != Clear
  {
    if SpecFree(w.cluster, o) || FirstCheck(Calm(refs), w).verdict != Clear {
      forall e | McoOnly(e) && e.tombstones == refs ensures FreeDeletions(w.log, Reconciled(e, inp, w).log, ref, o) {
        BarrierCovers(e, inp, w, a, ref, o);
      }
    } else {
      var e := LateTakeover(inp, refs, w, ref, o);
      assert !FreeDeletions(w.log, Reconciled(e, inp, w).log, ref, o);
    }
  }

  lemma BarrierCovers(e: Env, inp: Inputs, w: World, a: Aggregate, ref: Ref, o: Object)
    requires McoOnly(e) && NoIgnoredFields(w.cluster) && Progress.Spares(inp, e.tombstones)
    requires Aggregated(inp.assets, inp.scope) == Some(a) && Progress.Unsupplied(o, a, w.cluster.others)
    requires IsMachineConfigRef(ref) && ref in e.tombstones && Has(w.cluster, ref, o) && Labelled(o)
    requires SpecFree(w.cluster, o) || FirstCheck(Calm(e.tombstones), w).verdict != Clear
    ensures FreeDeletions(w.log, Reconciled(e, inp, w).log, ref, o)
  {
    var verdict := FirstCheck(e, w).verdict;
    if verdict == CheckError {
      FailedCheckDeletesNothing(e, inp, w, ref, o);
    } else {
      if verdict == Clear && !SpecFree(w.cluster, o) { ClearOnlyIfCalmClear(e, w, ref, o); }
      NothingEffectiveAtDeletion(e, inp, w, a, ref, o);
    }
  }
}
