/** The reconcile loop around MachineConfig tombstones: Reconcile and reconcileAssets in
    pkg/controller/platform_controller.go, with the aggregate policy of
    pkg/engine/node_disruption_policy.go and the tombstone reconciler of pkg/engine/tombstone.go.
    Each API call is one instant; between any two of them other actors may do anything. */
module Platform {
  import opened JsonTree
  import opened Ownership
  import opened NodeDisruptionPolicy
  import opened PolicyAggregation
  import opened Tombstones
  import Coalescing
  import Masking = JsonPointer

  datatype Ref = Ref(group: string, kind: string, namespace: string, name: string)

  /** The singleton MachineConfiguration, the other field managers that apply each of its policy entries
      (by field and key), and all other live objects. */
  datatype Cluster = Cluster(config: Option<Object>, others: map<(string, string), set<string>>,
                             objects: map<Ref, Object>)

  /** What the operator does not decide: what others do before its n-th API call, whether that call
      fails, and which objects have tombstones. */
  datatype Env = Env(moves: (nat, Cluster) -> Cluster, fails: nat -> bool, tombstones: seq<Ref>)

  /** One API call: the cluster it found and the cluster it left. */
  datatype Call = Call(found: Cluster, left: Cluster)

  /** What a reconcile did, with the API calls that did it and their numbers: a write comes with the read before it. */
  datatype Event =
    | Checked(from: nat, gets: seq<Call>, verdict: Check)
    | PolicyApplied(at: nat, read: Call, write: Call, managed: bool)
    | AssetsReconciled(at: nat, write: Call)
    | GenerationRead(at: nat, read: Call, observed: bool)
    | Deleted(at: nat, ref: Ref, read: Call, write: Call)

  /** The cluster, the API calls so far, and the events so far. */
  datatype World = World(cluster: Cluster, calls: seq<Call>, log: seq<Event>)

  /** One pass of Reconcile: HCO found and enabled; golden config and context in order; whether every
      policy asset is available; the assets; what reconciling the other assets makes of the cluster, and
      whether that meets no error. */
  datatype Inputs = Inputs(enabled: bool, prepared: bool, policyAvailable: bool, assets: seq<Asset>, scope: Scope,
                           reconcileAssets: Cluster -> Cluster, assetsOk: bool)

  predicate IsMachineConfigRef(ref: Ref) {
    ref.group == Coalescing.MACHINE_CONFIG_GROUP && ref.kind == Coalescing.MACHINE_CONFIG_KIND
  }

  // API calls. ---------------------------------------------------------------------------------------------

  /** What the next API call finds, and whether it fails. */
  function Finds(e: Env, w: World): Cluster { e.moves(|w.calls|, w.cluster) }

  predicate Fails(e: Env, w: World) { e.fails(|w.calls|) }

  function Ended(w: World, call: Call): World { w.(cluster := call.left, calls := w.calls + [call]) }

  /** A call that changes nothing. */
  function Called(e: Env, w: World): World { Ended(w, Call(Finds(e, w), Finds(e, w))) }

  function Logged(w: World, event: Event): World { w.(log := w.log + [event]) }

  // Server-side apply of the aggregate: an entry stays if it is applied or another manager applies it.

  function KeyOfEntry(entry: Json, id: string): Option<string> {
    if entry.Obj? && NestedStr(entry.fields, [id]).Found? then Some(NestedStr(entry.fields, [id]).value) else None
  }

  predicate OthersManage(others: map<(string, string), set<string>>, field: string, key: string) {
    (field, key) in others && others[(field, key)] != {}
  }

  predicate Stays(entry: Json, others: map<(string, string), set<string>>, applied: seq<Json>, k: Keyed) {
    var key := KeyOfEntry(entry, k.id);
    key.Some? && !HasNamed(applied, k.id, key.value) && OthersManage(others, k.field, key.value)
  }

  function StayingEntries(live: seq<Json>, others: map<(string, string), set<string>>, applied: seq<Json>,
                          k: Keyed): seq<Json> {
    if live == [] then []
    else
      (if Stays(live[0], others, applied, k) then [live[0]] else [])
      + StayingEntries(live[1..], others, applied, k)
  }

  function PolicyList(config: Object, k: Keyed): seq<Json> {
    ListOr(NestedList(SpecPolicy(config), [k.field]))
  }

  function MergedList(config: Object, others: map<(string, string), set<string>>, desired: Object, k: Keyed): Json {
    var applied := PolicyList(desired, k);
    List(StayingEntries(PolicyList(config, k), others, applied, k) + applied)
  }

  /** The policy of the singleton after an apply; its other parts stay as they are. */
  function MergedPolicy(config: Object, others: map<(string, string), set<string>>, desired: Object): Object {
    var files, units := MergedList(config, others, desired, FILES), MergedList(config, others, desired, UNITS);
    var lists := SpecPolicy(config)["files" := files]["units" := units];
    match NestedObj(SpecPolicy(desired), ["sshkey"]) case Found(key) => lists["sshkey" := Obj(key)] case _ => lists
  }

  function FieldsAt(o: Object, k: string): Object { if k in o && o[k].Obj? then o[k].fields else map[] }

  function SpecPolicy(config: Object): Object { FieldsAt(FieldsAt(config, "spec"), "nodeDisruptionPolicy") }

  function Generation(config: Object): int {
    match NestedInt(config, ["metadata", "generation"]) case Found(n) => n case _ => 0
  }

  /** The generation rises with every change of the spec. */
  function AppliedConfig(config: Object, others: map<(string, string), set<string>>, desired: Object): Object {
    var spec := Obj(FieldsAt(config, "spec")["nodeDisruptionPolicy" := Obj(MergedPolicy(config, others, desired))]);
    var metadata := FieldsAt(config, "metadata");
    var labelled := metadata["labels" := Obj(FieldsAt(metadata, "labels")[MANAGED_BY_LABEL := Str(MANAGED_BY_VALUE)])];
    var changed := "spec" !in config || config["spec"] != spec;
    var raised := if changed then labelled["generation" := Int(Generation(config) + 1)] else labelled;
    config["spec" := spec]["metadata" := Obj(raised)]
  }

  function ServerApply(c: Cluster, desired: Object): Cluster {
    c.(config := Some(AppliedConfig(if c.config.Some? then c.config.value else map[], c.others, desired)))
  }

  /** The Machine Config Operator takes over the policy of the spec and reports that it did. */
  function ObservedConfig(config: Object): Object {
    var policies := Obj(map["clusterPolicies" := Obj(SpecPolicy(config))]);
    var status := FieldsAt(config, "status")["nodeDisruptionPolicyStatus" := policies];
    config["status" := Obj(status["observedGeneration" := Int(Generation(config))])]
  }

  function McoStep(c: Cluster): Cluster {
    if c.config.None? then c else c.(config := Some(ObservedConfig(c.config.value)))
  }

  // Tombstones. -----------------------------------------------------------------------------------------------

  datatype Scanned = Scanned(world: World, verdict: Check)

  /** Reads the tombstoned MachineConfigs one by one, up to the first that is blocked or unreadable. */
  function ScanTombstones(e: Env, refs: seq<Ref>, effective: Object, w: World): (s: Scanned)
    ensures |w.calls| <= |s.world.calls|
    decreases |refs|
  {
    if refs == [] then Scanned(w, Clear)
    else if !IsMachineConfigRef(refs[0]) then ScanTombstones(e, refs[1..], effective, w)
    else
      var w1 := Called(e, w);
      var verdict := if Fails(e, w) then CheckError else RefCheck(w1.cluster, refs[0], effective);
      if verdict == Clear then ScanTombstones(e, refs[1..], effective, w1) else Scanned(w1, verdict)
  }

  predicate LabelledIn(c: Cluster, ref: Ref) { ref in c.objects && Labelled(c.objects[ref]) }

  function RefCheck(c: Cluster, ref: Ref, effective: Object): Check {
    if LabelledIn(c, ref) then PolicyCheck(c.objects[ref], effective) else Clear
  }

  /** What reading the singleton and then the tombstoned MachineConfigs finds. */
  function ScanCluster(e: Env, w: World): (s: Scanned)
    ensures |w.calls| <= |s.world.calls|
  {
    var w1 := Called(e, w);
    if Fails(e, w) then Scanned(w1, CheckError)
    else if w1.cluster.config.None? then Scanned(w1, Clear)
    else
      match EffectivePolicies(w1.cluster.config.value)
      case Mismatch => Scanned(w1, CheckError)
      case Missing => Scanned(w1, Clear)
      case Found(effective) => ScanTombstones(e, e.tombstones, effective, w1)
  }

  /** MachineConfigTombstonesHaveEffectiveNodeDisruptionPolicy: Blocked for true, Clear for false. */
  function CheckTombstones(e: Env, w: World): Scanned {
    var s := ScanCluster(e, w);
    s.(world := Logged(s.world, Checked(|w.calls|, s.world.calls[|w.calls|..], s.verdict)))
  }

  /** Deletes the labelled live objects among the tombstones of one kind, going on after errors. */
  function DeleteTombstones(e: Env, refs: seq<Ref>, machineConfigs: bool, w: World): World
    decreases |refs|
  {
    if refs == [] then w
    else DeleteTombstones(e, refs[1..], machineConfigs, DeleteTombstone(e, refs[0], machineConfigs, w))
  }

  function DeleteTombstone(e: Env, ref: Ref, machineConfigs: bool, w: World): World {
    if IsMachineConfigRef(ref) != machineConfigs then w
    else
      var w1 := Called(e, w);
      if Fails(e, w) || !LabelledIn(w1.cluster, ref) then w1
      else
        var found := Finds(e, w1);
        if Fails(e, w1) || ref !in found.objects then Called(e, w1)
        else
          var write := Call(found, found.(objects := found.objects - {ref}));
          Logged(Ended(w1, write), Deleted(|w1.calls|, ref, Call(w1.cluster, w1.cluster), write))
  }

  // The aggregate policy. --------------------------------------------------------------------------------------

  /** The singleton as it is applied. */
  function DesiredConfig(policy: Object): Object {
    map["apiVersion" := Str(CONFIGURATION_API_VERSION), "kind" := Str(CONFIGURATION_KIND),
        "metadata" := Obj(map["name" := Str(CONFIGURATION_NAME)]),
        "spec" := Obj(map["nodeDisruptionPolicy" := Obj(policy)])]
  }

  /** Whether the policy is managed, so that tombstones may rely on it; or an error. */
  datatype PolicyResult = PolicyResult(world: World, managed: bool, error: bool)

  /** Applies what the read just made asks for. */
  function ApplyConfig(e: Env, w: World, desired: Object, safe: bool): PolicyResult {
    if Fails(e, w) then PolicyResult(Called(e, w), false, true)
    else
      var write := Call(Finds(e, w), ServerApply(Finds(e, w), desired));
      var event := PolicyApplied(|w.calls|, Call(w.cluster, w.cluster), write, safe);
      PolicyResult(Logged(Ended(w, write), event), safe, false)
  }

  predicate IgnoresFields(o: Object) { Masking.ANNOTATION_IGNORE_FIELDS in Annotations(o) }

  /** What the live singleton calls for: nothing, an error, or an apply that tombstones may rely on or not. */
  datatype Plan = Leave | Refuse | Apply(desired: Object, safe: bool)

  function PlanFor(live: Option<Object>, desired: Object, allowCreate: bool): Plan {
    match live
    case None => if allowCreate then Apply(desired, true) else Leave
    case Some(o) =>
      if (!allowCreate && !Labelled(o)) || IsUnmanaged(o) then Leave
      else
        match Masking.Mask(desired, o)
        case None => Refuse
        case Some(masked) => Apply(masked, !IgnoresFields(o))
  }

  function CarryOut(e: Env, w: World, plan: Plan): PolicyResult {
    match plan
    case Leave => PolicyResult(w, false, false)
    case Refuse => PolicyResult(w, false, true)
    case Apply(desired, safe) => ApplyConfig(e, w, desired, safe)
  }

  function ApplyAggregate(e: Env, w: World, desired: Object, allowCreate: bool): PolicyResult {
    var w1 := Called(e, w);
    if Fails(e, w) then PolicyResult(w1, false, true)
    else CarryOut(e, w1, PlanFor(w1.cluster.config, desired, allowCreate))
  }

  predicate HasEntries(a: Aggregate) { a.files != map[] || a.units != map[] || a.sshKey != map[] }

  ghost function ReconcilePolicy(e: Env, inp: Inputs, prune: bool, w: World): PolicyResult {
    if !inp.policyAvailable || inp.scope.excluded(CONFIGURATION_KIND, "", CONFIGURATION_NAME)
      then PolicyResult(w, false, false)
    else
      match Aggregated(inp.assets, inp.scope)
      case None => PolicyResult(w, false, true)
      case Some(a) => ApplyAggregate(e, w, DesiredConfig(PolicyObject(a)), HasEntries(a) || prune)
  }

  // Reconcile. -------------------------------------------------------------------------------------------------

  datatype Observation = Observation(world: World, observed: bool, error: bool)

  predicate ObservedGeneration(config: Object) {
    NestedInt(config, ["status", "observedGeneration"]).Found?
    && NestedInt(config, ["status", "observedGeneration"]).value >= Generation(config)
  }

  function ObserveGeneration(e: Env, w: World): Observation {
    var w1 := Called(e, w);
    if Fails(e, w) then Observation(w1, false, true)
    else if w1.cluster.config.None? then Observation(w1, false, false)
    else
      var config := w1.cluster.config.value;
      if NestedInt(config, ["status", "observedGeneration"]).Mismatch? then Observation(w1, false, true)
      else
        var event := GenerationRead(|w.calls|, Call(w1.cluster, w1.cluster), ObservedGeneration(config));
        Observation(Logged(w1, event), ObservedGeneration(config), false)
  }

  /** The barrier in front of MachineConfig tombstones when one of them was blocked. */
  function Barrier(e: Env, managed: bool, w: World): Observation {
    if !managed then Observation(w, false, false)
    else
      var o := ObserveGeneration(e, w);
      if o.error || !o.observed then o.(observed := false)
      else
        var c := CheckTombstones(e, o.world);
        Observation(c.world, c.verdict == Clear, c.verdict == CheckError)
  }

  /** The MachineConfig tombstones, behind the barrier if one of them was blocked. */
  function Finished(e: Env, blocked: bool, managed: bool, w: World): World {
    if !blocked then DeleteTombstones(e, e.tombstones, true, w)
    else
      var b := Barrier(e, managed, w);
      if b.observed then DeleteTombstones(e, e.tombstones, true, b.world) else b.world
  }

  /** The reconciliation of the other assets, as one call that may leave anything. */
  function AssetsStep(e: Env, inp: Inputs, w: World): World {
    var write := Call(Finds(e, w), inp.reconcileAssets(Finds(e, w)));
    Logged(Ended(w, write), AssetsReconciled(|w.calls|, write))
  }

  function AfterPolicy(e: Env, inp: Inputs, blocked: bool, p: PolicyResult): World {
    if p.error then p.world
    else if !inp.assetsOk then AssetsStep(e, inp, p.world)
    else Finished(e, blocked, p.managed, AssetsStep(e, inp, p.world))
  }

  ghost function ReconcileChecked(e: Env, inp: Inputs, w: World, blocked: bool): World {
    AfterPolicy(e, inp, blocked, ReconcilePolicy(e, inp, blocked, w))
  }

  ghost function Reconciled(e: Env, inp: Inputs, w: World): World {
    if !inp.enabled then w
    else
      var w1 := DeleteTombstones(e, e.tombstones, false, w);
      if !inp.prepared then w1
      else
        var c := CheckTombstones(e, w1);
        if c.verdict == CheckError then c.world else ReconcileChecked(e, inp, c.world, c.verdict == Blocked)
  }

  class PlatformReconciler {
    const env: Env
    var cluster: Cluster
    var calls: seq<Call>
    var log: seq<Event>

    ghost function View(): World
      reads this
    {
      World(cluster, calls, log)
    }

    constructor (env: Env, cluster: Cluster)
      ensures this.env == env && View() == World(cluster, [], [])
    {
      this.env := env;
      this.cluster := cluster;
      calls, log := [], [];
    }

    /** Lets the other actors move, and tells whether the call then succeeds. */
    method Send() returns (ok: bool)
      modifies this
      ensures View() == Called(env, old(View())) && ok == !Fails(env, old(View()))
    {
      ok := !env.fails(|calls|);
      cluster := env.moves(|calls|, cluster);
      calls := calls + [Call(cluster, cluster)];
    }

    /** The call just sent leaves another cluster. */
    method Write(left: Cluster)
      requires calls != []
      modifies this
      ensures var n := |old(calls)| - 1;
              View() == World(left, old(calls)[..n] + [Call(old(calls)[n].found, left)], old(log))
    {
      calls := calls[..|calls| - 1] + [Call(calls[|calls| - 1].found, left)];
      cluster := left;
    }

    method Check() returns (verdict: Check)
      modifies this
      ensures View() == CheckTombstones(env, old(View())).world
      ensures verdict == CheckTombstones(env, old(View())).verdict
    {
      var from := |calls|;
      verdict := ReadAndScan();
      log := log + [Checked(from, calls[from..], verdict)];
    }

    method ReadAndScan() returns (verdict: Check)
      modifies this
      ensures Scanned(View(), verdict) == ScanCluster(env, old(View()))
    {
      var ok := Send();
      if !ok {
        return CheckError;
      }
      if cluster.config.None? {
        return Clear;
      }
      var policies := EffectivePolicies(cluster.config.value);
      if !policies.Found? {
        return if policies.Mismatch? then CheckError else Clear;
      }
      verdict := ScanAll(policies.value);
    }

    method ScanAll(effective: Object) returns (verdict: Check)
      modifies this
      ensures Scanned(View(), verdict) == ScanTombstones(env, env.tombstones, effective, old(View()))
    {
      var refs := env.tombstones;
      for i := 0 to |refs|
        invariant ScanTombstones(env, refs, effective, old(View())) == ScanTombstones(env, refs[i..], effective, View())
      {
        assert refs[i..][1..] == refs[i + 1..];
        var ref := refs[i];
        if IsMachineConfigRef(ref) {
          var ok := Send();
          if !ok {
            return CheckError;
          }
          if ref in cluster.objects && Labelled(cluster.objects[ref]) {
            var blocked := HasEffectivePolicy(cluster.objects[ref], effective);
            if blocked != Clear {
              return blocked;
            }
          }
        }
      }
      return Clear;
    }

    method DeleteMatching(machineConfigs: bool)
      modifies this
      ensures View() == DeleteTombstones(env, env.tombstones, machineConfigs, old(View()))
    {
      var refs := env.tombstones;
      for i := 0 to |refs|
        invariant DeleteTombstones(env, refs, machineConfigs, old(View())) ==
          DeleteTombstones(env, refs[i..], machineConfigs, View())
      {
        assert refs[i..][1..] == refs[i + 1..];
        DeleteOne(refs[i], machineConfigs);
      }
    }

    method DeleteOne(ref: Ref, machineConfigs: bool)
      modifies this
      ensures View() == DeleteTombstone(env, ref, machineConfigs, old(View()))
    {
      if IsMachineConfigRef(ref) != machineConfigs {
        return;
      }
      var ok := Send();
      if !ok || ref !in cluster.objects {
        return;
      }
      var live := cluster.objects[ref];
      if !Labelled(live) {
        return;
      }
      var read, at := cluster, |calls|;
      ok := Send();
      if ok && ref in cluster.objects {
        Write(cluster.(objects := cluster.objects - {ref}));
        log := log + [Deleted(at, ref, Call(read, read), calls[at])];
      }
    }

    method ReconcileAggregate(desired: Object, allowCreate: bool) returns (managed: bool, error: bool)
      modifies this
      ensures PolicyResult(View(), managed, error) == ApplyAggregate(env, old(View()), desired, allowCreate)
    {
      var ok := Send();
      if !ok {
        return false, true;
      }
      var plan := Planned(cluster.config, desired, allowCreate);
      match plan
      case Leave => return false, false;
      case Refuse => return false, true;
      case Apply(applied, tombstoneSafe) => managed, error := ApplySingleton(applied, tombstoneSafe);
    }

    method ApplySingleton(desired: Object, tombstoneSafe: bool) returns (managed: bool, error: bool)
      modifies this
      ensures PolicyResult(View(), managed, error) == ApplyConfig(env, old(View()), desired, tombstoneSafe)
    {
      var read, at := cluster, |calls|;
      var ok := Send();
      if !ok {
        return false, true;
      }
      Write(ServerApply(cluster, desired));
      log := log + [PolicyApplied(at, Call(read, read), calls[at], tombstoneSafe)];
      return tombstoneSafe, false;
    }

    method ReconcileNodeDisruptionPolicies(inp: Inputs, prune: bool) returns (managed: bool, error: bool)
      modifies this
      ensures PolicyResult(View(), managed, error) == ReconcilePolicy(env, inp, prune, old(View()))
    {
      if !inp.policyAvailable || inp.scope.excluded(CONFIGURATION_KIND, "", CONFIGURATION_NAME) {
        return false, false;
      }
      var aggregate := AggregateEntries(inp.assets, inp.scope);
      if aggregate.None? {
        return false, true;
      }
      var a := aggregate.value;
      var policy := BuildPolicy(a);
      managed, error := ReconcileAggregate(DesiredConfig(policy), HasEntries(a) || prune);
    }

    method GenerationObserved() returns (observed: bool, error: bool)
      modifies this
      ensures Observation(View(), observed, error) == ObserveGeneration(env, old(View()))
    {
      var ok := Send();
      if !ok {
        return false, true;
      }
      if cluster.config.None? {
        return false, false;
      }
      var config := cluster.config.value;
      if NestedInt(config, ["status", "observedGeneration"]).Mismatch? {
        return false, true;
      }
      log := log + [GenerationRead(|calls| - 1, Call(cluster, cluster), ObservedGeneration(config))];
      return ObservedGeneration(config), false;
    }

    method ReconcileOtherAssets(inp: Inputs)
      modifies this
      ensures View() == AssetsStep(env, inp, old(View()))
    {
      var at := |calls|;
      var _ := Send();
      Write(inp.reconcileAssets(cluster));
      log := log + [AssetsReconciled(at, calls[at])];
    }

    method Reconcile(inp: Inputs)
      modifies this
      ensures View() == Reconciled(env, inp, old(View()))
    {
      if !inp.enabled {
        return;
      }
      DeleteMatching(false);
      if !inp.prepared {
        return;
      }
      var verdict := Check();
      if verdict == CheckError {
        return;
      }
      var ndpAction := verdict == Blocked;
      var managed, error := ReconcileNodeDisruptionPolicies(inp, ndpAction);
      if error {
        return;
      }
      ReconcileOtherAssets(inp);
      if !inp.assetsOk {
        return;
      }
      if ndpAction {
        if !managed {
          return;
        }
        var observed, failed := GenerationObserved();
        if failed || !observed {
          return;
        }
        var stillEffective := Check();
        if stillEffective != Clear {
          return;
        }
      }
      DeleteMatching(true);
    }
  }

  method Planned(live: Option<Object>, desired: Object, allowCreate: bool) returns (plan: Plan)
    ensures plan == PlanFor(live, desired, allowCreate)
  {
    if live.None? {
      return if allowCreate then Apply(desired, true) else Leave;
    }
    if !allowCreate && !Labelled(live.value) {
      return Leave;
    }
    if IsUnmanaged(live.value) {
      return Leave;
    }
    var tombstoneSafe := true;
    if IgnoresFields(live.value) {
      tombstoneSafe := false;
    }
    var masked := Masking.MaskIgnoredFields(Some(desired), live);
    if masked.None? {
      return Refuse;
    }
    return Apply(masked.value, tombstoneSafe);
  }

  method BuildPolicy(a: Aggregate) returns (policy: Object)
    ensures policy == PolicyObject(a)
  {
    var files := EntriesInOrder(a.files);
    var units := EntriesInOrder(a.units);
    policy := map["files" := List(files), "units" := List(units)];
    if "sshkey" in a.sshKey {
      policy := policy["sshkey" := Obj(a.sshKey["sshkey"])];
    }
  }
}
