/** The Patched Baseline algorithm: ReconcileAsset, ReconcileAssets and CleanupExcludedAsset of
    pkg/engine/patcher.go. What the cluster answers in one call is given as input; the token buckets,
    the thrashing detector and the staging store are the state it changes. */
module Patching {
  import opened JsonTree
  import opened Ownership
  import opened TokenBuckets
  import opened Thrashing
  import opened Staging
  import opened Coalescing
  import opened NodeDisruptionPolicy
  import PolicyAggregation
  import Masking = JsonPointer
  import opened Drift

  const PATCH_ANNOTATION := "platform.kubevirt.io/patch"
  const PAUSED_ANNOTATION := "platform.kubevirt.io/reconcile-paused"

  /** Kinds on which JSON patches are refused. */
  const SENSITIVE_KINDS: set<string> := {
    "MachineConfig", "MachineConfiguration", "ClusterRole", "ClusterRoleBinding", "Role", "RoleBinding",
    "ServiceAccount", "PodSecurityPolicy", "SecurityContextConstraints",
    "ValidatingWebhookConfiguration", "MutatingWebhookConfiguration"}

  // What one call meets. --------------------------------------------------------------------------

  datatype Read = NotFound | Unreadable | Got(live: Object)
  datatype Dependency = Dependency(want: Wanted, config: ConfigRead)
  datatype PatchOutcome = PatchRefused | PatchFailed | PatchDone(patched: Object)
  datatype NamespaceRead = NamespaceThere | NamespaceMissing | NamespaceUnreadable
  datatype ApplyOutcome = ApplyDone | ApplyNamespaceGone | ApplyFailed

  datatype Inputs = Inputs(
    render: PolicyAggregation.Render,
    excluded: bool,
    dependency: Option<Dependency>,
    cached: Read,
    direct: Read,
    patch: PatchOutcome,
    dryRun: Option<Object>,
    pools: PoolList,
    hco: Hco,
    namespace: NamespaceRead,
    apply: ApplyOutcome,
    now: int,
    holdIo: Io,
    clearIo: Io)

  datatype State = State(buckets: Buckets, detector: States, store: Store)

  /** Fixed for the life of the operator: the rate limits, the encoding of staged entries, and the
      digest of a rendered object. */
  datatype Settings = Settings(limits: Limits, codec: Codec, digest: Object -> string)

  datatype Result =
    | Errored
    | Skipped
    | Held
    | Throttled(key: string, pause: bool, counted: bool)
    | ApplyErrored(key: string)
    | ApplySkipped(key: string)
    | Applied(key: string, object: Object)

  predicate IsApplied(r: Result) { r.Applied? }
  predicate IsFailure(r: Result) { r.Errored? || r.Throttled? || r.ApplyErrored? }

  predicate IsPaused(live: Object) { HasAnnotation(live, PAUSED_ANNOTATION, "true") }

  function Key(o: Object): string { MakeResourceKey(Namespace(o), Name(o), Kind(o)) }

  // Steps 1 to 1.5: render, exclusion, policy gate, live object, pause. ------------------------------

  datatype Front = Done(error: bool) | Go(desired: Object, live: Option<Object>)

  function Gated(inp: Inputs): Front {
    match inp.render
    case RenderFailed => Done(true)
    case RenderedEmpty => Done(false)
    case Rendered(o) =>
      if inp.excluded then Done(false)
      else if inp.dependency.None? then Go(o, None)
      else
        match Prepare(o, inp.dependency.value.want, inp.dependency.value.config)
        case GateError => Done(true)
        case Waiting => Done(false)
        case Ready(marked) => Go(marked, None)
  }

  /** The live object: from the cache, else read directly; None for an error. */
  function LiveObject(inp: Inputs): Option<Option<Object>> {
    match inp.cached
    case Got(live) => Some(Some(live))
    case Unreadable => None
    case NotFound =>
      match inp.direct
      case Got(live) => Some(Some(live))
      case NotFound => Some(None)
      case Unreadable => None
  }

  function FrontOf(inp: Inputs): Front {
    match Gated(inp)
    case Done(e) => Done(e)
    case Go(desired, _) =>
      match LiveObject(inp)
      case None => Done(true)
      case Some(live) => if live.Some? && IsPaused(live.value) then Done(false) else Go(desired, live)
  }

  // Steps 2 to 5: opt-out, patch, mask, drift. -------------------------------------------------------

  function RefusePatch(o: Object): Object {
    SetStringMap(o, ["metadata", "annotations"], Annotations(o) - {PATCH_ANNOTATION})
  }

  function PatchStep(patch: PatchOutcome, sensitive: bool, withPatch: Object): Object {
    if sensitive || patch.PatchRefused? then RefusePatch(withPatch)
    else if patch.PatchFailed? then withPatch
    else patch.patched
  }

  function Patched(inp: Inputs, desired: Object, live: Object): Object {
    var annotations := Annotations(live);
    if PATCH_ANNOTATION !in annotations || annotations[PATCH_ANNOTATION] == "" then desired
    else PatchStep(inp.patch, Kind(desired) in SENSITIVE_KINDS,
                   SetAnnotation(desired, PATCH_ANNOTATION, annotations[PATCH_ANNOTATION]))
  }

  /** The rendered object without the metadata a server fills in. */
  function Normalized(o: Object): Object {
    RemoveNested(RemoveNested(RemoveNested(RemoveNested(RemoveNested(o,
      ["metadata", "resourceVersion"]), ["metadata", "managedFields"]), ["metadata", "uid"]),
      ["metadata", "generation"]), ["metadata", "creationTimestamp"])
  }

  function WithLabel(o: Object): Object {
    SetStringMap(o, ["metadata", "labels"], Labels(o)[MANAGED_BY_LABEL := MANAGED_BY_VALUE])
  }

  datatype Effect = Stop(error: bool) | Drifted(desired: Object, hash: string)

  function EffectOnLive(settings: Settings, inp: Inputs, desired: Object, live: Object): Effect {
    if IsUnmanaged(live) then Stop(false)
    else
      var p := Patched(inp, desired, live);
      var hash := if IsMachineConfig(p) then settings.digest(Normalized(p)) else "";
      match Masking.Mask(p, live)
      case None => Stop(true)
      case Some(masked) =>
        var labelled := WithLabel(masked);
        var d := if IsMachineConfig(labelled) then CopyBypass(labelled, live) else labelled;
        match inp.dryRun
        case None => Stop(true)
        case Some(dryRun) => if HasDrift(dryRun, live) then Drifted(d, hash) else Stop(false)
  }

  function EffectOf(settings: Settings, inp: Inputs, desired: Object, live: Option<Object>): Effect {
    if live.Some? then EffectOnLive(settings, inp, desired, live.value) else Drifted(WithLabel(desired), "")
  }

  // Step 1.6: a pause annotation that the user removed. ----------------------------------------------

  predicate Resumes(s: State, desired: Object, live: Option<Object>) {
    live.Some? && Attempts(s.detector, Key(desired)) >= THRASHING_THRESHOLD
  }

  function AfterResume(s: State, desired: Object, live: Option<Object>): State {
    if Resumes(s, desired, live)
    then s.(detector := s.detector - {Key(desired)}, buckets := s.buckets - {Key(desired)})
    else s
  }

  // Steps 6 and 7: the gate and the apply. -----------------------------------------------------------

  datatype Next = Next(state: State, result: Result)

  /** Drops a staged entry of a MachineConfig. */
  function Cleared(codec: Codec, store: Store, o: Object, hco: Hco, io: Io): Store {
    if IsMachineConfig(o) && hco.namespace != "" then Drop(codec, store, Name(o), io).store else store
  }

  function AfterThrottled(s: State, key: string): Next {
    var d := AfterThrottle(s.detector, key);
    var pause := Attempts(d, key) >= THRASHING_THRESHOLD;
    if pause then Next(s.(detector := AfterEmit(d, key)), Throttled(key, true, EmitsMetric(d, key)))
    else Next(s.(detector := d), Throttled(key, false, false))
  }

  function AfterApply(settings: Settings, s: State, inp: Inputs, d: Object, key: string): Next {
    match inp.apply
    case ApplyDone =>
      var store := Cleared(settings.codec, s.store, d, inp.hco, inp.clearIo);
      Next(s.(store := store, detector := s.detector - {key}), Applied(key, d))
    case ApplyNamespaceGone => Next(s, if Namespace(d) != "" then ApplySkipped(key) else ApplyErrored(key))
    case ApplyFailed => Next(s, ApplyErrored(key))
  }

  function ThrottleAndApply(settings: Settings, s: State, inp: Inputs, d: Object): Next
    requires settings.limits.capacity > 0
  {
    if Namespace(d) != "" && inp.namespace.NamespaceUnreadable? then Next(s, Errored)
    else if Namespace(d) != "" && inp.namespace.NamespaceMissing? then Next(s, Skipped)
    else
      var key := Key(d);
      var s' := s.(buckets := AfterAllow(settings.limits, s.buckets, key, inp.now));
      if Allows(settings.limits, s.buckets, key, inp.now) then AfterApply(settings, s', inp, d, key)
      else AfterThrottled(s', key)
  }

  ghost function Coalesced(settings: Settings, s: State, inp: Inputs, d: Object, live: Option<Object>,
                           hash: string): Decision {
    if live.Some?
    then Coalesce(settings.codec, s.store, d, live.value, hash, inp.hco, inp.pools, inp.now, inp.holdIo)
    else Decision(s.store, Apply)
  }

  function AfterDecision(settings: Settings, s: State, inp: Inputs, d: Object, c: Decision): Next
    requires settings.limits.capacity > 0
  {
    var s' := s.(store := c.store);
    match c.verdict
    case Hold => Next(s', Held)
    case Failed => Next(s', Errored)
    case Apply => ThrottleAndApply(settings, s', inp, d)
  }

  ghost function AfterDrift(settings: Settings, s: State, inp: Inputs, d: Object, live: Option<Object>,
                            hash: string): Next
    requires settings.limits.capacity > 0
  {
    AfterDecision(settings, s, inp, d, Coalesced(settings, s, inp, d, live, hash))
  }

  ghost function AfterEffect(settings: Settings, s: State, inp: Inputs, live: Option<Object>, effect: Effect): Next
    requires settings.limits.capacity > 0
  {
    match effect
    case Stop(e) => Next(s, if e then Errored else Skipped)
    case Drifted(d, hash) => AfterDrift(settings, s, inp, d, live, hash)
  }

  ghost function AfterFront(settings: Settings, s: State, inp: Inputs, desired: Object, live: Option<Object>): Next
    requires settings.limits.capacity > 0
  {
    AfterEffect(settings, AfterResume(s, desired, live), inp, live, EffectOf(settings, inp, desired, live))
  }

  ghost function Reconciled(settings: Settings, s: State, inp: Inputs): Next
    requires settings.limits.capacity > 0
  {
    match FrontOf(inp)
    case Done(e) => Next(s, if e then Errored else Skipped)
    case Go(desired, live) => AfterFront(settings, s, inp, desired, live)
  }

  function Excluded(codec: Codec, s: State, render: PolicyAggregation.Render, hco: Hco, io: Io): State {
    if render.Rendered? then s.(store := Cleared(codec, s.store, render.manifest, hco, io)) else s
  }

  class Patcher {
    const throttle: TokenBucket
    const thrashingDetector: ThrashingDetector
    const staging: StagingStore
    const digest: Object -> string

    ghost function View(): State
      reads throttle, thrashingDetector, staging
    {
      State(throttle.buckets, thrashingDetector.states, staging.View())
    }

    ghost function Fixed(): Settings { Settings(throttle.limits, staging.codec, digest) }

    constructor (throttle: TokenBucket, detector: ThrashingDetector, staging: StagingStore, digest: Object -> string)
      ensures this.throttle == throttle && this.thrashingDetector == detector && this.staging == staging
      ensures this.digest == digest
    {
      this.throttle := throttle;
      this.thrashingDetector := detector;
      this.staging := staging;
      this.digest := digest;
    }

    method ReconcileAsset(inp: Inputs) returns (result: Result)
      requires throttle.limits.capacity > 0
      modifies throttle, thrashingDetector, staging
      ensures Next(View(), result) == Reconciled(Fixed(), old(View()), inp)
    {
      if inp.render.RenderFailed? {
        return Errored;
      }
      if inp.render.RenderedEmpty? {
        return Skipped;
      }
      var desired := inp.render.manifest;
      if inp.excluded {
        return Skipped;
      }
      if inp.dependency.Some? {
        var gate := PrepareDependent(desired, inp.dependency.value.want, inp.dependency.value.config);
        if gate.GateError? {
          return Errored;
        }
        if gate.Waiting? {
          return Skipped;
        }
        desired := gate.marked;
      }
      var live: Option<Object> := None;
      match inp.cached {
        case Got(l) => live := Some(l);
        case Unreadable => return Errored;
        case NotFound =>
          match inp.direct {
            case Got(l) => live := Some(l);
            case NotFound =>
            case Unreadable => return Errored;
          }
      }
      if live.Some? && IsPaused(live.value) {
        return Skipped;
      }
      result := ReconcileUnpaused(inp, desired, live);
    }

    method ReconcileUnpaused(inp: Inputs, desired: Object, live: Option<Object>) returns (result: Result)
      requires throttle.limits.capacity > 0
      modifies throttle, thrashingDetector, staging
      ensures Next(View(), result) == AfterFront(Fixed(), old(View()), inp, desired, live)
    {
      if live.Some? {
        var attempts := thrashingDetector.GetAttempts(Key(desired));
        if attempts >= THRASHING_THRESHOLD {
          thrashingDetector.Reset(Key(desired));
          throttle.Reset(Key(desired));
        }
      }
      assert View() == AfterResume(old(View()), desired, live);
      var effect := DetermineEffect(inp, desired, live);
      match effect {
        case Stop(e) => return if e then Errored else Skipped;
        case Drifted(d, hash) => result := CoalesceAndApply(inp, d, live, hash);
      }
    }

    method DetermineEffect(inp: Inputs, desired: Object, live: Option<Object>) returns (effect: Effect)
      ensures effect == EffectOf(Fixed(), inp, desired, live)
    {
      if live.None? {
        return Drifted(WithLabel(desired), "");
      }
      if IsUnmanaged(live.value) {
        return Stop(false);
      }
      var d := Patched(inp, desired, live.value);
      var hash := "";
      if IsMachineConfig(d) {
        hash := digest(Normalized(d));
      }
      var masked := Masking.MaskIgnoredFields(Some(d), live);
      if masked.None? {
        return Stop(true);
      }
      d := WithLabel(masked.value);
      if IsMachineConfig(d) {
        d := CopyBypass(d, live.value);
      }
      if inp.dryRun.None? {
        return Stop(true);
      }
      return if HasDrift(inp.dryRun.value, live.value) then Drifted(d, hash) else Stop(false);
    }

    method CoalesceAndApply(inp: Inputs, d: Object, live: Option<Object>, hash: string) returns (result: Result)
      requires throttle.limits.capacity > 0
      modifies throttle, thrashingDetector, staging
      ensures Next(View(), result) == AfterDrift(Fixed(), old(View()), inp, d, live, hash)
    {
      if live.Some? {
        var verdict := CoalesceMachineConfigUpdate(staging, d, live.value, hash, inp.hco, inp.pools, inp.now,
          inp.holdIo);
        if verdict == Failed {
          return Errored;
        }
        if verdict == Hold {
          return Held;
        }
      }
      result := ThrottleThenApply(inp, d);
    }

    method ThrottleThenApply(inp: Inputs, d: Object) returns (result: Result)
      requires throttle.limits.capacity > 0
      modifies throttle, thrashingDetector, staging
      ensures Next(View(), result) == ThrottleAndApply(Fixed(), old(View()), inp, d)
    {
      if Namespace(d) != "" {
        if inp.namespace.NamespaceMissing? {
          return Skipped;
        }
        if inp.namespace.NamespaceUnreadable? {
          return Errored;
        }
      }
      var key := Key(d);
      var allowed := throttle.Allow(key, inp.now);
      if !allowed {
        var shouldPause := thrashingDetector.RecordThrottle(key);
        if shouldPause {
          var counted := thrashingDetector.ShouldEmitMetric(key);
          return Throttled(key, true, counted);
        }
        return Throttled(key, false, false);
      }
      if !inp.apply.ApplyDone? {
        if Namespace(d) != "" && inp.apply.ApplyNamespaceGone? {
          return ApplySkipped(key);
        }
        return ApplyErrored(key);
      }
      ClearStaging(d, inp.hco, inp.clearIo);
      thrashingDetector.RecordSuccess(key);
      return Applied(key, d);
    }

    method ClearStaging(o: Object, hco: Hco, io: Io)
      modifies staging
      ensures staging.View() == Cleared(staging.codec, old(staging.View()), o, hco, io)
    {
      if IsMachineConfig(o) && hco.namespace != "" {
        var _ := staging.UnstageUpdate(Name(o), io);
      }
    }

    method CleanupExcludedAsset(render: PolicyAggregation.Render, hco: Hco, io: Io)
      modifies staging
      ensures View() == Excluded(staging.codec, old(View()), render, hco, io)
    {
      if render.Rendered? {
        ClearStaging(render.manifest, hco, io);
      }
    }

    /** The body of the loop over assets. */
    method CountAsset(inp: Inputs, applied: nat, failed: nat, ghost before: State, ghost steps: seq<Turn>)
      returns (appliedCount: nat, failedCount: nat)
      requires throttle.limits.capacity > 0
      requires Tally(Fixed(), before, steps, View(), applied, failed)
      modifies throttle, thrashingDetector, staging
      ensures Tally(Fixed(), before, steps + [Reconcile(inp)], View(), appliedCount, failedCount)
    {
      var result := ReconcileAsset(inp);
      NextTally(Fixed(), before, steps, old(View()), applied, failed, inp, Next(View(), result));
      appliedCount, failedCount := applied, failed;
      if IsFailure(result) {
        failedCount := failed + 1;
      } else if IsApplied(result) {
        appliedCount := applied + 1;
      }
    }

    method ReconcileAssets(assets: seq<Inputs>, now: int) returns (appliedCount: nat, failedCount: nat)
      requires throttle.limits.capacity > 0
      modifies throttle, thrashingDetector, staging
      ensures Tally(Fixed(), old(View()), [Sweep(now)] + Reconciles(assets), View(), appliedCount, failedCount)
    {
      ghost var before := View();
      var _ := throttle.CleanupStale(DEFAULT_TTL, now);
      appliedCount, failedCount := 0, 0;
      ghost var steps := [Sweep(now)];
      FirstTally(Fixed(), before, now);
      for i := 0 to |assets|
        invariant steps == [Sweep(now)] + Reconciles(assets[..i])
        invariant Tally(Fixed(), before, steps, View(), appliedCount, failedCount)
      {
        appliedCount, failedCount := CountAsset(assets[i], appliedCount, failedCount, before, steps);
        assert assets[..i + 1][..i] == assets[..i];
        steps := steps + [Reconcile(assets[i])];
      }
      assert assets[..|assets|] == assets;
    }
  }

  // Whole runs. --------------------------------------------------------------------------------------

  datatype Turn =
    | Reconcile(inputs: Inputs)
    | Sweep(at: int)
    | Exclude(render: PolicyAggregation.Render, hco: Hco, io: Io)
    | Restart(at: int)

  ghost function After(settings: Settings, s: State, step: Turn): State
    requires settings.limits.capacity > 0
  {
    match step
    case Reconcile(inp) => Reconciled(settings, s, inp).state
    case Sweep(at) => s.(buckets := AfterCleanup(s.buckets, at, DEFAULT_TTL))
    case Exclude(render, hco, io) => Excluded(settings.codec, s, render, hco, io)
    case Restart(_) => State(map[], map[], Restarted(s.store))
  }

  ghost function StateAfter(settings: Settings, s: State, steps: seq<Turn>): State
    requires settings.limits.capacity > 0
    decreases |steps|
  {
    if steps == [] then s else After(settings, StateAfter(settings, s, steps[..|steps| - 1]), steps[|steps| - 1])
  }

  ghost function CountOf(settings: Settings, s: State, steps: seq<Turn>, what: Result -> bool): nat
    requires settings.limits.capacity > 0
    decreases |steps|
  {
    if steps == [] then 0
    else
      var before, last := steps[..|steps| - 1], steps[|steps| - 1];
      CountOf(settings, s, before, what)
      + if last.Reconcile? && what(Reconciled(settings, StateAfter(settings, s, before), last.inputs).result)
        then 1 else 0
  }

  /** What a run leaves behind, and how many of its calls applied and how many failed. */
  ghost predicate Tally(settings: Settings, s: State, steps: seq<Turn>, now: State, applied: nat, failed: nat)
    requires settings.limits.capacity > 0
  {
    && now == StateAfter(settings, s, steps)
    && applied == CountOf(settings, s, steps, IsApplied)
    && failed == CountOf(settings, s, steps, IsFailure)
  }

  lemma FirstTally(settings: Settings, s: State, at: int)
    requires settings.limits.capacity > 0
    ensures Tally(settings, s, [Sweep(at)], After(settings, s, Sweep(at)), 0, 0)
  {
    assert [Sweep(at)][..0] == [];
  }

  /** What one more call adds to a run. */
  lemma NextTally(
      settings: Settings, s: State, steps: seq<Turn>, now: State, applied: nat, failed: nat, inp: Inputs, next: Next)
    requires settings.limits.capacity > 0 && Tally(settings, s, steps, now, applied, failed)
    requires next == Reconciled(settings, now, inp)
    ensures Tally(settings, s, steps + [Reconcile(inp)], next.state,
                  if IsApplied(next.result) then applied + 1 else applied,
                  if IsFailure(next.result) then failed + 1 else failed)
  {
    var longer := steps + [Reconcile(inp)];
    assert longer[..|longer| - 1] == steps;
  }

  /** The call neither applied nor failed. */
  predicate IsLeft(r: Result) { r.Skipped? || r.Held? || r.ApplySkipped? }

  lemma CountSnoc(settings: Settings, s: State, steps: seq<Turn>, inp: Inputs, what: Result -> bool)
    requires settings.limits.capacity > 0
    ensures CountOf(settings, s, steps + [Reconcile(inp)], what) ==
            CountOf(settings, s, steps, what)
            + if what(Reconciled(settings, StateAfter(settings, s, steps), inp).result) then 1 else 0
  {
    var longer := steps + [Reconcile(inp)];
    assert longer[..|longer| - 1] == steps;
  }

  /** Every asset is counted once: as applied, as failed, or as left. */
  lemma {:induction false} EveryAssetCounts(settings: Settings, s: State, at: int, assets: seq<Inputs>)
    requires settings.limits.capacity > 0
    ensures var steps := [Sweep(at)] + Reconciles(assets);
            CountOf(settings, s, steps, IsApplied) + CountOf(settings, s, steps, IsFailure)
            + CountOf(settings, s, steps, IsLeft) == |assets|
  {
    if assets == [] {
      assert [Sweep(at)] + Reconciles(assets) == [Sweep(at)] && [Sweep(at)][..0] == [];
    } else {
      var n := |assets| - 1;
      var before, last := [Sweep(at)] + Reconciles(assets[..n]), assets[n];
      EveryAssetCounts(settings, s, at, assets[..n]);
      assert [Sweep(at)] + Reconciles(assets) == before + [Reconcile(last)];
      CountSnoc(settings, s, before, last, IsApplied);
      CountSnoc(settings, s, before, last, IsFailure);
      CountSnoc(settings, s, before, last, IsLeft);
    }
  }

  function Reconciles(assets: seq<Inputs>): seq<Turn> {
    if assets == [] then [] else Reconciles(assets[..|assets| - 1]) + [Reconcile(assets[|assets| - 1])]
  }
}
