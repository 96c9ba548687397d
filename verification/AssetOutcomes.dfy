/** The outcome of every call of ReconcileAsset, read off its inputs: when an asset is applied, and as which object;
    when it is held, throttled or skipped, and when it fails (pkg/engine/patcher.go). */
module AssetOutcomes {
  import opened JsonTree
  import opened Ownership
  import opened TokenBuckets
  import opened Thrashing
  import opened Staging
  import opened Coalescing
  import opened NodeDisruptionPolicy
  import opened Drift
  import opened Patching
  import opened StagingClock
  import Masking = JsonPointer
  import PolicyAggregation

  // What the inputs say. ------------------------------------------------------------------------------------

  /** The asset renders, is not root-excluded, and if it depends on a policy, that covers it and is fulfilled. */
  ghost predicate Due(inp: Inputs) {
    && inp.render.Rendered? && !inp.excluded
    && (inp.dependency.Some? ==>
          var o, want := inp.render.manifest, inp.dependency.value.want;
          && IsMachineConfig(o) && want.Want? && Covers(want.policy, o)
          && Fulfilled(want.policy, inp.dependency.value.config))
  }

  /** A policy that the asset depends on covers it but is not fulfilled yet, or asks for nothing. */
  ghost predicate Waits(inp: Inputs) {
    && inp.render.Rendered? && inp.dependency.Some?
    && var o, want := inp.render.manifest, inp.dependency.value.want;
       && IsMachineConfig(o) && !want.WantError? && Covers(if want.Want? then want.policy else map[], o)
       && (want.Want? ==> Unfulfilled(want.policy, inp.dependency.value.config))
  }

  /** The object to be reconciled: as rendered, and marked if it depends on a policy. */
  function Opinion(inp: Inputs): Object
    requires inp.render.Rendered?
  {
    if inp.dependency.None? then inp.render.manifest
    else SetAnnotation(inp.render.manifest, NDP_EFFECTIVE_ANNOTATION, "true")
  }

  /** The live object, or None for an object that does not exist: as cached, or else as read directly. */
  predicate LiveIs(inp: Inputs, live: Option<Object>) {
    match inp.cached
    case Got(o) => live == Some(o)
    case NotFound => if live.Some? then inp.direct == Got(live.value) else inp.direct.NotFound?
    case Unreadable => false
  }

  /** The ignored fields of the live object can be masked, and the dry run succeeds. */
  ghost predicate Comparable(inp: Inputs, desired: Object, live: Object) {
    Masking.Unblocked(live, Patched(inp, desired, live), Masking.IgnoredPointers(live)) && inp.dryRun.Some?
  }

  /** There is something to apply: the object does not exist, or the dry run differs in intent from a live object that
      is not opted out. */
  ghost predicate Differs(inp: Inputs, desired: Object, live: Option<Object>) {
    live.Some? ==>
      && !IsUnmanaged(live.value) && Comparable(inp, desired, live.value)
      && !SameIntent(inp.dryRun.value, live.value)
  }

  /** The call finds a change to make. */
  ghost predicate Changes(inp: Inputs, live: Option<Object>) {
    && Due(inp) && LiveIs(inp, live) && (live.Some? ==> !IsPaused(live.value))
    && Differs(inp, Opinion(inp), live)
  }

  /** The object that is applied over a live object. */
  function Finished(masked: Object, live: Object): Object {
    if IsMachineConfig(masked) then CopyBypass(WithLabel(masked), live) else WithLabel(masked)
  }

  ghost function Sent(inp: Inputs, live: Option<Object>): Object
    requires inp.render.Rendered?
  {
    if live.None? then WithLabel(Opinion(inp))
    else
      match Masking.Mask(Patched(inp, Opinion(inp), live.value), live.value)
      case Some(masked) => Finished(masked, live.value)
      case None => Opinion(inp)
  }

  function HashOf(settings: Settings, inp: Inputs, live: Option<Object>): string
    requires inp.render.Rendered?
  {
    if live.Some? && IsMachineConfig(Patched(inp, Opinion(inp), live.value))
    then settings.digest(Normalized(Patched(inp, Opinion(inp), live.value))) else ""
  }

  // From the inputs to the front and the effect of a call. --------------------------------------------------

  lemma GatedExact(inp: Inputs)
    ensures Gated(inp) ==
            if Due(inp) then Go(Opinion(inp), None)
            else Done(!(inp.render.RenderedEmpty? || (inp.render.Rendered? && (inp.excluded || Waits(inp)))))
  {
    if inp.render.Rendered? && inp.dependency.Some? {
      GateExact(inp.render.manifest, inp.dependency.value.want, inp.dependency.value.config);
    }
  }

  lemma LiveExact(inp: Inputs)
    ensures forall live :: LiveObject(inp) == Some(live) <==> LiveIs(inp, live)
  {}

  lemma ComparableIff(inp: Inputs, desired: Object, live: Object)
    ensures Comparable(inp, desired, live) <==>
            Masking.Mask(Patched(inp, desired, live), live).Some? && inp.dryRun.Some?
  {
    Masking.MaskSucceedsIff(live, Patched(inp, desired, live), Masking.IgnoredPointers(live));
  }

  lemma EffectShape(settings: Settings, inp: Inputs, desired: Object, live: Object)
    ensures var e := EffectOnLive(settings, inp, desired, live);
            var masked := Masking.Mask(Patched(inp, desired, live), live);
            && (e.Drifted? <==>
                  !IsUnmanaged(live) && masked.Some? && inp.dryRun.Some? && HasDrift(inp.dryRun.value, live))
            && (e.Stop? ==> (e.error <==> !IsUnmanaged(live) && !(masked.Some? && inp.dryRun.Some?)))
  {}

  lemma EffectExact(settings: Settings, inp: Inputs, live: Object)
    requires inp.render.Rendered?
    ensures var e, comparable := EffectOnLive(settings, inp, Opinion(inp), live), Comparable(inp, Opinion(inp), live);
            && (e.Drifted? <==> Differs(inp, Opinion(inp), Some(live)))
            && (e.Stop? ==> (e.error <==> !IsUnmanaged(live) && !comparable))
  {
    ComparableIff(inp, Opinion(inp), live);
    EffectShape(settings, inp, Opinion(inp), live);
    if inp.dryRun.Some? { DriftIffIntentDiffers(inp.dryRun.value, live); }
  }

  lemma LabelKeepsKind(o: Object)
    ensures IsMachineConfig(WithLabel(o)) == IsMachineConfig(o)
  {
    StringMapKeepsRest(o, "labels", Labels(o)[MANAGED_BY_LABEL := MANAGED_BY_VALUE]);
  }

  lemma DriftedExact(settings: Settings, inp: Inputs, live: Object)
    requires inp.render.Rendered? && EffectOnLive(settings, inp, Opinion(inp), live).Drifted?
    ensures EffectOnLive(settings, inp, Opinion(inp), live) ==
            Drifted(Sent(inp, Some(live)), HashOf(settings, inp, Some(live)))
  {
    LabelKeepsKind(Masking.Mask(Patched(inp, Opinion(inp), live), live).value);
  }

  // The outcome. --------------------------------------------------------------------------------------------

  /** Whether a call ends before it compares anything, and how. */
  lemma FrontExact(inp: Inputs, live: Option<Object>)
    requires LiveIs(inp, live) || forall l :: !LiveIs(inp, l)
    ensures FrontOf(inp) ==
            if !Due(inp) then Done(!NotMeant(inp))
            else if !LiveIs(inp, live) then Done(true)
            else if live.Some? && IsPaused(live.value) then Done(false)
            else Go(Opinion(inp), live)
  {
    GatedExact(inp);
    LiveExact(inp);
  }

  /** The asset renders to nothing, is root-excluded, or waits for its policy. */
  ghost predicate NotMeant(inp: Inputs) {
    inp.render.RenderedEmpty? || (inp.render.Rendered? && (inp.excluded || Waits(inp)))
  }

  lemma StoppedCall(settings: Settings, s: State, inp: Inputs, live: Option<Object>, effect: Effect)
    requires settings.limits.capacity > 0 && effect.Stop?
    ensures AfterEffect(settings, s, inp, live, effect) == Next(s, if effect.error then Errored else Skipped)
  {}

  /** A call that finds no change to make: what it answers, and that it leaves the staging store alone; it leaves the
      whole state alone unless it reads a live object that is not paused. */
  lemma NothingToChange(settings: Settings, s: State, inp: Inputs, live: Option<Object>)
    requires settings.limits.capacity > 0 && !Changes(inp, live) && (LiveIs(inp, live) || forall l :: !LiveIs(inp, l))
    ensures var n := Reconciled(settings, s, inp);
            var seen := Due(inp) && LiveIs(inp, live) && live.Some?;
            var left := seen &&
              (IsPaused(live.value) || IsUnmanaged(live.value) || Comparable(inp, Opinion(inp), live.value));
            && n.result == (if NotMeant(inp) || left then Skipped else Errored)
            && n.state.store == s.store
            && (!seen || IsPaused(live.value) ==> n.state == s)
  {
    FrontExact(inp, live);
    DueIsMeant(inp);
    if FrontOf(inp).Done? { EarlyEnd(settings, s, inp); } else { NoDifference(settings, s, inp, live.value); }
  }

  lemma DueIsMeant(inp: Inputs)
    ensures Due(inp) ==> inp.render.Rendered? && !NotMeant(inp)
  {
    GatedExact(inp);
  }

  lemma EarlyEnd(settings: Settings, s: State, inp: Inputs)
    requires settings.limits.capacity > 0 && FrontOf(inp).Done?
    ensures Reconciled(settings, s, inp) == Next(s, if FrontOf(inp).error then Errored else Skipped)
  {}

  lemma NoDifference(settings: Settings, s: State, inp: Inputs, live: Object)
    requires settings.limits.capacity > 0 && inp.render.Rendered? && !Differs(inp, Opinion(inp), Some(live))
    requires FrontOf(inp) == Go(Opinion(inp), Some(live))
    ensures var n := Reconciled(settings, s, inp);
            && n.result == (if IsUnmanaged(live) || Comparable(inp, Opinion(inp), live) then Skipped else Errored)
            && n.state.store == s.store
  {
    EffectExact(settings, inp, live);
    StoppedCall(settings, AfterResume(s, Opinion(inp), Some(live)), inp, Some(live),
      EffectOf(settings, inp, Opinion(inp), Some(live)));
  }

  /** The update of a live object is neither waiting for a rollout nor in trouble with pools or staging store. */
  ghost predicate Released(settings: Settings, s: State, inp: Inputs, d: Object, live: Option<Object>) {
    live.Some? ==>
      && !ShouldHold(d, live.value, inp.hco, inp.pools)
      && !(DependsOnPools(d, live.value, inp.hco) && CannotList(inp.pools))
      && (RetiresEntry(d, live.value, inp.hco, inp.pools) ==> CanDrop(settings.codec, s.store, Name(d), inp.holdIo))
  }

  /** It is waiting for a rollout, and staged. */
  ghost predicate Stays(settings: Settings, s: State, inp: Inputs, d: Object, live: Option<Object>, hash: string) {
    && live.Some? && ShouldHold(d, live.value, inp.hco, inp.pools)
    && CanStage(settings.codec, s.store, Name(d),
                EntryFor(Durable(settings, s), d, live.value, hash, inp.pools, inp.now), inp.holdIo)
  }

  /** The bucket has a token, or is full again because the user removed the pause annotation. */
  predicate HasToken(settings: Settings, s: State, inp: Inputs, live: Option<Object>, key: string)
    requires settings.limits.capacity > 0
  {
    || (live.Some? && Attempts(s.detector, key) >= THRASHING_THRESHOLD)
    || Allows(settings.limits, s.buckets, key, inp.now)
  }

  lemma CoalescedExact(settings: Settings, s: State, inp: Inputs, d: Object, live: Option<Object>, hash: string)
    requires settings.codec.Faithful() && Mirrors(settings.codec, s.store)
    requires OwnerRefs(inp.hco.owner) && Name(d) != "" && DistinctNames(inp.pools)
    ensures var verdict := Coalesced(settings, s, inp, d, live, hash).verdict;
            && (verdict == Hold <==> Stays(settings, s, inp, d, live, hash))
            && (verdict == Coalescing.Apply <==> Released(settings, s, inp, d, live))
  {
    if live.Some? {
      CoalesceExact(settings.codec, s.store, d, live.value, hash, inp.hco, inp.pools, inp.now, inp.holdIo);
    }
  }

  /** What becomes of an update that is released. */
  ghost predicate GateResult(settings: Settings, inp: Inputs, d: Object, token: bool, r: Result) {
    var namespaced, key := Namespace(d) != "", Key(d);
    if namespaced && inp.namespace.NamespaceUnreadable? then r == Errored
    else if namespaced && inp.namespace.NamespaceMissing? then r == Skipped
    else if !token then r.Throttled? && r.key == key
    else
      match inp.apply
      case ApplyDone => r == Applied(key, d)
      case ApplyNamespaceGone => r == if namespaced then ApplySkipped(key) else ApplyErrored(key)
      case ApplyFailed => r == ApplyErrored(key)
  }

  lemma GateExactly(settings: Settings, s: State, inp: Inputs, d: Object)
    requires settings.limits.capacity > 0
    ensures GateResult(settings, inp, d, Allows(settings.limits, s.buckets, Key(d), inp.now),
                       ThrottleAndApply(settings, s, inp, d).result)
  {}

  lemma DecisionExactly(settings: Settings, s: State, inp: Inputs, d: Object, c: Decision)
    requires settings.limits.capacity > 0
    ensures var r := AfterDecision(settings, s, inp, d, c).result;
            match c.verdict
            case Hold => r == Held
            case Failed => r == Errored
            case Apply => GateResult(settings, inp, d, Allows(settings.limits, s.buckets, Key(d), inp.now), r)
  {
    GateExactly(settings, s.(store := c.store), inp, d);
  }

  lemma SentIdentity(settings: Settings, inp: Inputs, live: Option<Object>)
    requires Genuine(inp) && Changes(inp, live)
    ensures SameIdentity(Sent(inp, live), inp.render.manifest) && Key(Opinion(inp)) == Key(inp.render.manifest)
  {
    MarkedIdentity(inp.render.manifest);
    LiveExact(inp);
    EffectIdentity(settings, inp, Opinion(inp), live);
    if live.Some? {
      EffectExact(settings, inp, live.value);
      DriftedExact(settings, inp, live.value);
    }
  }

  lemma TokenAfterResume(settings: Settings, s: State, inp: Inputs, desired: Object, live: Option<Object>)
    requires settings.limits.capacity > 0
    ensures Allows(settings.limits, AfterResume(s, desired, live).buckets, Key(desired), inp.now) ==
            HasToken(settings, s, inp, live, Key(desired))
  {}

  /** A call that finds a change to make: the object it sends, when that is held, when the call fails, and what
      namespace, token bucket and API server make of it. */
  lemma ChangeOutcome(settings: Settings, s: State, inp: Inputs, live: Option<Object>)
    requires settings.limits.capacity > 0 && settings.codec.Faithful() && Mirrors(settings.codec, s.store)
    requires Genuine(inp) && DistinctNames(inp.pools) && Changes(inp, live)
    ensures var r, d := Reconciled(settings, s, inp).result, Sent(inp, live);
            if Stays(settings, s, inp, d, live, HashOf(settings, inp, live)) then r == Held
            else if !Released(settings, s, inp, d, live) then r == Errored
            else GateResult(settings, inp, d, HasToken(settings, s, inp, live, Key(inp.render.manifest)), r)
  {
    var d, hash := Sent(inp, live), HashOf(settings, inp, live);
    FrontOfChange(settings, inp, live);
    SentIdentity(settings, inp, live);
    var s' := AfterResume(s, Opinion(inp), live);
    CoalescedExact(settings, s', inp, d, live, hash);
    DecisionExactly(settings, s', inp, d, Coalesced(settings, s', inp, d, live, hash));
    TokenAfterResume(settings, s, inp, Opinion(inp), live);
  }

  lemma FrontOfChange(settings: Settings, inp: Inputs, live: Option<Object>)
    requires Changes(inp, live)
    ensures FrontOf(inp) == Go(Opinion(inp), live)
    ensures EffectOf(settings, inp, Opinion(inp), live) == Drifted(Sent(inp, live), HashOf(settings, inp, live))
  {
    GatedExact(inp);
    LiveExact(inp);
    if live.Some? {
      EffectExact(settings, inp, live.value);
      DriftedExact(settings, inp, live.value);
    }
  }

  /** The namespace of the object, if it has one, is there. */
  predicate NamespaceReady(inp: Inputs, o: Object) { Namespace(o) == "" || inp.namespace.NamespaceThere? }

  /** An asset is applied exactly when it renders, is not excluded, its policy if it depends on one is fulfilled, its
      live object is known and neither paused nor opted out, differs in intent, and waits for no rollout; its namespace
      is there, the bucket has a token, and the API server accepts it. What is applied is then the object sent. */
  lemma AppliedIff(settings: Settings, s: State, inp: Inputs)
    requires settings.limits.capacity > 0 && settings.codec.Faithful() && Mirrors(settings.codec, s.store)
    requires Genuine(inp) && DistinctNames(inp.pools)
    ensures Reconciled(settings, s, inp).result.Applied? <==>
            exists live :: Changes(inp, live) && Passes(settings, s, inp, live) && inp.apply.ApplyDone?
    ensures forall live | Changes(inp, live) && Passes(settings, s, inp, live) && inp.apply.ApplyDone? ::
              Reconciled(settings, s, inp).result == Applied(Key(inp.render.manifest), Sent(inp, live))
  {
    forall live | Changes(inp, live)
      ensures Passes(settings, s, inp, live) && inp.apply.ApplyDone? <==> Reconciled(settings, s, inp).result.Applied?
      ensures Passes(settings, s, inp, live) && inp.apply.ApplyDone? ==>
                Reconciled(settings, s, inp).result == Applied(Key(inp.render.manifest), Sent(inp, live))
    {
      ChangeOutcome(settings, s, inp, live);
      SentIdentity(settings, inp, live);
    }
    if live :| LiveIs(inp, live) {
      if !Changes(inp, live) { NothingToChange(settings, s, inp, live); }
    } else {
      NothingToChange(settings, s, inp, None);
    }
  }

  /** The update is released, its namespace is there and the bucket has a token. */
  ghost predicate Passes(settings: Settings, s: State, inp: Inputs, live: Option<Object>)
    requires settings.limits.capacity > 0 && inp.render.Rendered?
  {
    && Released(settings, s, inp, Sent(inp, live), live) && NamespaceReady(inp, inp.render.manifest)
    && HasToken(settings, s, inp, live, Key(inp.render.manifest))
  }

  // The object sent. ----------------------------------------------------------------------------------------

  const LABELS: Path := ["metadata", "labels"]
  const ANNOTATIONS: Path := ["metadata", "annotations"]

  /** What is rendered, or the patched object where a patch is in force, may be used and succeeds. */
  function Base(inp: Inputs, live: Option<Object>): Object
    requires inp.render.Rendered?
  {
    if !Unpatched(live) && inp.patch.PatchDone? && Kind(inp.render.manifest) !in SENSITIVE_KINDS then inp.patch.patched
    else inp.render.manifest
  }

  lemma AnnotationNodes(o: Object, key: string, value: string, q: Path)
    requires Name(o) != "" && !(ANNOTATIONS <= q)
    ensures NodeAt(Obj(SetAnnotation(o, key, value)), q) == NodeAt(Obj(o), q)
    ensures SameIdentity(SetAnnotation(o, key, value), o)
  {
    StringMapNodes(o, "annotations", Annotations(o)[key := value], q);
    AnnotationKeepsRest(o, key, value);
  }

  lemma PatchStepNodes(patch: PatchOutcome, sensitive: bool, withPatch: Object, q: Path)
    requires Name(withPatch) != "" && !(ANNOTATIONS <= q)
    ensures NodeAt(Obj(PatchStep(patch, sensitive, withPatch)), q) ==
            NodeAt(Obj(if !sensitive && patch.PatchDone? then patch.patched else withPatch), q)
  {
    StringMapNodes(withPatch, "annotations", Annotations(withPatch) - {PATCH_ANNOTATION}, q);
  }

  lemma PatchNodes(inp: Inputs, o: Object, live: Object, q: Path)
    requires Name(o) != "" && !(ANNOTATIONS <= q)
    ensures NodeAt(Obj(Patched(inp, o, live)), q) ==
            NodeAt(Obj(if !Unpatched(Some(live)) && inp.patch.PatchDone? && Kind(o) !in SENSITIVE_KINDS
                       then inp.patch.patched else o), q)
  {
    if !Unpatched(Some(live)) {
      var v := Annotations(live)[PATCH_ANNOTATION];
      AnnotationNodes(o, PATCH_ANNOTATION, v, q);
      PatchStepNodes(inp.patch, Kind(o) in SENSITIVE_KINDS, SetAnnotation(o, PATCH_ANNOTATION, v), q);
    }
  }

  lemma PatchedNodes(inp: Inputs, live: Object, q: Path)
    requires inp.render.Rendered? && Name(inp.render.manifest) != "" && !(ANNOTATIONS <= q)
    ensures NodeAt(Obj(Patched(inp, Opinion(inp), live)), q) == NodeAt(Obj(Base(inp, Some(live))), q)
  {
    AnnotationNodes(inp.render.manifest, NDP_EFFECTIVE_ANNOTATION, "true", q);
    PatchNodes(inp, Opinion(inp), live, q);
  }

  /** The annotations under a patch: without it where it is refused, with it where it fails. */
  lemma PatchedAnnotations(inp: Inputs, o: Object, live: Object)
    requires Name(o) != ""
    ensures Annotations(Patched(inp, o, live)) ==
            if Unpatched(Some(live)) then Annotations(o)
            else if Kind(o) in SENSITIVE_KINDS || inp.patch.PatchRefused? then Annotations(o) - {PATCH_ANNOTATION}
            else if inp.patch.PatchDone? then Annotations(inp.patch.patched)
            else Annotations(o)[PATCH_ANNOTATION := Annotations(live)[PATCH_ANNOTATION]]
  {
    if !Unpatched(Some(live)) {
      var v := Annotations(live)[PATCH_ANNOTATION];
      NamedHasMetadata(o);
      AnnotationRoundTrip(o, PATCH_ANNOTATION, v);
      RefusedShape(o, v);
      WithAnnotationsReads(o, Annotations(o) - {PATCH_ANNOTATION});
    }
  }

  lemma WithAnnotationsReads(o: Object, m: map<string, string>)
    requires "metadata" in o && o["metadata"].Obj?
    ensures Annotations(WithAnnotations(o, m)) == m
  {
    SetMetadata(o, "annotations", m);
    StringMapRoundTrip(o, "annotations", m);
  }

  lemma FinishedNodes(masked: Object, live: Object, q: Path)
    requires Name(masked) != "" && !(LABELS <= q) && !(ANNOTATIONS <= q)
    ensures NodeAt(Obj(WithLabel(masked)), q) == NodeAt(Obj(masked), q)
    ensures NodeAt(Obj(Finished(masked, live)), q) == NodeAt(Obj(masked), q)
  {
    StringMapNodes(masked, "labels", Labels(masked)[MANAGED_BY_LABEL := MANAGED_BY_VALUE], q);
    FinishIdentity(masked, live);
    if BYPASS_ANNOTATION in Annotations(live) {
      AnnotationNodes(WithLabel(masked), BYPASS_ANNOTATION, Annotations(live)[BYPASS_ANNOTATION], q);
    }
  }

  lemma PatchedIsRendered(inp: Inputs, live: Object)
    requires Genuine(inp) && inp.render.Rendered? && LiveIs(inp, Some(live))
    ensures SameIdentity(live, inp.render.manifest)
    ensures SameIdentity(Patched(inp, Opinion(inp), live), inp.render.manifest)
  {
    LiveExact(inp);
    MarkedIdentity(inp.render.manifest);
    PatchedIdentity(inp, Opinion(inp), live);
  }

  /** Masking succeeded, and its result is the object rendered. */
  lemma MaskedObject(inp: Inputs, live: Object)
    requires Genuine(inp) && Changes(inp, Some(live))
    ensures var masked := Masking.Mask(Patched(inp, Opinion(inp), live), live);
            && masked.Some? && SameIdentity(masked.value, inp.render.manifest)
            && Sent(inp, Some(live)) == Finished(masked.value, live)
  {
    ComparableIff(inp, Opinion(inp), live);
    PatchedIsRendered(inp, live);
    MaskedIdentity(Patched(inp, Opinion(inp), live), inp.render.manifest, live);
  }

  /** Outside labels and annotations, what is sent is what is rendered, or patched, with the ignored fields of the live
      object: node by node. */
  lemma SentNodes(inp: Inputs, live: Option<Object>, q: Path)
    requires Genuine(inp) && Changes(inp, live) && !(LABELS <= q) && !(ANNOTATIONS <= q)
    ensures NodeAt(Obj(Sent(inp, live)), q) ==
            if live.None? then NodeAt(Obj(inp.render.manifest), q)
            else Masking.MaskedNode(live.value, Base(inp, live), Masking.IgnoredPointers(live.value), q)
  {
    if live.None? {
      AnnotationNodes(inp.render.manifest, NDP_EFFECTIVE_ANNOTATION, "true", q);
      FinishedNodes(Opinion(inp), map[], q);
    } else {
      var p := Patched(inp, Opinion(inp), live.value);
      MaskedObject(inp, live.value);
      FinishedNodes(Masking.Mask(p, live.value).value, live.value, q);
      Masking.MaskNodes(live.value, p, Masking.IgnoredPointers(live.value), q);
      PatchedNodes(inp, live.value, q);
    }
  }

  lemma FinishedMarks(masked: Object, live: Object)
    requires Name(masked) != ""
    ensures var labels := Labels(masked)[MANAGED_BY_LABEL := MANAGED_BY_VALUE];
            Labels(WithLabel(masked)) == labels && Labels(Finished(masked, live)) == labels
    ensures Annotations(WithLabel(masked)) == Annotations(masked)
    ensures Annotations(Finished(masked, live)) ==
            if IsMachineConfig(masked) && BYPASS_ANNOTATION in Annotations(live)
            then Annotations(masked)[BYPASS_ANNOTATION := Annotations(live)[BYPASS_ANNOTATION]] else Annotations(masked)
  {
    var labels := Labels(masked)[MANAGED_BY_LABEL := MANAGED_BY_VALUE];
    NamedHasMetadata(masked);
    StringMapRoundTrip(masked, "labels", labels);
    SetKeepsReads(masked, "labels", labels, ANNOTATIONS);
    FinishIdentity(masked, live);
    if BYPASS_ANNOTATION in Annotations(live) {
      AnnotationRoundTrip(WithLabel(masked), BYPASS_ANNOTATION, Annotations(live)[BYPASS_ANNOTATION]);
      AnnotationKeepsRest(WithLabel(masked), BYPASS_ANNOTATION, Annotations(live)[BYPASS_ANNOTATION]);
    }
  }

  /** What is sent carries the managed-by label; a MachineConfig carries the bypass of the live one; and one that is
      created because its policy is fulfilled carries the mark of that. */
  lemma SentMarks(inp: Inputs, live: Option<Object>)
    requires Genuine(inp) && Changes(inp, live)
    ensures var d, o := Sent(inp, live), inp.render.manifest;
            && Labelled(d)
            && (live.Some? && IsMachineConfig(o) && BYPASS_ANNOTATION in Annotations(live.value) ==>
                  HasAnnotation(d, BYPASS_ANNOTATION, Annotations(live.value)[BYPASS_ANNOTATION]))
            && (live.None? ==>
                  && Labels(d) == Labels(o)[MANAGED_BY_LABEL := MANAGED_BY_VALUE]
                  && Annotations(d) == if inp.dependency.None? then Annotations(o)
                                       else Annotations(o)[NDP_EFFECTIVE_ANNOTATION := "true"])
  {
    if live.None? {
      MarkedIdentity(inp.render.manifest);
      AnnotationRoundTrip(inp.render.manifest, NDP_EFFECTIVE_ANNOTATION, "true");
      AnnotationKeepsRest(inp.render.manifest, NDP_EFFECTIVE_ANNOTATION, "true");
      FinishedMarks(Opinion(inp), map[]);
    } else {
      MaskedObject(inp, live.value);
      FinishedMarks(Masking.Mask(Patched(inp, Opinion(inp), live.value), live.value).value, live.value);
    }
  }

  // Dependents and staged updates. --------------------------------------------------------------------------

  /** Unless a call skips or fails, the policy that its asset depends on was read as effective for every file, unit and
      SSH key of the asset. */
  lemma OnlyCoveredGoOn(settings: Settings, s: State, inp: Inputs, policy: Object)
    requires settings.limits.capacity > 0 && inp.dependency.Some? && inp.dependency.value.want == Want(policy)
    requires !Reconciled(settings, s, inp).result.Errored? && !Reconciled(settings, s, inp).result.Skipped?
    ensures inp.render.Rendered? && inp.dependency.value.config.ConfigFound?
    ensures EffectivePolicies(inp.dependency.value.config.config).Found?
    ensures var o, status := inp.render.manifest, EffectivePolicies(inp.dependency.value.config.config).value;
            && (forall k, i | k in {FILES, UNITS} && 0 <= i < |ConfigEntries(o, k)| ::
                  EntryEffective(ConfigEntries(o, k)[i], policy, status, k))
            && (forall i | 0 <= i < |ConfigUsers(o)| && HasKeys(ConfigUsers(o)[i]) ::
                  SshActions(policy).Found? && SshActions(status) == SshActions(policy))
  {
    GatedExact(inp);
    assert Due(inp);
    var o, read := inp.render.manifest, inp.dependency.value.config;
    GateExact(o, Want(policy), read);
    forall k, i | k in {FILES, UNITS} && 0 <= i < |ConfigEntries(o, k)|
      ensures EntryEffective(ConfigEntries(o, k)[i], policy, EffectivePolicies(read.config).value, k)
    {
      GateEntriesEffective(o, policy, read, k, i);
    }
    forall i | 0 <= i < |ConfigUsers(o)| && HasKeys(ConfigUsers(o)[i])
      ensures SshActions(policy).Found? && SshActions(EffectivePolicies(read.config).value) == SshActions(policy)
    {
      GateSshEffective(o, policy, read, i);
    }
  }

  /** Once a MachineConfig is applied and the staging store can be read and patched, no entry for it is left. */
  lemma AppliedIsUnstaged(settings: Settings, s: State, inp: Inputs)
    requires settings.limits.capacity > 0 && settings.codec.Faithful() && Mirrors(settings.codec, s.store)
    requires Genuine(inp) && DistinctNames(inp.pools) && Reconciled(settings, s, inp).result.Applied?
    requires IsMachineConfig(inp.render.manifest) && inp.hco.namespace != ""
    requires inp.clearIo.readOk && inp.clearIo.patchOk
    ensures Name(inp.render.manifest) !in Durable(settings, Reconciled(settings, s, inp).state)
  {
    AppliedIff(settings, s, inp);
    var live :| Changes(inp, live);
    var d, hash := Sent(inp, live), HashOf(settings, inp, live);
    FrontOfChange(settings, inp, live);
    SentIdentity(settings, inp, live);
    var s' := AfterResume(s, Opinion(inp), live);
    var c := Coalesced(settings, s', inp, d, live, hash);
    if live.Some? {
      CoalesceKeepsClock(settings.codec, s'.store, d, live.value, hash, inp.hco, inp.pools, inp.now, inp.holdIo);
    }
    ClearedAfter(settings, s', inp, d, c);
  }

  lemma ClearedAfter(settings: Settings, s: State, inp: Inputs, d: Object, c: Decision)
    requires settings.limits.capacity > 0 && settings.codec.Faithful() && Mirrors(settings.codec, c.store)
    requires AfterDecision(settings, s, inp, d, c).result.Applied?
    requires IsMachineConfig(d) && inp.hco.namespace != "" && inp.clearIo.readOk && inp.clearIo.patchOk
    ensures Name(d) !in Durable(settings, AfterDecision(settings, s, inp, d, c).state)
  {
    GateOnStore(settings, s.(store := c.store), inp, d);
    DropEffect(settings.codec, c.store, Name(d), inp.clearIo);
  }

  /** An asset that is excluded loses its staged entry, and no other entry is touched. */
  lemma ExcludedIsUnstaged(settings: Settings, s: State, render: PolicyAggregation.Render, hco: Hco, io: Io)
    requires settings.codec.Faithful() && Mirrors(settings.codec, s.store)
    ensures var before, after := Durable(settings, s), Durable(settings, Excluded(settings.codec, s, render, hco, io));
            after == if && render.Rendered? && IsMachineConfig(render.manifest) && hco.namespace != ""
                        && CanDrop(settings.codec, s.store, Name(render.manifest), io)
                     then before - {Name(render.manifest)} else before
    ensures var n := Excluded(settings.codec, s, render, hco, io); n.buckets == s.buckets && n.detector == s.detector
  {
    if render.Rendered? { DropEffect(settings.codec, s.store, Name(render.manifest), io); }
  }
}
