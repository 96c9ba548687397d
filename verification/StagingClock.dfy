/** How long a staged update keeps its place: the staging clock over whole runs of ReconcileAsset,
    CleanupExcludedAsset and operator restarts (pkg/engine/patcher.go,
    pkg/engine/machineconfig_coalescing.go). */
module StagingClock {
  import opened JsonTree
  import opened Ownership
  import opened Staging
  import opened Coalescing
  import opened Patching
  import Masking = JsonPointer
  import PolicyAggregation

  // What the cluster and the patch engine are trusted for. ---------------------------------------------

  /** A read returns the object asked for, which has a name; a patch keeps the identity, whose paths it
      may not touch; and the owner reference is one made from the HCO. */
  predicate Genuine(inp: Inputs) {
    && OwnerRefs(inp.hco.owner)
    && (inp.render.Rendered? ==>
          && Name(inp.render.manifest) != ""
          && (LiveObject(inp).Some? && LiveObject(inp).value.Some? ==>
                SameIdentity(LiveObject(inp).value.value, inp.render.manifest))
          && (inp.patch.PatchDone? ==> SameIdentity(inp.patch.patched, inp.render.manifest)))
  }

  // Identity along the steps. ------------------------------------------------------------------------------

  lemma GateIdentity(inp: Inputs)
    requires Gated(inp).Go?
    ensures inp.render.Rendered? && SameIdentity(Gated(inp).desired, inp.render.manifest)
  {
    MarkedIdentity(inp.render.manifest);
  }

  lemma MarkedIdentity(o: Object)
    ensures SameIdentity(SetAnnotation(o, NDP_EFFECTIVE_ANNOTATION, "true"), o)
  {
    AnnotationKeepsRest(o, NDP_EFFECTIVE_ANNOTATION, "true");
  }

  lemma FrontIdentity(inp: Inputs)
    requires FrontOf(inp).Go?
    ensures inp.render.Rendered? && SameIdentity(FrontOf(inp).desired, inp.render.manifest)
    ensures LiveObject(inp) == Some(FrontOf(inp).live)
  {
    GateIdentity(inp);
  }

  lemma PatchStepIdentity(patch: PatchOutcome, sensitive: bool, withPatch: Object, desired: Object)
    requires SameIdentity(withPatch, desired) && (patch.PatchDone? ==> SameIdentity(patch.patched, desired))
    ensures SameIdentity(PatchStep(patch, sensitive, withPatch), desired)
  {
    StringMapKeepsRest(withPatch, "annotations", Annotations(withPatch) - {PATCH_ANNOTATION});
  }

  lemma PatchedIdentity(inp: Inputs, desired: Object, live: Object)
    requires inp.patch.PatchDone? ==> SameIdentity(inp.patch.patched, desired)
    ensures SameIdentity(Patched(inp, desired, live), desired)
  {
    var a := Annotations(live);
    if PATCH_ANNOTATION in a {
      AnnotationKeepsRest(desired, PATCH_ANNOTATION, a[PATCH_ANNOTATION]);
      PatchStepIdentity(inp.patch, Kind(desired) in SENSITIVE_KINDS,
        SetAnnotation(desired, PATCH_ANNOTATION, a[PATCH_ANNOTATION]), desired);
    }
  }

  /** No patch annotation is in force on the live object. */
  predicate Unpatched(live: Option<Object>) {
    live.Some? && PATCH_ANNOTATION in Annotations(live.value) ==> Annotations(live.value)[PATCH_ANNOTATION] == ""
  }

  // What a patch annotation does to the hash. ----------------------------------------------------------------

  /** The annotations are a map of strings without a patch. */
  predicate PlainAnnotations(o: Object) {
    && "metadata" in o && o["metadata"].Obj? && "annotations" in o["metadata"].fields
    && var a := o["metadata"].fields["annotations"];
       a.Obj? && PATCH_ANNOTATION !in a.fields && forall k <- a.fields :: a.fields[k].Str?
  }

  function WithAnnotations(o: Object, m: map<string, string>): Object
    requires "metadata" in o && o["metadata"].Obj?
  {
    o["metadata" := Obj(o["metadata"].fields["annotations" := Obj(Strs(m))])]
  }

  lemma RefusedShape(desired: Object, v: string)
    requires Name(desired) != "" && "metadata" in desired && desired["metadata"].Obj?
    ensures RefusePatch(SetAnnotation(desired, PATCH_ANNOTATION, v))
            == WithAnnotations(desired, Annotations(desired) - {PATCH_ANNOTATION})
  {
    var m := Annotations(desired);
    var withPatch := SetAnnotation(desired, PATCH_ANNOTATION, v);
    SetMetadata(desired, "annotations", m[PATCH_ANNOTATION := v]);
    AnnotationRoundTrip(desired, PATCH_ANNOTATION, v);
    assert Annotations(withPatch) - {PATCH_ANNOTATION} == m - {PATCH_ANNOTATION};
    SetMetadata(withPatch, "annotations", m - {PATCH_ANNOTATION});
    assert withPatch == WithAnnotations(desired, m[PATCH_ANNOTATION := v]);
    WithAnnotationsTwice(desired, m[PATCH_ANNOTATION := v], m - {PATCH_ANNOTATION});
  }

  lemma WithAnnotationsTwice(o: Object, x: map<string, string>, y: map<string, string>)
    requires "metadata" in o && o["metadata"].Obj?
    ensures WithAnnotations(WithAnnotations(o, x), y) == WithAnnotations(o, y)
  {
    var fields := o["metadata"].fields;
    assert fields["annotations" := Obj(Strs(x))]["annotations" := Obj(Strs(y))] ==
      fields["annotations" := Obj(Strs(y))];
  }

  lemma WithSameAnnotations(o: Object, m: map<string, string>)
    requires "metadata" in o && o["metadata"].Obj?
    ensures WithAnnotations(o, m) == o <==>
            "annotations" in o["metadata"].fields && o["metadata"].fields["annotations"] == Obj(Strs(m))
  {
    var fields := o["metadata"].fields;
    if "annotations" in fields && fields["annotations"] == Obj(Strs(m)) {
      assert fields["annotations" := Obj(Strs(m))] == fields;
      assert o["metadata" := o["metadata"]] == o;
    } else {
      assert WithAnnotations(o, m)["metadata"].fields["annotations"] == Obj(Strs(m));
    }
  }

  /** A patch on a MachineConfig is refused, yet it leaves the object to be hashed as it was only if the
      template has annotations: without any, the refusal leaves an empty annotation map behind. */
  lemma RefusedPatchKeepsHashIff(inp: Inputs, desired: Object, live: Object)
    requires IsMachineConfig(desired) && Name(desired) != "" && !Unpatched(Some(live))
    ensures Patched(inp, desired, live) == desired <==> PlainAnnotations(desired)
  {
    NamedHasMetadata(desired);
    var v, m := Annotations(live)[PATCH_ANNOTATION], Annotations(desired);
    assert Patched(inp, desired, live) == RefusePatch(SetAnnotation(desired, PATCH_ANNOTATION, v));
    RefusedShape(desired, v);
    WithSameAnnotations(desired, m - {PATCH_ANNOTATION});
    PlainIff(desired);
  }

  lemma PlainIff(o: Object)
    requires "metadata" in o && o["metadata"].Obj?
    ensures PlainAnnotations(o) <==>
            && "annotations" in o["metadata"].fields
            && o["metadata"].fields["annotations"] == Obj(Strs(Annotations(o) - {PATCH_ANNOTATION}))
  {
    AnnotationsOf(o);
    if PlainAnnotations(o) {
      assert o["metadata"].fields["annotations"].fields == Strs(Annotations(o) - {PATCH_ANNOTATION});
    }
  }

  lemma AnnotationsOf(o: Object)
    requires "metadata" in o && o["metadata"].Obj?
    ensures PlainAnnotations(o) ==>
              Annotations(o) == map k | k in o["metadata"].fields["annotations"].fields ::
                o["metadata"].fields["annotations"].fields[k].s
  {
    FieldOfField(o, "metadata", "annotations");
    FieldAt(o["metadata"].fields, "annotations");
  }

  /** A MachineConfig is hashed as it was rendered, whatever is masked, unless a patch disturbs its annotations. */
  lemma HashedAsRendered(settings: Settings, inp: Inputs, desired: Object, live: Object)
    requires IsMachineConfig(desired) && Name(desired) != "" && (Unpatched(Some(live)) || PlainAnnotations(desired))
    ensures var e := EffectOnLive(settings, inp, desired, live);
            e.Drifted? ==> e.hash == settings.digest(Normalized(desired))
  {
    if !Unpatched(Some(live)) { RefusedPatchKeepsHashIff(inp, desired, live); }
    assert Patched(inp, desired, live) == desired;
  }

  lemma CreatedIdentity(desired: Object)
    ensures SameIdentity(WithLabel(desired), desired)
  {
    StringMapKeepsRest(desired, "labels", Labels(desired)[MANAGED_BY_LABEL := MANAGED_BY_VALUE]);
  }

  lemma MaskedIdentity(p: Object, desired: Object, live: Object)
    requires SameIdentity(live, desired) && SameIdentity(p, desired) && Masking.Mask(p, live).Some?
    ensures SameIdentity(Masking.Mask(p, live).value, desired)
  {
    Masking.MaskKeepsIdentity(p, live);
  }

  /** What a drifted update is made of. */
  lemma UpdateShape(settings: Settings, inp: Inputs, desired: Object, live: Object)
    ensures var e := EffectOnLive(settings, inp, desired, live);
            var masked := Masking.Mask(Patched(inp, desired, live), live);
            e.Drifted? ==>
              && masked.Some?
              && e.desired in {WithLabel(masked.value), CopyBypass(WithLabel(masked.value), live)}
  {
  }

  lemma UpdatedIdentity(settings: Settings, inp: Inputs, desired: Object, live: Object)
    requires SameIdentity(live, desired) && (inp.patch.PatchDone? ==> SameIdentity(inp.patch.patched, desired))
    ensures var e := EffectOnLive(settings, inp, desired, live); e.Drifted? ==> SameIdentity(e.desired, desired)
  {
    UpdateShape(settings, inp, desired, live);
    PatchedIdentity(inp, desired, live);
    if EffectOnLive(settings, inp, desired, live).Drifted? {
      var masked := Masking.Mask(Patched(inp, desired, live), live).value;
      MaskedIdentity(Patched(inp, desired, live), desired, live);
      FinishIdentity(masked, live);
    }
  }

  /** The effective desired object is the one rendered. */
  lemma EffectIdentity(settings: Settings, inp: Inputs, desired: Object, live: Option<Object>)
    requires live.Some? ==> SameIdentity(live.value, desired)
    requires inp.patch.PatchDone? ==> SameIdentity(inp.patch.patched, desired)
    ensures var e := EffectOf(settings, inp, desired, live); e.Drifted? ==> SameIdentity(e.desired, desired)
  {
    if live.None? { CreatedIdentity(desired); } else { UpdatedIdentity(settings, inp, desired, live.value); }
  }

  lemma FinishIdentity(masked: Object, live: Object)
    ensures SameIdentity(WithLabel(masked), masked)
    ensures SameIdentity(CopyBypass(WithLabel(masked), live), masked)
  {
    StringMapKeepsRest(masked, "labels", Labels(masked)[MANAGED_BY_LABEL := MANAGED_BY_VALUE]);
    if BYPASS_ANNOTATION in Annotations(live) {
      AnnotationKeepsRest(WithLabel(masked), BYPASS_ANNOTATION, Annotations(live)[BYPASS_ANNOTATION]);
    }
  }

  // The staged entries after one call. -----------------------------------------------------------------------

  function Durable(settings: Settings, s: State): map<string, Stage> { Decoded(settings.codec, s.store.configMap) }

  /** Why a call may retire a staged entry. */
  ghost predicate Retires(inp: Inputs, d: Object, live: Option<Object>, r: Result) {
    r.Applied? || Drops(inp, d, live)
  }

  ghost predicate Drops(inp: Inputs, d: Object, live: Option<Object>) {
    live.Some? && (BypassInEffect(d, live.value, inp.hco.annotations) || NoPoolMatches(d, live.value, inp.pools))
  }

  /** The claim about one call for the MachineConfig `name`, hashed as `hash`. */
  ghost predicate EntryFate(before: map<string, Stage>, after: map<string, Stage>, name: string, hash: string, now: int,
                            retires: bool, held: bool) {
    && OthersKept(before, after, name)
    && ClockKept(before, after, name, hash)
    && ClockStarts(before, after, name, hash, now, held)
    && (name in before && name !in after ==> retires)
  }

  lemma ClearedStore(codec: Codec, store: Store, d: Object, hco: Hco, io: Io)
    requires codec.Faithful() && Mirrors(codec, store)
    ensures var after := Cleared(codec, store, d, hco, io);
            && Mirrors(codec, after) && (!IsMachineConfig(d) ==> after == store)
            && (|| Decoded(codec, after.configMap) == Decoded(codec, store.configMap)
                || Decoded(codec, after.configMap) == Decoded(codec, store.configMap) - {Name(d)})
  {
    DropEffect(codec, store, Name(d), io);
  }

  /** The gate leaves the store alone unless it applies, and then it clears the entry. */
  lemma GateOnStore(settings: Settings, s: State, inp: Inputs, d: Object)
    requires settings.limits.capacity > 0
    ensures var n := ThrottleAndApply(settings, s, inp, d);
            && !n.result.Held?
            && n.state.store ==
               if n.result.Applied? then Cleared(settings.codec, s.store, d, inp.hco, inp.clearIo) else s.store
  {
  }

  lemma GateStore(settings: Settings, s: State, inp: Inputs, d: Object)
    requires settings.limits.capacity > 0 && settings.codec.Faithful() && Mirrors(settings.codec, s.store)
    ensures var n := ThrottleAndApply(settings, s, inp, d);
            && Mirrors(settings.codec, n.state.store)
            && !n.result.Held?
            && (!IsMachineConfig(d) || !n.result.Applied? ==> n.state.store == s.store)
            && Durable(settings, n.state) in {Durable(settings, s), Durable(settings, s) - {Name(d)}}
  {
    GateOnStore(settings, s, inp, d);
    ClearedStore(settings.codec, s.store, d, inp.hco, inp.clearIo);
  }

  lemma DecisionStore(settings: Settings, s: State, inp: Inputs, d: Object, c: Decision, hash: string, dropped: bool)
    requires settings.limits.capacity > 0 && settings.codec.Faithful() && Mirrors(settings.codec, c.store)
    requires var before, mid := Durable(settings, s), Decoded(settings.codec, c.store.configMap);
             && OthersKept(before, mid, Name(d))
             && ClockKept(before, mid, Name(d), hash)
             && ClockStarts(before, mid, Name(d), hash, inp.now, c.verdict == Hold)
             && (Name(d) in before && Name(d) !in mid ==> dropped)
    ensures var n := AfterDecision(settings, s, inp, d, c);
            && Mirrors(settings.codec, n.state.store)
            && EntryFate(Durable(settings, s), Durable(settings, n.state), Name(d), hash, inp.now,
                         n.result.Applied? || dropped, n.result.Held?)
            && (!IsMachineConfig(d) ==> n.state.store == c.store)
  {
    var n := AfterDecision(settings, s, inp, d, c);
    GateStore(settings, s.(store := c.store), inp, d);
    FateCompose(Durable(settings, s), Decoded(settings.codec, c.store.configMap), Durable(settings, n.state), Name(d),
                hash, inp.now, c.verdict, n.result, dropped);
  }

  lemma FateCompose(before: map<string, Stage>, mid: map<string, Stage>, after: map<string, Stage>, name: string,
                    hash: string, now: int, verdict: Verdict, r: Result, dropped: bool)
    requires OthersKept(before, mid, name) && ClockKept(before, mid, name, hash)
    requires ClockStarts(before, mid, name, hash, now, verdict == Hold)
    requires name in before && name !in mid ==> dropped
    requires if r.Applied? then verdict == Apply && (after == mid || after == mid - {name})
             else after == mid && (verdict == Hold <==> r.Held?)
    ensures EntryFate(before, after, name, hash, now, r.Applied? || dropped, r.Held?)
  {}

  lemma OnlyMachineConfigsAreStaged(settings: Settings, s: State, inp: Inputs, d: Object, live: Option<Object>,
                                    hash: string)
    requires !IsMachineConfig(d)
    ensures Coalesced(settings, s, inp, d, live, hash) == Decision(s.store, Apply)
  {}

  lemma DriftStore(settings: Settings, s: State, inp: Inputs, d: Object, live: Option<Object>, hash: string)
    requires settings.limits.capacity > 0 && settings.codec.Faithful() && Mirrors(settings.codec, s.store)
    requires OwnerRefs(inp.hco.owner) && Name(d) != ""
    ensures var n := AfterDrift(settings, s, inp, d, live, hash);
            && Mirrors(settings.codec, n.state.store)
            && EntryFate(Durable(settings, s), Durable(settings, n.state), Name(d), hash, inp.now,
                         Retires(inp, d, live, n.result), n.result.Held?)
            && (!IsMachineConfig(d) ==> n.state.store == s.store)
  {
    var c := Coalesced(settings, s, inp, d, live, hash);
    if !IsMachineConfig(d) {
      OnlyMachineConfigsAreStaged(settings, s, inp, d, live, hash);
    } else if live.Some? {
      CoalesceKeepsClock(settings.codec, s.store, d, live.value, hash, inp.hco, inp.pools, inp.now, inp.holdIo);
    }
    DecisionStore(settings, s, inp, d, c, hash, Drops(inp, d, live));
  }

  /** The claim about a whole call. */
  ghost predicate CallFate(settings: Settings, s: State, inp: Inputs)
    requires settings.limits.capacity > 0
  {
    var n := Reconciled(settings, s, inp);
    && Mirrors(settings.codec, n.state.store)
    && match FrontOf(inp)
       case Done(_) => n.state.store == s.store
       case Go(desired, live) =>
         match EffectOf(settings, inp, desired, live)
         case Stop(_) => n.state.store == s.store
         case Drifted(d, hash) =>
           && (!IsMachineConfig(d) ==> n.state.store == s.store)
           && EntryFate(Durable(settings, s), Durable(settings, n.state), Name(d), hash, inp.now,
                        Retires(inp, d, live, n.result), n.result.Held?)
  }

  lemma CallKeepsFate(settings: Settings, s: State, inp: Inputs)
    requires settings.limits.capacity > 0 && settings.codec.Faithful() && Mirrors(settings.codec, s.store)
    requires Genuine(inp)
    ensures CallFate(settings, s, inp)
  {
    if FrontOf(inp).Go? {
      FrontIdentity(inp);
      var Go(desired, live) := FrontOf(inp);
      EffectIdentity(settings, inp, desired, live);
      var e := EffectOf(settings, inp, desired, live);
      if e.Drifted? {
        DriftStore(settings, AfterResume(s, desired, live), inp, e.desired, live, e.hash);
      }
    }
  }

  // Whole runs. ----------------------------------------------------------------------------------------------

  predicate Renders(render: PolicyAggregation.Render, name: string) {
    render.Rendered? && IsMachineConfig(render.manifest) && Name(render.manifest) == name
  }

  /** The turn does not retire the staged entry of `name`, and renders it, if at all, to the state that
      hashes to `hash`, undisturbed by a patch. */
  ghost predicate Tame(settings: Settings, s: State, turn: Turn, name: string, hash: string)
    requires settings.limits.capacity > 0
  {
    match turn
    case Reconcile(inp) =>
      Genuine(inp) && (Renders(inp.render, name) && FrontOf(inp).Go? ==> TameCall(settings, s, inp, hash))
    case Exclude(render, _, _) => !Renders(render, name)
    case _ => true
  }

  ghost predicate TameCall(settings: Settings, s: State, inp: Inputs, hash: string)
    requires settings.limits.capacity > 0 && FrontOf(inp).Go?
  {
    var Go(desired, live) := FrontOf(inp);
    && (Unpatched(live) || PlainAnnotations(desired))
    && settings.digest(Normalized(desired)) == hash
    && var e := EffectOf(settings, inp, desired, live);
       e.Drifted? ==> !Retires(inp, e.desired, live, Reconciled(settings, s, inp).result)
  }

  ghost predicate Undisturbed(settings: Settings, s: State, turns: seq<Turn>, name: string, hash: string)
    requires settings.limits.capacity > 0
    decreases |turns|
  {
    turns != [] ==>
      var before := turns[..|turns| - 1];
      && Undisturbed(settings, s, before, name, hash)
      && Tame(settings, StateAfter(settings, s, before), turns[|turns| - 1], name, hash)
  }

  /** `name` is staged since `at` for the state that hashes to `hash`. */
  predicate StagedSince(settings: Settings, s: State, name: string, hash: string, at: int) {
    && name in Durable(settings, s) && Durable(settings, s)[name].desiredHash == hash
    && Durable(settings, s)[name].stagedAt == at
  }

  lemma CallKeepsEntry(settings: Settings, s: State, inp: Inputs, name: string, hash: string, at: int)
    requires settings.limits.capacity > 0 && settings.codec.Faithful() && Mirrors(settings.codec, s.store)
    requires Tame(settings, s, Reconcile(inp), name, hash) && StagedSince(settings, s, name, hash, at)
    ensures Mirrors(settings.codec, Reconciled(settings, s, inp).state.store)
    ensures StagedSince(settings, Reconciled(settings, s, inp).state, name, hash, at)
  {
    CallKeepsFate(settings, s, inp);
    if FrontOf(inp).Go? {
      FrontIdentity(inp);
      var Go(desired, live) := FrontOf(inp);
      EffectIdentity(settings, inp, desired, live);
      var e := EffectOf(settings, inp, desired, live);
      if e.Drifted? && live.None? {
        CreationStore(settings, AfterResume(s, desired, live), inp, e.desired, e.hash);
      } else if e.Drifted? && Renders(inp.render, name) {
        HashedAsRendered(settings, inp, desired, live.value);
      }
    }
  }

  lemma CreationStore(settings: Settings, s: State, inp: Inputs, d: Object, hash: string)
    requires settings.limits.capacity > 0
    ensures var n := AfterDrift(settings, s, inp, d, None, hash); !n.result.Applied? ==> n.state.store == s.store
  {}

  lemma ExclusionKeepsEntry(settings: Settings, s: State, render: PolicyAggregation.Render, hco: Hco, io: Io,
                            name: string, hash: string, at: int)
    requires settings.codec.Faithful() && Mirrors(settings.codec, s.store)
    requires !Renders(render, name) && StagedSince(settings, s, name, hash, at)
    ensures var after := Excluded(settings.codec, s, render, hco, io);
            Mirrors(settings.codec, after.store) && StagedSince(settings, after, name, hash, at)
  {
    if render.Rendered? { DropEffect(settings.codec, s.store, Name(render.manifest), io); }
  }

  lemma TurnKeepsEntry(settings: Settings, s: State, turn: Turn, name: string, hash: string, at: int)
    requires settings.limits.capacity > 0 && settings.codec.Faithful() && Mirrors(settings.codec, s.store)
    requires Tame(settings, s, turn, name, hash) && StagedSince(settings, s, name, hash, at)
    ensures Mirrors(settings.codec, After(settings, s, turn).store)
    ensures StagedSince(settings, After(settings, s, turn), name, hash, at)
  {
    match turn
    case Reconcile(inp) => CallKeepsEntry(settings, s, inp, name, hash, at);
    case Exclude(render, hco, io) => ExclusionKeepsEntry(settings, s, render, hco, io, name, hash, at);
    case Sweep(_) =>
    case Restart(_) =>
  }

  /** While nothing retires it, a staged update keeps the time of its first hold: across live drift,
      masking, changes in the set of pools, throttled releases, failed writes and restarts. */
  lemma {:induction false} StagedTimeSurvives(settings: Settings, s: State, turns: seq<Turn>, name: string,
                                              hash: string, at: int)
    requires settings.limits.capacity > 0 && settings.codec.Faithful() && Mirrors(settings.codec, s.store)
    requires Undisturbed(settings, s, turns, name, hash) && StagedSince(settings, s, name, hash, at)
    ensures Mirrors(settings.codec, StateAfter(settings, s, turns).store)
    ensures StagedSince(settings, StateAfter(settings, s, turns), name, hash, at)
    decreases |turns|
  {
    if turns != [] {
      var before := turns[..|turns| - 1];
      StagedTimeSurvives(settings, s, before, name, hash, at);
      TurnKeepsEntry(settings, StateAfter(settings, s, before), turns[|turns| - 1], name, hash, at);
    }
  }

  // From the first hold. -------------------------------------------------------------------------------------

  /** A held call found drift on a live object, and the state it held is now staged: since this call, unless that
      very state was staged before. */
  lemma HoldStages(settings: Settings, s: State, inp: Inputs)
    requires settings.limits.capacity > 0 && settings.codec.Faithful() && Mirrors(settings.codec, s.store)
    requires Genuine(inp)
    requires Reconciled(settings, s, inp).result.Held?
    ensures FrontOf(inp).Go? && FrontOf(inp).live.Some? && inp.render.Rendered?
    ensures var Go(desired, live) := FrontOf(inp);
            var e := EffectOnLive(settings, inp, desired, live.value);
            var name, before := Name(inp.render.manifest), Durable(settings, s);
            && e.Drifted? && Mirrors(settings.codec, Reconciled(settings, s, inp).state.store)
            && StagedSince(settings, Reconciled(settings, s, inp).state, name, e.hash,
                           if name in before && before[name].desiredHash == e.hash
                           then before[name].stagedAt else inp.now)
  {
    CallKeepsFate(settings, s, inp);
    FrontIdentity(inp);
    var Go(desired, live) := FrontOf(inp);
    EffectIdentity(settings, inp, desired, live);
    if live.None? { CreationIsNotHeld(settings, AfterResume(s, desired, live), inp, WithLabel(desired), ""); }
  }

  lemma CreationIsNotHeld(settings: Settings, s: State, inp: Inputs, d: Object, hash: string)
    requires settings.limits.capacity > 0
    ensures !AfterDrift(settings, s, inp, d, None, hash).result.Held?
  {}

  /** The call holds the state of `name` that hashes to `hash`, undisturbed by a patch, and that state was not
      staged. */
  ghost predicate FirstHold(settings: Settings, s: State, inp: Inputs, name: string, hash: string)
    requires settings.limits.capacity > 0
  {
    && Genuine(inp) && Renders(inp.render, name) && Reconciled(settings, s, inp).result.Held?
    && !(name in Durable(settings, s) && Durable(settings, s)[name].desiredHash == hash)
    && FrontOf(inp).Go?
    && var Go(desired, live) := FrontOf(inp);
       settings.digest(Normalized(desired)) == hash && (Unpatched(live) || PlainAnnotations(desired))
  }

  /** From the first hold of a rendered state on, and while nothing retires it, the recorded time is that of the first
      hold, whatever was staged for the MachineConfig before. */
  lemma StagedSinceFirstHold(settings: Settings, s: State, inp: Inputs, turns: seq<Turn>, name: string, hash: string)
    requires settings.limits.capacity > 0 && settings.codec.Faithful() && Mirrors(settings.codec, s.store)
    requires FirstHold(settings, s, inp, name, hash)
    requires Undisturbed(settings, Reconciled(settings, s, inp).state, turns, name, hash)
    ensures StagedSince(settings, StateAfter(settings, Reconciled(settings, s, inp).state, turns), name, hash, inp.now)
  {
    HoldStages(settings, s, inp);
    FrontIdentity(inp);
    HashedAsRendered(settings, inp, FrontOf(inp).desired, FrontOf(inp).live.value);
    StagedTimeSurvives(settings, Reconciled(settings, s, inp).state, turns, name, hash, inp.now);
  }

  // A refused patch and the clock. ---------------------------------------------------------------------------

  predicate HasMetadata(o: Object) { "metadata" in o && o["metadata"].Obj? }

  lemma RemoveField(o: Object, f: string)
    requires HasMetadata(o)
    ensures RemoveNested(o, ["metadata", f]) == o["metadata" := Obj(o["metadata"].fields - {f})]
  {
    assert ["metadata", f][1..] == [f];
  }

  /** Normalizing drops exactly the metadata that a server fills in. */
  lemma NormalizedNodes(o: Object, q: Path)
    ensures NodeAt(Obj(Normalized(o)), q) ==
            if |q| >= 2 && q[0] == "metadata"
               && q[1] in {"resourceVersion", "managedFields", "uid", "generation", "creationTimestamp"}
            then Absent else NodeAt(Obj(o), q)
  {
    var a := RemoveNested(o, ["metadata", "resourceVersion"]);
    var b := RemoveNested(a, ["metadata", "managedFields"]);
    var c := RemoveNested(b, ["metadata", "uid"]);
    var d := RemoveNested(c, ["metadata", "generation"]);
    RemoveNodes(o, ["metadata", "resourceVersion"], q);
    RemoveNodes(a, ["metadata", "managedFields"], q);
    RemoveNodes(b, ["metadata", "uid"], q);
    RemoveNodes(c, ["metadata", "generation"], q);
    RemoveNodes(d, ["metadata", "creationTimestamp"], q);
  }

  /** Normalizing drops no annotation. */
  lemma NormalizedKeepsAnnotations(o: Object)
    requires HasMetadata(o)
    ensures HasMetadata(Normalized(o))
    ensures var fields, normal := o["metadata"].fields, Normalized(o)["metadata"].fields;
            && ("annotations" in normal <==> "annotations" in fields)
            && ("annotations" in fields ==> normal["annotations"] == fields["annotations"])
  {
    var a := RemoveNested(o, ["metadata", "resourceVersion"]);
    RemoveField(o, "resourceVersion");
    var b := RemoveNested(a, ["metadata", "managedFields"]);
    RemoveField(a, "managedFields");
    var c := RemoveNested(b, ["metadata", "uid"]);
    RemoveField(b, "uid");
    var d := RemoveNested(c, ["metadata", "generation"]);
    RemoveField(c, "generation");
    RemoveField(d, "creationTimestamp");
  }

  /** A refused patch that changes the rendered object changes what is hashed. */
  lemma RefusedPatchChangesHashed(inp: Inputs, desired: Object, live: Object)
    requires IsMachineConfig(desired) && Name(desired) != "" && !Unpatched(Some(live)) && !PlainAnnotations(desired)
    ensures Normalized(Patched(inp, desired, live)) != Normalized(desired)
  {
    NamedHasMetadata(desired);
    var v, m := Annotations(live)[PATCH_ANNOTATION], Annotations(desired) - {PATCH_ANNOTATION};
    RefusedShape(desired, v);
    assert Patched(inp, desired, live) == WithAnnotations(desired, m);
    PlainIff(desired);
    NormalizedKeepsAnnotations(desired);
    NormalizedKeepsAnnotations(WithAnnotations(desired, m));
  }

  /** A patch annotation set on a staged MachineConfig starts its clock again at the next hold, though the rendered
      state has not changed, exactly when the template's annotations are not a plain map and the object that the
      refusal leaves does not happen to hash like the one rendered. */
  lemma PatchRestartsClockIff(settings: Settings, s: State, inp: Inputs, name: string, at: int)
    requires settings.limits.capacity > 0 && settings.codec.Faithful()
    requires Mirrors(settings.codec, s.store) && Genuine(inp)
    requires Reconciled(settings, s, inp).result.Held? && Renders(inp.render, name) && FrontOf(inp).Go?
    requires !Unpatched(FrontOf(inp).live)
    requires StagedSince(settings, s, name, settings.digest(Normalized(FrontOf(inp).desired)), at)
    ensures var Go(desired, live) := FrontOf(inp);
            var after := Durable(settings, Reconciled(settings, s, inp).state);
            var kept := PlainAnnotations(desired) || HashesAlike(settings, Patched(inp, desired, live.value), desired);
            name in after && after[name].stagedAt == if kept then at else inp.now
    ensures var Go(desired, live) := FrontOf(inp);
            Normalized(Patched(inp, desired, live.value)) == Normalized(desired) <==> PlainAnnotations(desired)
  {
    HoldStages(settings, s, inp);
    FrontIdentity(inp);
    var Go(desired, live) := FrontOf(inp);
    PatchedHash(settings, inp, desired, live.value);
    RefusedPatchKeepsHashIff(inp, desired, live.value);
    if !PlainAnnotations(desired) { RefusedPatchChangesHashed(inp, desired, live.value); }
  }

  predicate HashesAlike(settings: Settings, a: Object, b: Object) {
    settings.digest(Normalized(a)) == settings.digest(Normalized(b))
  }

  lemma PatchedHash(settings: Settings, inp: Inputs, desired: Object, live: Object)
    requires IsMachineConfig(desired) && Name(desired) != "" && !Unpatched(Some(live))
    ensures var e := EffectOnLive(settings, inp, desired, live);
            e.Drifted? ==> e.hash == settings.digest(Normalized(Patched(inp, desired, live)))
  {
    NamedHasMetadata(desired);
    PatchedKeepsKind(inp, desired, live);
  }

  lemma PatchedKeepsKind(inp: Inputs, desired: Object, live: Object)
    requires IsMachineConfig(desired) && !Unpatched(Some(live))
    ensures IsMachineConfig(Patched(inp, desired, live))
  {
    var withPatch := SetAnnotation(desired, PATCH_ANNOTATION, Annotations(live)[PATCH_ANNOTATION]);
    AnnotationKeepsRest(desired, PATCH_ANNOTATION, Annotations(live)[PATCH_ANNOTATION]);
    StringMapKeepsRest(withPatch, "annotations", Annotations(withPatch) - {PATCH_ANNOTATION});
  }
}
