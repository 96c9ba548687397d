/** Which tombstoned MachineConfigs the reconcile loop deletes: only those that no effective node
    disruption policy applies to, whatever the other actors do between its API calls. */
module PlatformSafety {
  import opened JsonTree
  import opened Ownership
  import opened NodeDisruptionPolicy
  import opened Tombstones
  import opened PolicyAggregation
  import opened Platform
  import Masking = JsonPointer

  // What a check found, call by call. -----------------------------------------------------------------------

  /** The object is live and carries the managed-by label. */
  predicate Carries(c: Cluster, ref: Ref) {
    && ref in c.objects && "platform.kubevirt.io/managed-by" in Labels(c.objects[ref])
    && Labels(c.objects[ref])["platform.kubevirt.io/managed-by"] == "virt-platform-autopilot"
  }

  /** A live, labelled MachineConfig has a file or unit with an effective entry. */
  ghost predicate Acted(c: Cluster, ref: Ref, effective: Object) {
    Carries(c, ref) && !NoEntries(c.objects[ref], effective)
  }

  /** The MachineConfigs among the tombstones, in order. */
  function MachineConfigRefs(refs: seq<Ref>): seq<Ref> {
    if refs == [] then []
    else (if IsMachineConfigRef(refs[0]) then [refs[0]] else []) + MachineConfigRefs(refs[1..])
  }

  /** Each MachineConfig had no effective entry when it was read. */
  ghost predicate AllUnacted(refs: seq<Ref>, gets: seq<Call>, effective: Object) {
    |gets| == |refs| && forall k | 0 <= k < |refs| :: !Acted(gets[k].found, refs[k], effective)
  }

  /** The last MachineConfig read had one then, and those before it had none. */
  ghost predicate LastActed(refs: seq<Ref>, gets: seq<Call>, effective: Object) {
    && 0 < |gets| <= |refs| && Acted(gets[|gets| - 1].found, refs[|gets| - 1], effective)
    && forall k | 0 <= k < |gets| - 1 :: !Acted(gets[k].found, refs[k], effective)
  }

  /** The calls of a clear check: the first found the singleton without effective policies, or the others found
      each tombstoned MachineConfig without an entry in them. */
  ghost predicate FoundNone(e: Env, gets: seq<Call>) {
    && gets != []
    && (gets[0].found.config.Some? ==>
          match EffectivePolicies(gets[0].found.config.value)
          case Mismatch => false
          case Missing => true
          case Found(effective) => AllUnacted(MachineConfigRefs(e.tombstones), gets[1..], effective))
  }

  /** The calls of a blocked check: the last found a tombstoned MachineConfig with an entry in the policies that the
      first found effective. */
  ghost predicate FoundSome(e: Env, gets: seq<Call>) {
    && gets != [] && gets[0].found.config.Some? && EffectivePolicies(gets[0].found.config.value).Found?
    && LastActed(MachineConfigRefs(e.tombstones), gets[1..], EffectivePolicies(gets[0].found.config.value).value)
  }

  lemma RefFinds(c: Cluster, ref: Ref, effective: Object)
    ensures RefCheck(c, ref, effective) == Clear ==> !Acted(c, ref, effective)
    ensures RefCheck(c, ref, effective) == Blocked ==> Acted(c, ref, effective)
  {
    if LabelledIn(c, ref) {
      ClearIffNoEntries(c.objects[ref], effective);
      BlockedHasEntry(c.objects[ref], effective);
    }
  }

  lemma FirstUnacted(ref: Ref, refs: seq<Ref>, get: Call, gets: seq<Call>, effective: Object)
    requires !Acted(get.found, ref, effective) && AllUnacted(refs, gets, effective)
    ensures AllUnacted([ref] + refs, [get] + gets, effective)
  {
    var all, calls := [ref] + refs, [get] + gets;
    forall k | 0 <= k < |all| ensures !Acted(calls[k].found, all[k], effective) {
      if k > 0 { assert all[k] == refs[k - 1] && calls[k] == gets[k - 1]; }
    }
  }

  lemma FirstBeforeActed(ref: Ref, refs: seq<Ref>, get: Call, gets: seq<Call>, effective: Object)
    requires !Acted(get.found, ref, effective) && LastActed(refs, gets, effective)
    ensures LastActed([ref] + refs, [get] + gets, effective)
  {
    var all, calls := [ref] + refs, [get] + gets;
    assert all[|gets|] == refs[|gets| - 1] && calls[|gets|] == gets[|gets| - 1];
    forall k | 0 <= k < |calls| - 1 ensures !Acted(calls[k].found, all[k], effective) {
      if k > 0 { assert all[k] == refs[k - 1] && calls[k] == gets[k - 1]; }
    }
  }

  /** One MachineConfig read before the others. */
  lemma ScanStep(e: Env, refs: seq<Ref>, effective: Object, w: World)
    requires refs != [] && IsMachineConfigRef(refs[0])
    ensures var s, w1 := ScanTombstones(e, refs, effective, w), Called(e, w);
            var get := Call(w1.cluster, w1.cluster);
            if !Fails(e, w) && RefCheck(w1.cluster, refs[0], effective) == Clear
            then var rest := ScanTombstones(e, refs[1..], effective, w1);
                 s.verdict == rest.verdict && s.world.calls[|w.calls|..] == [get] + rest.world.calls[|w1.calls|..]
            else s.world.calls[|w.calls|..] == [get] && s.verdict != Clear
                 && (s.verdict == Blocked ==> RefCheck(w1.cluster, refs[0], effective) == Blocked)
  {
    ScanGrows(e, refs[1..], effective, Called(e, w));
  }

  ghost predicate Reported(refs: seq<Ref>, gets: seq<Call>, effective: Object, verdict: Check) {
    && (verdict == Clear ==> AllUnacted(MachineConfigRefs(refs), gets, effective))
    && (verdict == Blocked ==> LastActed(MachineConfigRefs(refs), gets, effective))
  }

  lemma ReportedFirst(refs: seq<Ref>, get: Call, gets: seq<Call>, effective: Object, verdict: Check)
    requires refs != [] && IsMachineConfigRef(refs[0])
    requires if RefCheck(get.found, refs[0], effective) == Clear then Reported(refs[1..], gets, effective, verdict)
             else
               && gets == [] && verdict != Clear
               && (verdict == Blocked ==> RefCheck(get.found, refs[0], effective) == Blocked)
    ensures Reported(refs, [get] + gets, effective, verdict)
  {
    RefFinds(get.found, refs[0], effective);
    assert MachineConfigRefs(refs) == [refs[0]] + MachineConfigRefs(refs[1..]);
    if RefCheck(get.found, refs[0], effective) == Clear {
      if verdict == Clear { FirstUnacted(refs[0], MachineConfigRefs(refs[1..]), get, gets, effective); }
      if verdict == Blocked { FirstBeforeActed(refs[0], MachineConfigRefs(refs[1..]), get, gets, effective); }
    }
  }

  lemma ReportedNone(w: World, effective: Object)
    ensures Reported([], w.calls[|w.calls|..], effective, Clear)
  {
    assert w.calls[|w.calls|..] == [];
  }

  lemma ReportedSkip(refs: seq<Ref>, gets: seq<Call>, effective: Object, verdict: Check)
    requires refs != [] && !IsMachineConfigRef(refs[0]) && Reported(refs[1..], gets, effective, verdict)
    ensures Reported(refs, gets, effective, verdict)
  {
    assert MachineConfigRefs(refs) == MachineConfigRefs(refs[1..]);
  }

  lemma ScanFindsFirst(e: Env, refs: seq<Ref>, effective: Object, w: World)
    requires refs != [] && IsMachineConfigRef(refs[0])
    requires var w1 := Called(e, w);
             var rest := ScanTombstones(e, refs[1..], effective, w1);
             Reported(refs[1..], rest.world.calls[|w1.calls|..], effective, rest.verdict)
    ensures var s := ScanTombstones(e, refs, effective, w);
            Reported(refs, s.world.calls[|w.calls|..], effective, s.verdict)
  {
    var w1, verdict := Called(e, w), ScanTombstones(e, refs, effective, w).verdict;
    var get := Call(w1.cluster, w1.cluster);
    ScanStep(e, refs, effective, w);
    if !Fails(e, w) && RefCheck(w1.cluster, refs[0], effective) == Clear {
      ReportedFirst(refs, get, ScanTombstones(e, refs[1..], effective, w1).world.calls[|w1.calls|..], effective,
        verdict);
    } else if !Fails(e, w) {
      ReportedFirst(refs, get, [], effective, verdict);
      assert [get] + [] == [get];
    }
  }

  lemma {:induction false} ScanFinds(e: Env, refs: seq<Ref>, effective: Object, w: World)
    ensures var s := ScanTombstones(e, refs, effective, w);
            Reported(refs, s.world.calls[|w.calls|..], effective, s.verdict)
    decreases |refs|
  {
    if refs == [] {
      ReportedNone(w, effective);
    } else if !IsMachineConfigRef(refs[0]) {
      ScanFinds(e, refs[1..], effective, w);
      var s := ScanTombstones(e, refs[1..], effective, w);
      ReportedSkip(refs, s.world.calls[|w.calls|..], effective, s.verdict);
    } else {
      ScanFinds(e, refs[1..], effective, Called(e, w));
      ScanFindsFirst(e, refs, effective, w);
    }
  }

  lemma {:induction false} ScanGrows(e: Env, refs: seq<Ref>, effective: Object, w: World)
    ensures var s := ScanTombstones(e, refs, effective, w); w.calls <= s.world.calls && s.world.log == w.log
    decreases |refs|
  {
    if refs != [] {
      ScanGrows(e, refs[1..], effective, w);
      ScanGrows(e, refs[1..], effective, Called(e, w));
    }
  }

  /** A check that is clear found no effective entry for any live, labelled tombstoned MachineConfig when it read it,
      and one that blocks found one. */
  lemma ScanMeans(e: Env, w: World)
    ensures var s := ScanCluster(e, w);
            var gets := s.world.calls[|w.calls|..];
            && (s.verdict == Clear ==> FoundNone(e, gets)) && (s.verdict == Blocked ==> FoundSome(e, gets))
  {
    var w1, n := Called(e, w), |w.calls|;
    assert w1.calls[n..] == [Call(w1.cluster, w1.cluster)];
    if !Fails(e, w) && w1.cluster.config.Some? && EffectivePolicies(w1.cluster.config.value).Found? {
      var effective := EffectivePolicies(w1.cluster.config.value).value;
      var s := ScanTombstones(e, e.tombstones, effective, w1);
      ScanFinds(e, e.tombstones, effective, w1);
      ScanGrows(e, e.tombstones, effective, w1);
      assert s.world.calls[n..][0] == Call(w1.cluster, w1.cluster);
      assert s.world.calls[n..][1..] == s.world.calls[n + 1..];
    }
  }

  // Which calls of a check failed. --------------------------------------------------------------------------

  /** Of n calls from call `from` on, only the last may have failed, and only with an error. */
  ghost predicate FailsLast(e: Env, from: nat, n: nat, verdict: Check) {
    && (forall i: nat | from <= i < from + n - 1 :: !e.fails(i))
    && (0 < n && verdict != CheckError ==> !e.fails(from + n - 1))
  }

  /** A live, labelled MachineConfig or the policies have something of the wrong type. */
  ghost predicate Mistyped(c: Cluster, ref: Ref, effective: Object) {
    Carries(c, ref) && !WellTyped(c.objects[ref], effective)
  }

  /** The last MachineConfig could not be read or has something of the wrong type. */
  ghost predicate LastErred(e: Env, from: nat, refs: seq<Ref>, gets: seq<Call>, effective: Object) {
    && 0 < |gets| <= |refs|
    && (e.fails(from + |gets| - 1) || Mistyped(gets[|gets| - 1].found, refs[|gets| - 1], effective))
  }

  lemma RefErrs(c: Cluster, ref: Ref, effective: Object)
    ensures RefCheck(c, ref, effective) == CheckError ==> Mistyped(c, ref, effective)
  {
    if LabelledIn(c, ref) && WellTyped(c.objects[ref], effective) { WellTypedDecides(c.objects[ref], effective); }
  }

  ghost predicate Failures(e: Env, refs: seq<Ref>, effective: Object, from: nat, gets: seq<Call>, verdict: Check) {
    && FailsLast(e, from, |gets|, verdict)
    && (verdict == CheckError ==> LastErred(e, from, MachineConfigRefs(refs), gets, effective))
  }

  lemma ScanFailsFirst(e: Env, refs: seq<Ref>, effective: Object, w: World)
    requires refs != [] && IsMachineConfigRef(refs[0])
    requires var w1 := Called(e, w);
             var rest := ScanTombstones(e, refs[1..], effective, w1);
             Failures(e, refs[1..], effective, |w1.calls|, rest.world.calls[|w1.calls|..], rest.verdict)
    ensures var s := ScanTombstones(e, refs, effective, w);
            Failures(e, refs, effective, |w.calls|, s.world.calls[|w.calls|..], s.verdict)
  {
    var w1, s := Called(e, w), ScanTombstones(e, refs, effective, w);
    ScanStep(e, refs, effective, w);
    RefErrs(w1.cluster, refs[0], effective);
    assert MachineConfigRefs(refs) == [refs[0]] + MachineConfigRefs(refs[1..]);
    if !Fails(e, w) && RefCheck(w1.cluster, refs[0], effective) == Clear {
      var gets := ScanTombstones(e, refs[1..], effective, w1).world.calls[|w1.calls|..];
      FailsFirst(e, |w.calls|, |gets|, s.verdict);
      if s.verdict == CheckError {
        ErredLater(e, |w.calls|, refs[0], MachineConfigRefs(refs[1..]), Call(w1.cluster, w1.cluster), gets, effective);
      }
    }
  }

  lemma {:induction false} ScanFails(e: Env, refs: seq<Ref>, effective: Object, w: World)
    ensures var s := ScanTombstones(e, refs, effective, w);
            Failures(e, refs, effective, |w.calls|, s.world.calls[|w.calls|..], s.verdict)
    decreases |refs|
  {
    if refs != [] && !IsMachineConfigRef(refs[0]) {
      ScanFails(e, refs[1..], effective, w);
      assert MachineConfigRefs(refs) == MachineConfigRefs(refs[1..]);
    } else if refs != [] {
      ScanFails(e, refs[1..], effective, Called(e, w));
      ScanFailsFirst(e, refs, effective, w);
    }
  }

  lemma FailsFirst(e: Env, from: nat, n: nat, verdict: Check)
    requires !e.fails(from) && FailsLast(e, from + 1, n, verdict)
    ensures FailsLast(e, from, n + 1, verdict)
  {}

  lemma ErredLater(e: Env, from: nat, ref: Ref, refs: seq<Ref>, get: Call, gets: seq<Call>, effective: Object)
    requires LastErred(e, from + 1, refs, gets, effective)
    ensures LastErred(e, from, [ref] + refs, [get] + gets, effective)
  {
    assert ([ref] + refs)[|gets|] == refs[|gets| - 1] && ([get] + gets)[|gets|] == gets[|gets| - 1];
  }

  /** The calls of a failed check: the last one failed, or found something of the wrong type. */
  ghost predicate FoundError(e: Env, from: nat, gets: seq<Call>) {
    && gets != []
    && if |gets| == 1
       then e.fails(from) || (gets[0].found.config.Some? && EffectivePolicies(gets[0].found.config.value).Mismatch?)
       else
         && gets[0].found.config.Some? && EffectivePolicies(gets[0].found.config.value).Found?
         && LastErred(e, from + 1, MachineConfigRefs(e.tombstones), gets[1..],
                      EffectivePolicies(gets[0].found.config.value).value)
  }

  /** A check that decides made no failed call, and one that fails either made one or met something mistyped. */
  lemma CheckFails(e: Env, w: World)
    ensures var s := ScanCluster(e, w);
            var gets := s.world.calls[|w.calls|..];
            FailsLast(e, |w.calls|, |gets|, s.verdict) && (s.verdict == CheckError ==> FoundError(e, |w.calls|, gets))
  {
    var w1, n := Called(e, w), |w.calls|;
    assert w1.calls[n..] == [Call(w1.cluster, w1.cluster)];
    if !Fails(e, w) && w1.cluster.config.Some? && EffectivePolicies(w1.cluster.config.value).Found? {
      var effective := EffectivePolicies(w1.cluster.config.value).value;
      var s := ScanTombstones(e, e.tombstones, effective, w1);
      ScanFails(e, e.tombstones, effective, w1);
      ScanGrows(e, e.tombstones, effective, w1);
      assert s.world.calls[n..][0] == Call(w1.cluster, w1.cluster);
      assert s.world.calls[n..][1..] == s.world.calls[n + 1..];
      FailsFirst(e, n, |s.world.calls[n + 1..]|, s.verdict);
    }
  }

  // The calls and the log account for one another. ----------------------------------------------------------

  /** Each new call found what others made of what the one before it left. */
  ghost predicate Chained(e: Env, w: World, calls: seq<Call>) {
    forall n | |w.calls| <= n < |calls| :: Linked(e, w, calls, n)
  }

  predicate Linked(e: Env, w: World, calls: seq<Call>, n: nat)
    requires n < |calls|
  {
    calls[n].found == e.moves(n, LeftBefore(w, calls, n))
  }

  /** The cluster left before call n. */
  function LeftBefore(w: World, calls: seq<Call>, n: nat): Cluster
    requires n <= |calls|
  {
    if n <= |w.calls| then w.cluster else calls[n - 1].left
  }

  predicate Wrote(event: Event, n: nat) { !event.Checked? && !event.GenerationRead? && event.at == n }

  /** Every call that changed the cluster is that of an event. */
  ghost predicate Accounted(w: World, r: World) {
    forall n | |w.calls| <= n < |r.calls| :: r.calls[n].left == r.calls[n].found || HasWrite(r.log, |w.log|, n)
  }

  ghost predicate HasWrite(log: seq<Event>, start: nat, n: nat) { exists i :: start <= i < |log| && Wrote(log[i], n) }

  /** The calls of an event are where it says. */
  predicate Placed(calls: seq<Call>, event: Event) {
    match event
    case Checked(from, gets, _) => gets != [] && from + |gets| <= |calls| && calls[from..from + |gets|] == gets
    case PolicyApplied(at, read, write, _) => 0 < at < |calls| && calls[at - 1] == read && calls[at] == write
    case AssetsReconciled(at, write) => at < |calls| && calls[at] == write
    case GenerationRead(at, read, _) => at < |calls| && calls[at] == read
    case Deleted(at, _, read, write) => 0 < at < |calls| && calls[at - 1] == read && calls[at] == write
  }

  function First(event: Event): nat { if event.Checked? then event.from else event.at }

  function Last(event: Event): int { if event.Checked? then event.from + |event.gets| - 1 else event.at }

  /** New events are where they say, after the old calls and in the order of their calls. */
  ghost predicate Recorded(w: World, r: World) {
    && (forall i | |w.log| <= i < |r.log| :: Placed(r.calls, r.log[i]) && |w.calls| <= First(r.log[i]))
    && (forall i, j | |w.log| <= i < j < |r.log| :: Last(r.log[i]) < First(r.log[j]))
  }

  /** The trace from one world to a later one: nothing happens but what others do and what the log says. */
  ghost predicate Traced(e: Env, w: World, r: World) {
    && w.calls <= r.calls && w.log <= r.log
    && Chained(e, w, r.calls) && r.cluster == LeftBefore(w, r.calls, |r.calls|)
    && Accounted(w, r) && Recorded(w, r)
  }

  lemma TracedSame(e: Env, w: World)
    ensures Traced(e, w, w)
  {
  }

  lemma TracedThen(e: Env, w: World, m: World, r: World)
    requires Traced(e, w, m) && Traced(e, m, r)
    ensures Traced(e, w, r)
  {
    ChainedThen(e, w, m, r);
    AccountedThen(w, m, r);
    RecordedThen(w, m, r);
  }

  lemma ChainedThen(e: Env, w: World, m: World, r: World)
    requires w.calls <= m.calls <= r.calls
    requires m.cluster == LeftBefore(w, m.calls, |m.calls|) && r.cluster == LeftBefore(m, r.calls, |r.calls|)
    requires Chained(e, w, m.calls) && Chained(e, m, r.calls)
    ensures Chained(e, w, r.calls) && r.cluster == LeftBefore(w, r.calls, |r.calls|)
  {
    forall n | |w.calls| <= n < |r.calls| ensures Linked(e, w, r.calls, n) {
      SameBefore(w, m, r.calls, n);
      if n < |m.calls| {
        assert Linked(e, w, m.calls, n) && r.calls[n] == m.calls[n];
      } else {
        assert Linked(e, m, r.calls, n);
      }
    }
    SameBefore(w, m, r.calls, |r.calls|);
  }

  lemma SameBefore(w: World, m: World, calls: seq<Call>, n: nat)
    requires m.calls <= calls && |w.calls| <= n <= |calls| && |w.calls| <= |m.calls|
    ensures LeftBefore(w, calls, n) == if n <= |m.calls| then LeftBefore(w, m.calls, n) else LeftBefore(m, calls, n)
  {
    if |w.calls| < n <= |m.calls| { assert calls[n - 1] == m.calls[n - 1]; }
  }

  lemma AccountedThen(w: World, m: World, r: World)
    requires w.calls <= m.calls <= r.calls && w.log <= m.log <= r.log && Accounted(w, m) && Accounted(m, r)
    ensures Accounted(w, r)
  {
    forall n | |w.calls| <= n < |r.calls| && r.calls[n].left != r.calls[n].found ensures HasWrite(r.log, |w.log|, n) {
      if n < |m.calls| {
        assert r.calls[n] == m.calls[n] && HasWrite(m.log, |w.log|, n);
        var i :| |w.log| <= i < |m.log| && Wrote(m.log[i], n);
        assert Wrote(r.log[i], n);
      } else {
        assert HasWrite(r.log, |m.log|, n);
        var i :| |m.log| <= i < |r.log| && Wrote(r.log[i], n);
        assert |w.log| <= i;
      }
    }
  }

  lemma PlacedLater(calls: seq<Call>, longer: seq<Call>, event: Event)
    requires calls <= longer && Placed(calls, event)
    ensures Placed(longer, event) && Last(event) < |calls|
  {
    if event.Checked? {
      var from, n := event.from, |event.gets|;
      assert longer[from..from + n] == calls[from..from + n];
    }
  }

  lemma RecordedThen(w: World, m: World, r: World)
    requires w.calls <= m.calls <= r.calls && w.log <= m.log <= r.log && Recorded(w, m) && Recorded(m, r)
    ensures Recorded(w, r)
  {
    forall i | |w.log| <= i < |r.log| ensures Placed(r.calls, r.log[i]) && |w.calls| <= First(r.log[i]) {
      if i < |m.log| {
        assert r.log[i] == m.log[i];
        PlacedLater(m.calls, r.calls, m.log[i]);
      }
    }
    forall i, j | |w.log| <= i < j < |r.log| ensures Last(r.log[i]) < First(r.log[j]) {
      if i < |m.log| {
        assert r.log[i] == m.log[i];
        PlacedLater(m.calls, r.calls, m.log[i]);
        if j < |m.log| { assert r.log[j] == m.log[j]; }
      }
    }
  }

  /** A call that changes nothing, and what is logged of it. */
  lemma CallTraced(e: Env, w: World)
    ensures Traced(e, w, Called(e, w))
  {
  }

  lemma WriteTraced(e: Env, w: World, write: Call, event: Event)
    requires write.found == Finds(e, w) && Wrote(event, |w.calls|) && Placed(w.calls + [write], event)
    ensures Traced(e, w, Logged(Ended(w, write), event))
  {
    var r := Logged(Ended(w, write), event);
    assert Wrote(r.log[|w.log|], |w.calls|);
  }

  /** Logging calls that have been made since nothing was logged. */
  lemma LogTraced(e: Env, w: World, m: World, event: Event)
    requires Traced(e, w, m) && m.log == w.log && Placed(m.calls, event) && |w.calls| <= First(event)
    ensures Traced(e, w, Logged(m, event))
  {
    assert forall n: nat :: !HasWrite(m.log, |w.log|, n);
  }

  lemma {:induction false} ScanTraced(e: Env, refs: seq<Ref>, effective: Object, w: World)
    ensures Traced(e, w, ScanTombstones(e, refs, effective, w).world)
    decreases |refs|
  {
    if refs != [] {
      var w1 := Called(e, w);
      ScanTraced(e, refs[1..], effective, w);
      ScanTraced(e, refs[1..], effective, w1);
      CallTraced(e, w);
      TracedThen(e, w, w1, ScanTombstones(e, refs[1..], effective, w1).world);
    }
  }

  lemma ScanClusterTraced(e: Env, w: World)
    ensures var r := ScanCluster(e, w).world; Traced(e, w, r) && r.log == w.log && |w.calls| < |r.calls|
  {
    var w1 := Called(e, w);
    CallTraced(e, w);
    if w1.cluster.config.Some? && EffectivePolicies(w1.cluster.config.value).Found? {
      var effective := EffectivePolicies(w1.cluster.config.value).value;
      ScanTraced(e, e.tombstones, effective, w1);
      ScanGrows(e, e.tombstones, effective, w1);
      TracedThen(e, w, w1, ScanTombstones(e, e.tombstones, effective, w1).world);
    }
  }

  lemma CheckTraced(e: Env, w: World)
    ensures Traced(e, w, CheckTombstones(e, w).world)
  {
    var m := ScanCluster(e, w);
    ScanClusterTraced(e, w);
    var gets := m.world.calls[|w.calls|..];
    assert m.world.calls[|w.calls|..|w.calls| + |gets|] == gets;
    LogTraced(e, w, m.world, Checked(|w.calls|, gets, m.verdict));
  }

  lemma DeletionTraced(e: Env, ref: Ref, machineConfigs: bool, w: World)
    ensures Traced(e, w, DeleteTombstone(e, ref, machineConfigs, w))
  {
    var w1 := Called(e, w);
    var found := Finds(e, w1);
    var write := Call(found, found.(objects := found.objects - {ref}));
    var event := Deleted(|w1.calls|, ref, Call(w1.cluster, w1.cluster), write);
    CallTraced(e, w);
    CallTraced(e, w1);
    WriteTraced(e, w1, write, event);
    TracedThen(e, w, w1, Called(e, w1));
    TracedThen(e, w, w1, Logged(Ended(w1, write), event));
    TracedSame(e, w);
  }

  lemma {:induction false} DeletionsTraced(e: Env, refs: seq<Ref>, machineConfigs: bool, w: World)
    ensures Traced(e, w, DeleteTombstones(e, refs, machineConfigs, w))
    decreases |refs|
  {
    if refs != [] {
      var w1 := DeleteTombstone(e, refs[0], machineConfigs, w);
      DeletionTraced(e, refs[0], machineConfigs, w);
      DeletionsTraced(e, refs[1..], machineConfigs, w1);
      TracedThen(e, w, w1, DeleteTombstones(e, refs[1..], machineConfigs, w1));
    }
  }

  lemma AggregateTraced(e: Env, w: World, desired: Object, allowCreate: bool)
    ensures Traced(e, w, ApplyAggregate(e, w, desired, allowCreate).world)
  {
    CallTraced(e, w);
    PlanTraced(e, w, PlanFor(Called(e, w).cluster.config, desired, allowCreate));
  }

  lemma PlanTraced(e: Env, w: World, plan: Plan)
    ensures Traced(e, w, CarryOut(e, Called(e, w), plan).world)
  {
    var w1 := Called(e, w);
    CallTraced(e, w);
    if plan.Apply? {
      ConfigTraced(e, w1, plan.desired, plan.safe);
      TracedThen(e, w, w1, ApplyConfig(e, w1, plan.desired, plan.safe).world);
    }
  }

  lemma ConfigTraced(e: Env, w: World, desired: Object, safe: bool)
    requires w.calls != [] && w.calls[|w.calls| - 1] == Call(w.cluster, w.cluster)
    ensures Traced(e, w, ApplyConfig(e, w, desired, safe).world)
  {
    var write := Call(Finds(e, w), ServerApply(Finds(e, w), desired));
    CallTraced(e, w);
    WriteTraced(e, w, write, PolicyApplied(|w.calls|, Call(w.cluster, w.cluster), write, safe));
  }

  lemma PolicyTraced(e: Env, inp: Inputs, prune: bool, w: World)
    ensures Traced(e, w, ReconcilePolicy(e, inp, prune, w).world)
  {
    var a := Aggregated(inp.assets, inp.scope);
    TracedSame(e, w);
    if a.Some? { AggregateTraced(e, w, DesiredConfig(PolicyObject(a.value)), HasEntries(a.value) || prune); }
  }

  lemma AssetsTraced(e: Env, inp: Inputs, w: World)
    ensures Traced(e, w, AssetsStep(e, inp, w))
  {
    var write := Call(Finds(e, w), inp.reconcileAssets(Finds(e, w)));
    WriteTraced(e, w, write, AssetsReconciled(|w.calls|, write));
  }

  lemma GenerationTraced(e: Env, w: World)
    ensures Traced(e, w, ObserveGeneration(e, w).world)
  {
    var w1 := Called(e, w);
    CallTraced(e, w);
    LogTraced(e, w, w1, GenerationRead(|w.calls|, Call(w1.cluster, w1.cluster), true));
    LogTraced(e, w, w1, GenerationRead(|w.calls|, Call(w1.cluster, w1.cluster), false));
  }

  lemma BarrierTraced(e: Env, managed: bool, w: World)
    ensures Traced(e, w, Barrier(e, managed, w).world)
  {
    var o := ObserveGeneration(e, w);
    TracedSame(e, w);
    GenerationTraced(e, w);
    CheckTraced(e, o.world);
    TracedThen(e, w, o.world, CheckTombstones(e, o.world).world);
  }

  lemma FinishTraced(e: Env, blocked: bool, managed: bool, w: World)
    ensures Traced(e, w, Finished(e, blocked, managed, w))
  {
    var b := Barrier(e, managed, w);
    BarrierTraced(e, managed, w);
    DeletionsTraced(e, e.tombstones, true, w);
    DeletionsTraced(e, e.tombstones, true, b.world);
    TracedThen(e, w, b.world, DeleteTombstones(e, e.tombstones, true, b.world));
  }

  lemma AfterPolicyTraced(e: Env, inp: Inputs, blocked: bool, p: PolicyResult)
    ensures Traced(e, p.world, AfterPolicy(e, inp, blocked, p))
  {
    var w := AssetsStep(e, inp, p.world);
    TracedSame(e, p.world);
    AssetsTraced(e, inp, p.world);
    FinishTraced(e, blocked, p.managed, w);
    TracedThen(e, p.world, w, Finished(e, blocked, p.managed, w));
  }

  lemma CheckedTraced(e: Env, inp: Inputs, w: World, blocked: bool)
    ensures Traced(e, w, ReconcileChecked(e, inp, w, blocked))
  {
    var p := ReconcilePolicy(e, inp, blocked, w);
    PolicyTraced(e, inp, blocked, w);
    AfterPolicyTraced(e, inp, blocked, p);
    TracedThen(e, w, p.world, AfterPolicy(e, inp, blocked, p));
  }

  /** In every reconcile, whatever others do between its API calls: each call finds what they made of what the call
      before it left, every change of the operator's is that of an event, and the events name their calls, in order. */
  lemma ReconcileTraced(e: Env, inp: Inputs, w: World)
    ensures Traced(e, w, Reconciled(e, inp, w))
  {
    var w1 := DeleteTombstones(e, e.tombstones, false, w);
    var c := CheckTombstones(e, w1);
    TracedSame(e, w);
    DeletionsTraced(e, e.tombstones, false, w);
    CheckTraced(e, w1);
    TracedThen(e, w, w1, c.world);
    CheckedTraced(e, inp, c.world, c.verdict == Blocked);
    TracedThen(e, w, c.world, ReconcileChecked(e, inp, c.world, c.verdict == Blocked));
  }

  // What the events of every reconcile mean. ----------------------------------------------------------------

  /** The status reports a generation no older than that of the spec. */
  ghost predicate CaughtUp(config: Object) {
    exists n :: NestedInt(config, ["status", "observedGeneration"]) == Found(n) && Generation(config) <= n
  }

  /** A write that applies the desired singleton: in full where nothing overrides it, or else masked by the
      ignore-fields of the live one. */
  ghost predicate Applies(live: Option<Object>, write: Call, desired: Object, managed: bool) {
    && (live.Some? ==> !IsUnmanaged(live.value) && (managed <==> !IgnoresFields(live.value)))
    && (managed ==> write.left == ServerApply(write.found, desired))
    && (!managed ==> live.Some? && Masking.Mask(desired, live.value).Some?
                     && write.left == ServerApply(write.found, Masking.Mask(desired, live.value).value))
  }

  /** Neither the call of an event nor the one before it failed. */
  predicate Succeeded(e: Env, at: nat) { 0 < at && !e.fails(at - 1) && !e.fails(at) }

  /** What an event says of its calls; and that the inputs of the pass allow such an event: nothing is done unless the
      operator is enabled, nothing but deleting other kinds unless the golden config is in order, and nothing after
      the other assets unless they met no error. */
  ghost predicate Means(e: Env, inp: Inputs, event: Event) {
    && inp.enabled && (inp.prepared || IsDeletion(event, false))
    && match event
       case Checked(from, gets, verdict) =>
         && FailsLast(e, from, |gets|, verdict)
         && (verdict == Clear ==> FoundNone(e, gets)) && (verdict == Blocked ==> FoundSome(e, gets))
         && (verdict == CheckError ==> FoundError(e, from, gets))
       case PolicyApplied(at, read, write, managed) =>
         var a := Aggregated(inp.assets, inp.scope);
         && inp.policyAvailable && !inp.scope.excluded("MachineConfiguration", "", "cluster") && Succeeded(e, at)
         && a.Some? && Applies(read.found.config, write, DesiredConfig(PolicyObject(a.value)), managed)
       case AssetsReconciled(_, write) => write.left == inp.reconcileAssets(write.found)
       case GenerationRead(at, read, observed) =>
         && inp.assetsOk && !e.fails(at)
         && read.found.config.Some? && (observed <==> CaughtUp(read.found.config.value))
       case Deleted(at, ref, read, write) =>
         && (IsMachineConfigRef(ref) ==> inp.assetsOk) && Succeeded(e, at)
         && ref in e.tombstones && Carries(read.found, ref) && ref in write.found.objects
         && write.left == write.found.(objects := write.found.objects - {ref})
  }

  /** A longer log whose new events are all true to their meaning. */
  ghost predicate Adds(e: Env, inp: Inputs, log: seq<Event>, longer: seq<Event>) {
    log <= longer && forall i | |log| <= i < |longer| :: Means(e, inp, longer[i])
  }

  lemma AddsOne(e: Env, inp: Inputs, log: seq<Event>, event: Event)
    requires Means(e, inp, event)
    ensures Adds(e, inp, log, log + [event])
  {
    assert forall i | |log| <= i < |log + [event]| :: (log + [event])[i] == event;
  }

  lemma AddsThen(e: Env, inp: Inputs, log: seq<Event>, mid: seq<Event>, longer: seq<Event>)
    requires Adds(e, inp, log, mid) && Adds(e, inp, mid, longer)
    ensures Adds(e, inp, log, longer)
  {
    forall i | |log| <= i < |longer| ensures Means(e, inp, longer[i]) {
      if i < |mid| { assert longer[i] == mid[i]; }
    }
  }

  lemma CheckMeans(e: Env, inp: Inputs, w: World)
    requires inp.enabled && inp.prepared
    ensures Adds(e, inp, w.log, CheckTombstones(e, w).world.log)
  {
    var s := ScanCluster(e, w);
    ScanMeans(e, w);
    CheckFails(e, w);
    ScanClusterTraced(e, w);
    AddsOne(e, inp, w.log, Checked(|w.calls|, s.world.calls[|w.calls|..], s.verdict));
  }

  /** The pass gets to deleting this kind of tombstone. */
  predicate MayDelete(inp: Inputs, machineConfigs: bool) {
    inp.enabled && (machineConfigs ==> inp.prepared && inp.assetsOk)
  }

  lemma DeletionMeans(e: Env, inp: Inputs, ref: Ref, machineConfigs: bool, w: World)
    requires MayDelete(inp, machineConfigs) && ref in e.tombstones
    ensures Adds(e, inp, w.log, DeleteTombstone(e, ref, machineConfigs, w).log)
  {
    var w1 := Called(e, w);
    var found := Finds(e, w1);
    var event := Deleted(|w1.calls|, ref, Call(w1.cluster, w1.cluster),
      Call(found, found.(objects := found.objects - {ref})));
    if DeleteTombstone(e, ref, machineConfigs, w).log != w.log { AddsOne(e, inp, w.log, event); }
  }

  lemma {:induction false} DeletionsMean(e: Env, inp: Inputs, refs: seq<Ref>, machineConfigs: bool, w: World)
    requires MayDelete(inp, machineConfigs)
    requires forall ref <- refs :: ref in e.tombstones
    ensures Adds(e, inp, w.log, DeleteTombstones(e, refs, machineConfigs, w).log)
    decreases |refs|
  {
    if refs != [] {
      var w1 := DeleteTombstone(e, refs[0], machineConfigs, w);
      DeletionMeans(e, inp, refs[0], machineConfigs, w);
      DeletionsMean(e, inp, refs[1..], machineConfigs, w1);
      AddsThen(e, inp, w.log, w1.log, DeleteTombstones(e, refs[1..], machineConfigs, w1).log);
    }
  }

  /** What a plan applies is the desired singleton, masked or not. */
  lemma PlanApplies(live: Option<Object>, desired: Object, allowCreate: bool, write: Call)
    requires var plan := PlanFor(live, desired, allowCreate);
             plan.Apply? && write.left == ServerApply(write.found, plan.desired)
    ensures Applies(live, write, desired, PlanFor(live, desired, allowCreate).safe)
  {
    if live.Some? && !IgnoresFields(live.value) { assert Masking.Mask(desired, live.value) == Some(desired); }
  }

  /** Carrying out a plan is at most one event. */
  lemma PlanEvents(e: Env, w: World, plan: Plan)
    ensures var p := CarryOut(e, w, plan);
            if p.world.log == w.log then !p.managed
            else
              && plan.Apply? && p.managed == plan.safe && !Fails(e, w)
              && var write := Call(Finds(e, w), ServerApply(Finds(e, w), plan.desired));
                 p.world.log == w.log + [PolicyApplied(|w.calls|, Call(w.cluster, w.cluster), write, plan.safe)]
  {
  }

  /** Reconciling the policy is at most one apply, and it is managed only after one. */
  ghost predicate AppliesAtMost(log: seq<Event>, p: PolicyResult) {
    if p.world.log == log then !p.managed
    else
      && log < p.world.log && |p.world.log| == |log| + 1
      && p.world.log[|log|].PolicyApplied? && p.world.log[|log|].managed == p.managed
  }

  lemma AggregateMeans(e: Env, inp: Inputs, w: World, a: Aggregate, desired: Object, allowCreate: bool)
    requires inp.enabled && inp.prepared && inp.policyAvailable && !Excludes(inp.scope)
    requires Aggregated(inp.assets, inp.scope) == Some(a) && desired == DesiredConfig(PolicyObject(a))
    ensures var p := ApplyAggregate(e, w, desired, allowCreate);
            Adds(e, inp, w.log, p.world.log) && AppliesAtMost(w.log, p)
  {
    var w1, p := Called(e, w), ApplyAggregate(e, w, desired, allowCreate);
    var plan := PlanFor(w1.cluster.config, desired, allowCreate);
    PlanEvents(e, w1, plan);
    if p.world.log != w.log {
      var write := Call(Finds(e, w1), ServerApply(Finds(e, w1), plan.desired));
      var event := PolicyApplied(|w1.calls|, Call(w1.cluster, w1.cluster), write, plan.safe);
      PlanApplies(w1.cluster.config, desired, allowCreate, write);
      ApplyMeans(e, inp, event, a);
      AddsOne(e, inp, w.log, event);
    }
  }

  predicate Excludes(scope: Scope) { scope.excluded("MachineConfiguration", "", "cluster") }

  lemma PolicyEvents(e: Env, inp: Inputs, prune: bool, w: World)
    ensures AppliesAtMost(w.log, ReconcilePolicy(e, inp, prune, w))
  {
    var a, w1 := Aggregated(inp.assets, inp.scope), Called(e, w);
    if a.Some? {
      PlanEvents(e, w1, PlanFor(w1.cluster.config, DesiredConfig(PolicyObject(a.value)), HasEntries(a.value) || prune));
    }
  }

  lemma PolicyMeans(e: Env, inp: Inputs, prune: bool, w: World)
    requires inp.enabled && inp.prepared
    ensures var p := ReconcilePolicy(e, inp, prune, w); Adds(e, inp, w.log, p.world.log) && AppliesAtMost(w.log, p)
  {
    var a := Aggregated(inp.assets, inp.scope);
    if inp.policyAvailable && !Excludes(inp.scope) && a.Some? {
      AggregateMeans(e, inp, w, a.value, DesiredConfig(PolicyObject(a.value)), HasEntries(a.value) || prune);
    }
  }

  lemma ApplyMeans(e: Env, inp: Inputs, event: Event, a: Aggregate)
    requires inp.enabled && inp.prepared && inp.policyAvailable && !Excludes(inp.scope)
    requires Aggregated(inp.assets, inp.scope) == Some(a) && event.PolicyApplied? && Succeeded(e, event.at)
    requires Applies(event.read.found.config, event.write, DesiredConfig(PolicyObject(a)), event.managed)
    ensures Means(e, inp, event)
  {
  }

  lemma AssetsMean(e: Env, inp: Inputs, w: World)
    requires inp.enabled && inp.prepared
    ensures Adds(e, inp, w.log, AssetsStep(e, inp, w).log)
  {
    AddsOne(e, inp, w.log, AssetsReconciled(|w.calls|, Call(Finds(e, w), inp.reconcileAssets(Finds(e, w)))));
  }

  lemma GenerationMeans(e: Env, inp: Inputs, w: World)
    requires inp.enabled && inp.prepared && inp.assetsOk
    ensures Adds(e, inp, w.log, ObserveGeneration(e, w).world.log)
  {
    var o, c := ObserveGeneration(e, w), Finds(e, w);
    if o.world.log != w.log { AddsOne(e, inp, w.log, GenerationRead(|w.calls|, Call(c, c), o.observed)); }
  }

  lemma BarrierMeans(e: Env, inp: Inputs, managed: bool, w: World)
    requires inp.enabled && inp.prepared && inp.assetsOk
    ensures Adds(e, inp, w.log, Barrier(e, managed, w).world.log)
  {
    var o := ObserveGeneration(e, w);
    GenerationMeans(e, inp, w);
    CheckMeans(e, inp, o.world);
    AddsThen(e, inp, w.log, o.world.log, CheckTombstones(e, o.world).world.log);
  }

  lemma FinishMeans(e: Env, inp: Inputs, blocked: bool, managed: bool, w: World)
    requires inp.enabled && inp.prepared && inp.assetsOk
    ensures Adds(e, inp, w.log, Finished(e, blocked, managed, w).log)
  {
    var b := Barrier(e, managed, w);
    BarrierMeans(e, inp, managed, w);
    DeletionsMean(e, inp, e.tombstones, true, w);
    DeletionsMean(e, inp, e.tombstones, true, b.world);
    AddsThen(e, inp, w.log, b.world.log, DeleteTombstones(e, e.tombstones, true, b.world).log);
  }

  lemma AfterPolicyMeans(e: Env, inp: Inputs, blocked: bool, p: PolicyResult)
    requires inp.enabled && inp.prepared
    ensures Adds(e, inp, p.world.log, AfterPolicy(e, inp, blocked, p).log)
  {
    var w := AssetsStep(e, inp, p.world);
    AssetsMean(e, inp, p.world);
    if inp.assetsOk {
      FinishMeans(e, inp, blocked, p.managed, w);
      AddsThen(e, inp, p.world.log, w.log, Finished(e, blocked, p.managed, w).log);
    }
  }

  lemma CheckedMeans(e: Env, inp: Inputs, w: World, blocked: bool)
    requires inp.enabled && inp.prepared
    ensures Adds(e, inp, w.log, ReconcileChecked(e, inp, w, blocked).log)
  {
    var p := ReconcilePolicy(e, inp, blocked, w);
    PolicyMeans(e, inp, blocked, w);
    AfterPolicyMeans(e, inp, blocked, p);
    AddsThen(e, inp, w.log, p.world.log, AfterPolicy(e, inp, blocked, p).log);
  }

  /** Every event of a reconcile means what it says of its calls, whatever others do between the calls and whichever
      of them fail. */
  lemma ReconcileMeans(e: Env, inp: Inputs, w: World)
    ensures Adds(e, inp, w.log, Reconciled(e, inp, w).log)
  {
    var w1 := DeleteTombstones(e, e.tombstones, false, w);
    var c := CheckTombstones(e, w1);
    if inp.enabled {
      DeletionsMean(e, inp, e.tombstones, false, w);
      if inp.prepared {
        CheckMeans(e, inp, w1);
        AddsThen(e, inp, w.log, w1.log, c.world.log);
        CheckedMeans(e, inp, c.world, c.verdict == Blocked);
        AddsThen(e, inp, w.log, c.world.log, ReconcileChecked(e, inp, c.world, c.verdict == Blocked).log);
      }
    }
  }

  // In which order. -----------------------------------------------------------------------------------------

  ghost predicate IsDeletion(event: Event, machineConfigs: bool) {
    event.Deleted? && machineConfigs ==
      (event.ref.group == "machineconfiguration.openshift.io" && event.ref.kind == "MachineConfig")
  }

  /** Events that delete a kind of tombstone, and do nothing else. */
  ghost predicate OnlyDeletions(log: seq<Event>, longer: seq<Event>, machineConfigs: bool) {
    log <= longer && forall i | |log| <= i < |longer| :: IsDeletion(longer[i], machineConfigs)
  }

  lemma {:induction false} DeletionsOnly(e: Env, refs: seq<Ref>, machineConfigs: bool, w: World)
    ensures OnlyDeletions(w.log, DeleteTombstones(e, refs, machineConfigs, w).log, machineConfigs)
    decreases |refs|
  {
    if refs != [] { DeletionsOnly(e, refs[1..], machineConfigs, DeleteTombstone(e, refs[0], machineConfigs, w)); }
  }

  /** Event c is the last check before event i. */
  ghost predicate LastCheck(log: seq<Event>, c: nat, i: nat) {
    c < i <= |log| && log[c].Checked? && forall j | c < j < i :: !log[j].Checked?
  }

  /** Event lo is the first check from event start on. */
  ghost predicate FirstCheck(log: seq<Event>, start: nat, lo: nat) {
    start <= lo < |log| && log[lo].Checked? && forall j | start <= j < lo :: !log[j].Checked?
  }

  /** The check at lo blocked; then the aggregate was applied to a managed singleton, the other assets were
      reconciled, the generation read was observed, and the re-check at c came out clear. */
  ghost predicate Rechecked(log: seq<Event>, lo: nat, c: nat) {
    && c == lo + 4 < |log| && log[lo].Checked? && log[lo].verdict == Blocked
    && log[lo + 1].PolicyApplied? && log[lo + 1].managed && log[lo + 2].AssetsReconciled?
    && log[lo + 3].GenerationRead? && log[lo + 3].observed && log[c].Checked? && log[c].verdict == Clear
  }

  /** The last check before event i is clear, and is the first check or a re-check. */
  ghost predicate ClearedBy(log: seq<Event>, lo: nat, c: nat, i: nat) {
    LastCheck(log, c, i) && log[c].verdict == Clear && (c == lo || Rechecked(log, lo, c))
  }

  /** A deletion at event i, in a reconcile that starts at event start: the last check before it was clear, and
      was either the first check or a re-check. */
  ghost predicate InOrder(log: seq<Event>, start: nat, i: nat) {
    exists lo: nat, c: nat :: FirstCheck(log, start, lo) && ClearedBy(log, lo, c, i)
  }

  ghost predicate Ordered(log: seq<Event>, longer: seq<Event>) {
    && log <= longer
    && forall i | |log| <= i < |longer| && IsDeletion(longer[i], true) :: InOrder(longer, |log|, i)
  }

  lemma BarrierEvents(e: Env, w: World)
    ensures var b, n := Barrier(e, true, w), |w.log|;
            && w.log <= b.world.log && (forall j | n <= j < |b.world.log| :: !b.world.log[j].Deleted?)
            && (b.observed ==>
                  && |b.world.log| == n + 2 && b.world.log[n].GenerationRead? && b.world.log[n].observed
                  && b.world.log[n + 1].Checked? && b.world.log[n + 1].verdict == Clear)
  {
    ScanClusterTraced(e, ObserveGeneration(e, w).world);
  }

  /** Deletions that follow a clear check at event c, the first check at lo or a re-check. */
  lemma InOrderAfter(log: seq<Event>, longer: seq<Event>, start: nat, lo: nat, c: nat, i: nat)
    requires OnlyDeletions(log, longer, true) && |log| <= i < |longer|
    requires FirstCheck(log, start, lo) && ClearedBy(log, lo, c, |log|)
    ensures InOrder(longer, start, i)
  {
    assert forall j | 0 <= j < |log| :: longer[j] == log[j];
    assert FirstCheck(longer, start, lo) && ClearedBy(longer, lo, c, i);
  }

  /** The events of a reconcile from its first check, at lo, up to the barrier. */
  ghost predicate BeforeBarrier(log: seq<Event>, start: nat, lo: nat, blocked: bool, managed: bool) {
    && FirstCheck(log, start, lo) && log[lo].verdict == (if blocked then Blocked else Clear)
    && lo + 1 < |log| <= lo + 3 && log[|log| - 1].AssetsReconciled?
    && (|log| == lo + 3 ==> log[lo + 1].PolicyApplied? && log[lo + 1].managed == managed)
    && (|log| == lo + 2 ==> !managed)
  }

  /** Unblocked, a reconcile may delete at once; blocked, only behind the barrier. */
  lemma FinishInOrder(e: Env, w: World, start: nat, lo: nat, blocked: bool, managed: bool, i: nat)
    requires BeforeBarrier(w.log, start, lo, blocked, managed)
    ensures var r := Finished(e, blocked, managed, w);
            w.log <= r.log && (|w.log| <= i < |r.log| && r.log[i].Deleted? ==> InOrder(r.log, start, i))
  {
    if !blocked {
      var r := DeleteTombstones(e, e.tombstones, true, w);
      DeletionsOnly(e, e.tombstones, true, w);
      if |w.log| <= i < |r.log| { InOrderAfter(w.log, r.log, start, lo, lo, i); }
    } else if managed {
      BarrierEvents(e, w);
      var b := Barrier(e, true, w);
      if b.observed {
        var r := DeleteTombstones(e, e.tombstones, true, b.world);
        DeletionsOnly(e, e.tombstones, true, b.world);
        assert forall j | 0 <= j < |w.log| :: b.world.log[j] == w.log[j];
        if |b.world.log| <= i < |r.log| { InOrderAfter(b.world.log, r.log, start, lo, lo + 4, i); }
      }
    }
  }

  lemma PolicyInOrder(e: Env, inp: Inputs, w: World, start: nat, blocked: bool, p: PolicyResult, i: nat)
    requires 0 < |w.log| && FirstCheck(w.log, start, |w.log| - 1)
    requires w.log[|w.log| - 1].verdict == (if blocked then Blocked else Clear)
    requires AppliesAtMost(w.log, p)
    ensures var r := AfterPolicy(e, inp, blocked, p);
            w.log <= r.log && (|w.log| <= i < |r.log| && r.log[i].Deleted? ==> InOrder(r.log, start, i))
  {
    var a := AssetsStep(e, inp, p.world);
    assert forall j | 0 <= j < |w.log| :: a.log[j] == w.log[j];
    assert BeforeBarrier(a.log, start, |w.log| - 1, blocked, p.managed);
    FinishInOrder(e, a, start, |w.log| - 1, blocked, p.managed, i);
    if !p.error && inp.assetsOk {
      var r := Finished(e, blocked, p.managed, a);
      assert forall j | 0 <= j < |a.log| :: r.log[j] == a.log[j];
    }
  }

  lemma CheckedInOrder(e: Env, inp: Inputs, w: World, start: nat, blocked: bool, i: nat)
    requires 0 < |w.log| && FirstCheck(w.log, start, |w.log| - 1)
    requires w.log[|w.log| - 1].verdict == (if blocked then Blocked else Clear)
    ensures var r := ReconcileChecked(e, inp, w, blocked);
            w.log <= r.log && (|w.log| <= i < |r.log| && r.log[i].Deleted? ==> InOrder(r.log, start, i))
  {
    PolicyEvents(e, inp, blocked, w);
    PolicyInOrder(e, inp, w, start, blocked, ReconcilePolicy(e, inp, blocked, w), i);
  }

  lemma ReconcileInOrder(e: Env, inp: Inputs, w: World)
    ensures Ordered(w.log, Reconciled(e, inp, w).log)
  {
    var r := Reconciled(e, inp, w);
    var w1 := DeleteTombstones(e, e.tombstones, false, w);
    DeletionsOnly(e, e.tombstones, false, w);
    var c := CheckTombstones(e, w1);
    ScanClusterTraced(e, w1);
    if inp.enabled && inp.prepared && c.verdict != CheckError {
      assert FirstCheck(c.world.log, |w.log|, |w1.log|);
      CheckedInOrder(e, inp, c.world, |w.log|, c.verdict == Blocked, 0);
      assert forall j | 0 <= j < |c.world.log| :: r.log[j] == c.world.log[j];
      forall i | |w.log| <= i < |r.log| && IsDeletion(r.log[i], true) ensures InOrder(r.log, |w.log|, i) {
        CheckedInOrder(e, inp, c.world, |w.log|, c.verdict == Blocked, i);
      }
    }
  }

  // What prompts an apply of the policy and the reconciliation of the other assets. ------------------------

  /** The aggregate has entries, or the first check blocked, or the live singleton is the operator's own. */
  ghost predicate CalledFor(inp: Inputs, live: Option<Object>, blocked: bool) {
    var a := Aggregated(inp.assets, inp.scope);
    a.Some? && (HasEntries(a.value) || blocked || (live.Some? && Labelled(live.value)))
  }

  /** Between the first check, at event lo, and event i: no call where the policy is not available or the singleton is
      excluded; one read that found nothing to apply to; or one read and one apply. */
  ghost predicate PolicyPhase(e: Env, inp: Inputs, w: World, lo: nat, i: nat)
    requires lo < i < |w.log| && w.log[lo].Checked? && w.log[i].AssetsReconciled?
  {
    var first, at := Last(w.log[lo]) + 1, w.log[i].at;
    || (at == first && i == lo + 1 && (!inp.policyAvailable || Excludes(inp.scope)))
    || (&& at == first + 1 && i == lo + 1 && 0 <= first < |w.calls| && !e.fails(first)
        && Aggregated(inp.assets, inp.scope).Some?
        && var live := w.calls[first].found.config;
           (live.Some? && IsUnmanaged(live.value)) || !CalledFor(inp, live, w.log[lo].verdict == Blocked))
    || (at == first + 2 && i == lo + 2 && w.log[lo + 1].PolicyApplied? && w.log[lo + 1].at == first + 1)
  }

  /** Event i is prompted by the first check from event start on. */
  ghost predicate PromptedBy(e: Env, inp: Inputs, w: World, start: nat, lo: nat, i: nat)
    requires i < |w.log|
  {
    && lo < i && FirstCheck(w.log, start, lo) && w.log[lo].verdict != CheckError
    && match w.log[i]
       case PolicyApplied(at, read, _, _) =>
         i == lo + 1 && at == Last(w.log[lo]) + 2 && CalledFor(inp, read.found.config, w.log[lo].verdict == Blocked)
       case AssetsReconciled(_, _) => PolicyPhase(e, inp, w, lo, i)
       case _ => true
  }

  ghost predicate Prompted(e: Env, inp: Inputs, w: World, start: nat, i: nat)
    requires i < |w.log|
  {
    w.log[i].PolicyApplied? || w.log[i].AssetsReconciled? ==> exists lo: nat :: PromptedBy(e, inp, w, start, lo, i)
  }

  lemma PromptedLater(e: Env, inp: Inputs, w: World, later: World, start: nat, i: nat)
    requires w.calls <= later.calls && w.log <= later.log && i < |w.log| && Prompted(e, inp, w, start, i)
    ensures Prompted(e, inp, later, start, i)
  {
    assert forall j | 0 <= j < |w.log| :: later.log[j] == w.log[j];
    if w.log[i].PolicyApplied? || w.log[i].AssetsReconciled? {
      var lo: nat :| PromptedBy(e, inp, w, start, lo, i);
      assert PromptedBy(e, inp, later, start, lo, i);
    }
  }

  /** What reconciling the policy after a check amounts to. */
  ghost predicate PolicyStep(e: Env, inp: Inputs, w: World, blocked: bool, p: PolicyResult) {
    var n, a := |w.calls|, Aggregated(inp.assets, inp.scope);
    if p.world.log == w.log
    then p.error
         || (p.world.calls == w.calls && (!inp.policyAvailable || Excludes(inp.scope)))
         || (&& |p.world.calls| == n + 1 && !e.fails(n) && a.Some?
             && var live := p.world.calls[n].found.config;
                (live.Some? && IsUnmanaged(live.value)) || !CalledFor(inp, live, blocked))
    else && |p.world.log| == |w.log| + 1 && |p.world.calls| == n + 2
         && p.world.log[|w.log|].PolicyApplied? && p.world.log[|w.log|].at == n + 1
         && CalledFor(inp, p.world.log[|w.log|].read.found.config, blocked)
  }

  lemma PlanPrompted(live: Option<Object>, desired: Object, allowCreate: bool)
    ensures var plan := PlanFor(live, desired, allowCreate);
            && (plan.Apply? ==> allowCreate || (live.Some? && Labelled(live.value)))
            && (plan.Leave? ==>
                  || (live.Some? && IsUnmanaged(live.value))
                  || !(allowCreate || (live.Some? && Labelled(live.value))))
  {}

  lemma PolicySteps(e: Env, inp: Inputs, w: World, blocked: bool)
    ensures PolicyStep(e, inp, w, blocked, ReconcilePolicy(e, inp, blocked, w))
  {
    var a, w1 := Aggregated(inp.assets, inp.scope), Called(e, w);
    if a.Some? {
      var desired, allowCreate := DesiredConfig(PolicyObject(a.value)), HasEntries(a.value) || blocked;
      PlanPrompted(w1.cluster.config, desired, allowCreate);
      PlanEvents(e, w1, PlanFor(w1.cluster.config, desired, allowCreate));
    }
  }

  lemma FinishEvents(e: Env, blocked: bool, managed: bool, w: World)
    ensures var r := Finished(e, blocked, managed, w);
            && w.log <= r.log
            && forall j | |w.log| <= j < |r.log| :: !r.log[j].PolicyApplied? && !r.log[j].AssetsReconciled?
  {
    if !blocked {
      DeletionsOnly(e, e.tombstones, true, w);
    } else if managed {
      var b := Barrier(e, true, w);
      ScanClusterTraced(e, ObserveGeneration(e, w).world);
      DeletionsOnly(e, e.tombstones, true, b.world);
    }
  }

  /** The world after a first check that decided. */
  ghost predicate JustChecked(w: World, start: nat, blocked: bool) {
    && 0 < |w.log| && FirstCheck(w.log, start, |w.log| - 1) && Last(w.log[|w.log| - 1]) == |w.calls| - 1
    && w.log[|w.log| - 1].verdict == (if blocked then Blocked else Clear)
  }

  lemma AssetsPrompted(e: Env, inp: Inputs, w: World, start: nat, blocked: bool, p: PolicyResult, i: nat)
    requires JustChecked(w, start, blocked) && PolicyStep(e, inp, w, blocked, p)
    requires w.calls <= p.world.calls && w.log <= p.world.log
    ensures |w.log| <= i < |p.world.log| ==> Prompted(e, inp, p.world, start, i)
    ensures var a := AssetsStep(e, inp, p.world);
            !p.error && |w.log| <= i < |a.log| ==> Prompted(e, inp, a, start, i)
  {
    var lo, a := |w.log| - 1, AssetsStep(e, inp, p.world);
    assert forall j | 0 <= j < |w.log| :: p.world.log[j] == w.log[j] == a.log[j];
    assert FirstCheck(p.world.log, start, lo) && FirstCheck(a.log, start, lo);
    if i == |w.log| < |p.world.log| {
      assert PromptedBy(e, inp, p.world, start, lo, i);
      PromptedLater(e, inp, p.world, a, start, i);
    } else if !p.error && i == |p.world.log| {
      assert PromptedBy(e, inp, a, start, lo, i);
    }
  }

  lemma AfterPolicyPrompted(e: Env, inp: Inputs, w: World, start: nat, blocked: bool, p: PolicyResult, i: nat)
    requires JustChecked(w, start, blocked) && PolicyStep(e, inp, w, blocked, p)
    requires w.calls <= p.world.calls && w.log <= p.world.log
    ensures var r := AfterPolicy(e, inp, blocked, p); |w.log| <= i < |r.log| ==> Prompted(e, inp, r, start, i)
  {
    AssetsPrompted(e, inp, w, start, blocked, p, i);
    if !p.error && inp.assetsOk {
      var a := AssetsStep(e, inp, p.world);
      FinishEvents(e, blocked, p.managed, a);
      FinishTraced(e, blocked, p.managed, a);
      if |w.log| <= i < |a.log| { PromptedLater(e, inp, a, Finished(e, blocked, p.managed, a), start, i); }
    }
  }

  /** The policy is applied, and the other assets are reconciled, only after a first check that decided, and only as the
      inputs of the pass and the live singleton call for it. */
  lemma ReconcilePrompted(e: Env, inp: Inputs, w: World, i: nat)
    ensures var r := Reconciled(e, inp, w); |w.log| <= i < |r.log| ==> Prompted(e, inp, r, |w.log|, i)
  {
    var w1, r := DeleteTombstones(e, e.tombstones, false, w), Reconciled(e, inp, w);
    var c := CheckTombstones(e, w1);
    DeletionsOnly(e, e.tombstones, false, w);
    ScanClusterTraced(e, w1);
    if inp.enabled && inp.prepared && c.verdict != CheckError {
      var blocked := c.verdict == Blocked;
      var p := ReconcilePolicy(e, inp, blocked, c.world);
      assert FirstCheck(c.world.log, |w.log|, |w1.log|) && JustChecked(c.world, |w.log|, blocked);
      PolicySteps(e, inp, c.world, blocked);
      PolicyTraced(e, inp, blocked, c.world);
      AfterPolicyPrompted(e, inp, c.world, |w.log|, blocked, p, i);
      AfterPolicyTraced(e, inp, blocked, p);
      if |w.log| <= i < |c.world.log| { assert r.log[i] == c.world.log[i]; }
    }
  }

  // Every reconcile and every run. --------------------------------------------------------------------------

  /** Event i, in a reconcile that starts at event start, deletes a labelled tombstone after a last check that
      found no effective entry for any live, labelled tombstoned MachineConfig when it read it; and if the first check
      had found one, after the aggregate was applied without ignore-fields and the generation read was observed. All
      of this happened in the calls of the trace, in this order. */
  ghost predicate SafeDeletion(e: Env, inp: Inputs, w: World, start: nat, i: nat) {
    && start <= i < |w.log| && InOrder(w.log, start, i)
    && (forall j | start <= j <= i :: Means(e, inp, w.log[j]))
    && PlacedInOrder(w, start, i)
  }

  ghost predicate PlacedInOrder(w: World, start: nat, i: nat)
    requires i < |w.log|
  {
    && (forall j | start <= j <= i :: Placed(w.calls, w.log[j]))
    && (forall j, k | start <= j < k <= i :: Last(w.log[j]) < First(w.log[k]))
  }

  lemma InOrderLater(log: seq<Event>, longer: seq<Event>, start: nat, i: nat)
    requires log <= longer && i < |log| && InOrder(log, start, i)
    ensures InOrder(longer, start, i)
  {
    assert forall j | 0 <= j < |log| :: longer[j] == log[j];
    var lo: nat, c: nat :| FirstCheck(log, start, lo) && ClearedBy(log, lo, c, i);
    assert FirstCheck(longer, start, lo) && ClearedBy(longer, lo, c, i);
  }

  lemma PlacedInOrderLater(w: World, later: World, start: nat, i: nat)
    requires w.calls <= later.calls && w.log <= later.log && i < |w.log| && PlacedInOrder(w, start, i)
    ensures PlacedInOrder(later, start, i)
  {
    forall j | start <= j <= i ensures later.log[j] == w.log[j] && Placed(later.calls, later.log[j]) {
      PlacedLater(w.calls, later.calls, w.log[j]);
    }
  }

  lemma SafeLater(e: Env, inp: Inputs, w: World, later: World, start: nat, i: nat)
    requires w.calls <= later.calls && w.log <= later.log && SafeDeletion(e, inp, w, start, i)
    ensures SafeDeletion(e, inp, later, start, i)
  {
    InOrderLater(w.log, later.log, start, i);
    PlacedInOrderLater(w, later, start, i);
    forall j | start <= j <= i ensures Means(e, inp, later.log[j]) {
      assert later.log[j] == w.log[j];
    }
  }

  /** Event i, in a reconcile that starts at event start, means what it says, was prompted, and is a safe deletion if
      it deletes a MachineConfig. */
  ghost predicate Lawful(e: Env, inp: Inputs, w: World, start: nat, i: nat) {
    && start <= i < |w.log| && Means(e, inp, w.log[i]) && Prompted(e, inp, w, start, i)
    && (IsDeletion(w.log[i], true) ==> SafeDeletion(e, inp, w, start, i))
  }

  lemma LawfulLater(e: Env, inp: Inputs, w: World, later: World, start: nat, i: nat)
    requires w.calls <= later.calls && w.log <= later.log && Lawful(e, inp, w, start, i)
    ensures Lawful(e, inp, later, start, i)
  {
    assert later.log[i] == w.log[i];
    PromptedLater(e, inp, w, later, start, i);
    if IsDeletion(w.log[i], true) { SafeLater(e, inp, w, later, start, i); }
  }

  /** Whatever others do between the API calls of a reconcile and whichever of these fail: a pass of a disabled operator
      does nothing at all, and every event of any other is lawful. */
  lemma ReconcileIsSafe(e: Env, inp: Inputs, w: World, r: World)
    requires r == Reconciled(e, inp, w)
    ensures Traced(e, w, r) && (!inp.enabled ==> r == w)
    ensures forall i | |w.log| <= i < |r.log| :: Lawful(e, inp, r, |w.log|, i)
  {
    ReconcileTraced(e, inp, w);
    ReconcileMeans(e, inp, w);
    ReconcileInOrder(e, inp, w);
    SafeFromParts(e, inp, w, r);
    forall i | |w.log| <= i < |r.log| ensures Lawful(e, inp, r, |w.log|, i) {
      ReconcilePrompted(e, inp, w, i);
    }
  }

  lemma SafeFromParts(e: Env, inp: Inputs, w: World, r: World)
    requires Recorded(w, r) && Adds(e, inp, w.log, r.log) && Ordered(w.log, r.log)
    ensures forall i | |w.log| <= i < |r.log| && IsDeletion(r.log[i], true) :: SafeDeletion(e, inp, r, |w.log|, i)
  {
    forall i | |w.log| <= i < |r.log| && IsDeletion(r.log[i], true) ensures SafeDeletion(e, inp, r, |w.log|, i) {
      assert InOrder(r.log, |w.log|, i);
      assert PlacedInOrder(r, |w.log|, i);
    }
  }

  /** Event i of the world r is lawful in the reconcile that led from one world to another. */
  ghost predicate LawfulWithin(e: Env, inp: Inputs, r: World, from: World, to: World, i: nat) {
    |from.log| <= i < |to.log| && Lawful(e, inp, r, |from.log|, i)
  }

  /** What one reconcile keeps to. */
  ghost predicate SafeStep(e: Env, inp: Inputs, w: World, r: World) {
    Traced(e, w, r) && forall i | |w.log| <= i < |r.log| :: LawfulWithin(e, inp, r, w, r, i)
  }

  lemma {:induction false} StepsAreSafe(e: Env, passes: seq<Inputs>, worlds: seq<World>, i: nat)
    requires |worlds| == |passes| + 1
    requires forall n | 0 <= n < |passes| :: SafeStep(e, passes[n], worlds[n], worlds[n + 1])
    ensures Traced(e, worlds[0], worlds[|passes|])
    ensures var r := worlds[|passes|];
            |worlds[0].log| <= i < |r.log| ==>
              exists n :: 0 <= n < |passes| && LawfulWithin(e, passes[n], r, worlds[n], worlds[n + 1], i)
    decreases |passes|
  {
    if passes == [] {
      TracedSame(e, worlds[0]);
    } else {
      var n := |passes| - 1;
      var before, r := worlds[n], worlds[n + 1];
      StepsAreSafe(e, passes[..n], worlds[..n + 1], i);
      assert SafeStep(e, passes[n], before, r);
      TracedThen(e, worlds[0], before, r);
      if |worlds[0].log| <= i < |before.log| {
        var m :| 0 <= m < n && LawfulWithin(e, passes[..n][m], before, worlds[..n + 1][m], worlds[..n + 1][m + 1], i);
        LawfulLater(e, passes[m], before, r, |worlds[m].log|, i);
        assert LawfulWithin(e, passes[m], r, worlds[m], worlds[m + 1], i);
      } else if |before.log| <= i < |r.log| {
        assert LawfulWithin(e, passes[n], r, worlds[n], worlds[n + 1], i);
      }
    }
  }

  /** A run: the worlds between reconciles. */
  ghost predicate IsRun(e: Env, passes: seq<Inputs>, worlds: seq<World>) {
    |worlds| == |passes| + 1 && forall n | 0 <= n < |passes| :: worlds[n + 1] == Reconciled(e, passes[n], worlds[n])
  }

  /** In every run, each event lies within one reconcile and is lawful by what that one did, passes of a disabled
      operator do nothing at all, and the whole run is traced. */
  lemma RunIsSafe(e: Env, passes: seq<Inputs>, worlds: seq<World>, i: nat)
    requires IsRun(e, passes, worlds)
    ensures Traced(e, worlds[0], worlds[|passes|])
    ensures var r := worlds[|passes|];
            |worlds[0].log| <= i < |r.log| ==>
              exists n :: 0 <= n < |passes| && LawfulWithin(e, passes[n], r, worlds[n], worlds[n + 1], i)
    ensures forall n | 0 <= n < |passes| && !passes[n].enabled :: worlds[n + 1] == worlds[n]
  {
    forall n | 0 <= n < |passes|
      ensures SafeStep(e, passes[n], worlds[n], worlds[n + 1]) && (!passes[n].enabled ==> worlds[n + 1] == worlds[n])
    {
      ReconcileIsSafe(e, passes[n], worlds[n], worlds[n + 1]);
    }
    StepsAreSafe(e, passes, worlds, i);
  }
}
