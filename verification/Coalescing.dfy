/** Coalescing of MachineConfig updates with pool rollouts: pkg/engine/machineconfig_coalescing.go and
    the watch predicate of pkg/controller/platform_controller.go. */
module Coalescing {
  import opened JsonTree
  import opened Staging
  import Strings = JsonPointer
  import opened Sorting

  const BYPASS_ANNOTATION := "platform.kubevirt.io/bypass-mcp-rollout-coalescing"
  const NDP_EFFECTIVE_ANNOTATION := "platform.kubevirt.io/node-disruption-policy-effective"
  const MACHINE_CONFIG_GROUP := "machineconfiguration.openshift.io"
  const MACHINE_CONFIG_KIND := "MachineConfig"
  const ROLLOUT_CONDITION_TYPES: set<string> := {"RenderDegraded", "Updating"}

  /** The group of an apiVersion; a malformed one has none. */
  function ApiGroup(apiVersion: string): string {
    var parts := Strings.Split(apiVersion, '/');
    if |parts| == 2 then parts[0] else ""
  }

  predicate IsMachineConfig(o: Object) {
    Kind(o) == MACHINE_CONFIG_KIND && ApiGroup(ApiVersion(o)) == MACHINE_CONFIG_GROUP
  }

  lemma GroupIff(apiVersion: string, group: string)
    requires group != "" && '/' !in group
    ensures ApiGroup(apiVersion) == group <==>
            exists version :: '/' !in version && apiVersion == group + ['/'] + version
  {
    if version :| '/' !in version && apiVersion == group + ['/'] + version {
      Strings.SplitAfterSegment(group, version, '/');
      Strings.SplitAfterSegment(version, "", '/');
    }
    if ApiGroup(apiVersion) == group {
      var parts := Strings.Split(apiVersion, '/');
      Strings.SplitJoins(apiVersion, '/');
      assert '/' !in parts[1] && apiVersion == group + ['/'] + parts[1];
    }
  }

  /** A MachineConfig is what has that kind and some version of that group. */
  lemma MachineConfigIff(o: Object)
    ensures IsMachineConfig(o) <==>
            && Kind(o) == "MachineConfig"
            && exists version ::
                 '/' !in version && ApiVersion(o) == "machineconfiguration.openshift.io" + ['/'] + version
  {
    GroupIff(ApiVersion(o), "machineconfiguration.openshift.io");
  }

  // Bypass. -------------------------------------------------------------------------------------

  /** strconv.ParseBool. */
  function ParseBool(s: string): Option<bool> {
    if s in {"1", "t", "T", "TRUE", "true", "True"} then Some(true)
    else if s in {"0", "f", "F", "FALSE", "false", "False"} then Some(false)
    else None
  }

  function Capital(c: char): char { if 'a' <= c <= 'z' then c - 'a' + 'A' else c }

  function Upper(s: string): string { if s == "" then "" else [Capital(s[0])] + Upper(s[1..]) }

  /** The spellings of a word: in lower case, in upper case, or with a capital. */
  predicate Spells(s: string, word: string) {
    s == word || s == Upper(word) || (word != "" && s == [Capital(word[0])] + word[1..])
  }

  lemma ParseBoolIff(s: string)
    ensures ParseBool(s) == Some(true) <==> s == "1" || Spells(s, "t") || Spells(s, "true")
    ensures ParseBool(s) == Some(false) <==> s == "0" || Spells(s, "f") || Spells(s, "false")
  {
    assert Upper("") == "" && Upper("e") == "E" && Upper("t") == "T" && Upper("f") == "F";
    assert Upper("ue") == "UE" by { assert "ue"[1..] == "e"; }
    assert Upper("rue") == "RUE" by { assert "rue"[1..] == "ue"; }
    assert Upper("true") == "TRUE" by { assert "true"[1..] == "rue"; }
    assert Upper("se") == "SE" by { assert "se"[1..] == "e"; }
    assert Upper("lse") == "LSE" by { assert "lse"[1..] == "se"; }
    assert Upper("alse") == "ALSE" by { assert "alse"[1..] == "lse"; }
    assert Upper("false") == "FALSE" by { assert "false"[1..] == "alse"; }
    assert [Capital('t')] + "t"[1..] == "T" && [Capital('t')] + "true"[1..] == "True";
    assert [Capital('f')] + "f"[1..] == "F" && [Capital('f')] + "false"[1..] == "False";
  }

  function BypassValue(annotations: map<string, string>): Option<bool> {
    if BYPASS_ANNOTATION in annotations then ParseBool(annotations[BYPASS_ANNOTATION]) else None
  }

  predicate Bypassed(desired: Object, hco: map<string, string>) {
    if HasAnnotation(desired, NDP_EFFECTIVE_ANNOTATION, "true") then true
    else if BypassValue(Annotations(desired)).Some? then BypassValue(Annotations(desired)).value
    else if BypassValue(hco).Some? then BypassValue(hco).value
    else false
  }

  /** Mirrors the live admin bypass onto desired. */
  function CopyBypass(desired: Object, live: Object): Object {
    if BYPASS_ANNOTATION in Annotations(live)
    then SetAnnotation(desired, BYPASS_ANNOTATION, Annotations(live)[BYPASS_ANNOTATION])
    else desired
  }

  // Pools. --------------------------------------------------------------------------------------

  /** The machineConfigSelector of a pool. */
  datatype Selector = Malformed | SelectsNothing | Selects(matches: map<string, string> -> bool)

  datatype Pool = Pool(name: string, selector: Selector, body: Object)

  /** The result of listing pools. */
  datatype PoolList = NoMco | ListFailed | Listed(pools: seq<Pool>)

  function ConditionText(condition: Json, field: string): string
    requires condition.Obj?
  {
    if field in condition.fields && condition.fields[field].Str? then condition.fields[field].s else ""
  }

  /** The conditions that decide a release, by type; the last of a type counts. */
  function ConditionMap(conditions: seq<Json>): map<string, string> {
    if conditions == [] then map[]
    else
      var before, last := ConditionMap(conditions[..|conditions| - 1]), conditions[|conditions| - 1];
      if last.Obj? && ConditionText(last, "type") in ROLLOUT_CONDITION_TYPES
      then before[ConditionText(last, "type") := ConditionText(last, "status")]
      else before
  }

  function StatusConditions(pool: Object): seq<Json> {
    match NestedList(pool, ["status", "conditions"]) case Found(items) => items case _ => []
  }

  function RolloutConditions(pool: Object): map<string, string> { ConditionMap(StatusConditions(pool)) }

  method MachineConfigPoolRolloutConditions(pool: Object) returns (result: map<string, string>)
    ensures result == RolloutConditions(pool)
  {
    var conditions := StatusConditions(pool);
    result := map[];
    for i := 0 to |conditions|
      invariant result == ConditionMap(conditions[..i])
    {
      assert conditions[..i + 1][..i] == conditions[..i];
      var condition := conditions[i];
      if condition.Obj? {
        var conditionType := ConditionText(condition, "type");
        if conditionType in ROLLOUT_CONDITION_TYPES {
          result := result[conditionType := ConditionText(condition, "status")];
        }
      }
    }
    assert conditions[..|conditions|] == conditions;
  }

  predicate IsTrue(conditions: map<string, string>, t: string) { t in conditions && conditions[t] == "True" }

  predicate Releases(pool: Object) {
    IsTrue(RolloutConditions(pool), "RenderDegraded") || IsTrue(RolloutConditions(pool), "Updating")
  }

  /** Condition i is the last one of type `t`. */
  ghost predicate LastOfType(conditions: seq<Json>, t: string, i: nat) {
    && i < |conditions| && conditions[i].Obj? && ConditionText(conditions[i], "type") == t
    && forall j | i < j < |conditions| :: conditions[j].Obj? ==> ConditionText(conditions[j], "type") != t
  }

  /** The last condition of type `t` in the status of a pool has this status. */
  ghost predicate Reports(pool: Object, t: string, status: string) {
    && NestedList(pool, ["status", "conditions"]).Found?
    && var conditions := NestedList(pool, ["status", "conditions"]).value;
       exists i: nat :: LastOfType(conditions, t, i) && ConditionText(conditions[i], "status") == status
  }

  lemma {:induction false} ConditionMapExact(conditions: seq<Json>, t: string, status: string)
    ensures (t in ConditionMap(conditions) && ConditionMap(conditions)[t] == status) <==>
            && t in {"Updating", "RenderDegraded"}
            && exists i: nat :: LastOfType(conditions, t, i) && ConditionText(conditions[i], "status") == status
  {
    if conditions != [] {
      var n := |conditions| - 1;
      var before, last := conditions[..n], conditions[n];
      ConditionMapExact(before, t, status);
      if last.Obj? && ConditionText(last, "type") == t {
        assert LastOfType(conditions, t, n);
        assert forall i: nat :: LastOfType(conditions, t, i) ==> i == n;
      } else {
        assert forall i: nat :: LastOfType(conditions, t, i) <==> LastOfType(before, t, i);
      }
    }
  }

  lemma ReportsIff(pool: Object, t: string, status: string)
    ensures (t in RolloutConditions(pool) && RolloutConditions(pool)[t] == status) <==>
            t in {"Updating", "RenderDegraded"} && Reports(pool, t, status)
  {
    ConditionMapExact(StatusConditions(pool), t, status);
  }

  /** A pool releases exactly when the last condition of type Updating or RenderDegraded is true. */
  lemma ReleasesIff(pool: Object)
    ensures Releases(pool) <==> Reports(pool, "Updating", "True") || Reports(pool, "RenderDegraded", "True")
  {
    ReportsIff(pool, "Updating", "True");
    ReportsIff(pool, "RenderDegraded", "True");
  }

  /** A pool is matched by the labels of the desired or of the live object. */
  predicate Selected(pool: Pool, desired: Object, live: Object) {
    pool.selector.Selects? && (pool.selector.matches(Labels(desired)) || pool.selector.matches(Labels(live)))
  }

  function Matching(pools: seq<Pool>, desired: Object, live: Object): Option<map<string, Pool>> {
    if pools == [] then Some(map[])
    else
      var last := pools[|pools| - 1];
      match Matching(pools[..|pools| - 1], desired, live)
      case None => None
      case Some(m) =>
        if last.selector.Malformed? then None
        else if && last.selector.Selects?
                && (last.selector.matches(Labels(desired)) || last.selector.matches(Labels(live)))
        then Some(m[last.name := last])
        else Some(m)
  }

  method MatchingMachineConfigPools(pools: seq<Pool>, desired: Object, live: Object)
    returns (matched: Option<map<string, Pool>>)
    ensures matched == Matching(pools, desired, live)
  {
    var m: map<string, Pool> := map[];
    var objects := [desired, live];
    for i := 0 to |pools|
      invariant Matching(pools[..i], desired, live) == Some(m)
    {
      assert pools[..i + 1][..i] == pools[..i];
      var pool := pools[i];
      if pool.selector.Malformed? {
        FailedListing(pools, i, desired, live);
        return None;
      }
      if pool.selector.Selects? {
        var hit := false;
        for j := 0 to |objects|
          invariant hit <==> exists k :: 0 <= k < j && pool.selector.matches(Labels(objects[k]))
        {
          if pool.selector.matches(Labels(objects[j])) {
            hit := true;
          }
        }
        assert hit <==> Selected(pool, desired, live) by { assert objects[0] == desired && objects[1] == live; }
        if hit {
          m := m[pool.name := pool];
        }
      }
    }
    assert pools[..|pools|] == pools;
    return Some(m);
  }

  lemma {:induction false} FailedListing(pools: seq<Pool>, i: nat, desired: Object, live: Object)
    requires i < |pools| && pools[i].selector.Malformed?
    ensures Matching(pools, desired, live).None?
  {
    if i < |pools| - 1 { FailedListing(pools[..|pools| - 1], i, desired, live); }
  }

  lemma {:induction false} MatchingExact(pools: seq<Pool>, desired: Object, live: Object)
    ensures Matching(pools, desired, live).None? <==> exists i :: 0 <= i < |pools| && pools[i].selector.Malformed?
    ensures Matching(pools, desired, live).Some? ==>
              var m := Matching(pools, desired, live).value;
              forall n :: n in m <==>
                exists i :: 0 <= i < |pools| && pools[i].name == n && Selected(pools[i], desired, live)
    ensures Matching(pools, desired, live).Some? ==>
              var m := Matching(pools, desired, live).value;
              forall n :: n in m ==> m[n] in pools && m[n].name == n && Selected(m[n], desired, live)
  {
    if pools != [] {
      var k := |pools| - 1;
      MatchingExact(pools[..k], desired, live);
      assert forall i :: 0 <= i < k ==> pools[..k][i] == pools[i];
    }
  }

  // The decision. -------------------------------------------------------------------------------

  datatype Hco = Hco(namespace: string, annotations: map<string, string>, owner: Option<Json>)

  datatype Verdict = Apply | Hold | Failed

  datatype Decision = Decision(store: Store, verdict: Verdict)

  ghost predicate AnyReleases(m: map<string, Pool>) { exists n :: n in m && Releases(m[n].body) }

  ghost function PoolNames(m: map<string, Pool>): seq<string> { InOrder(m.Keys) }

  function Dropped(codec: Codec, s: Store, name: string, io: Io): Decision {
    var r := Drop(codec, s, name, io);
    Decision(r.store, if r.ok then Apply else Failed)
  }

  ghost function Staged(codec: Codec, s: Store, name: string, hash: string, pools: seq<string>, owner: Option<Json>,
                        now: int, io: Io): Decision {
    var l := Load(codec, s, io);
    if !l.ok then Decision(l.store, Failed)
    else
      var entries := l.store.entries;
      if name in entries && entries[name].desiredHash == hash && entries[name].matchingPools == pools
      then Decision(l.store, Hold)
      else
        var stage := if name in entries && entries[name].desiredHash == hash
                     then entries[name].(matchingPools := pools)
                     else Stage(now, hash, pools);
        var r := Put(codec, l.store, name, stage, owner, io);
        Decision(r.store, if r.ok then Hold else Failed)
  }

  /** What an update meets. */
  datatype Situation = Uncoalesced | Bypassing | Unlistable | Matched(pools: map<string, Pool>)

  function Situate(coalescible: bool, bypass: bool, list: PoolList, desired: Object, live: Object): Situation {
    if !coalescible then Uncoalesced
    else if bypass then Bypassing
    else
      match list
      case NoMco => Uncoalesced
      case ListFailed => Unlistable
      case Listed(pools) =>
        match Matching(pools, desired, live)
        case None => Unlistable
        case Some(m) => Matched(m)
  }

  ghost function Act(codec: Codec, s: Store, situation: Situation, name: string, hash: string, owner: Option<Json>,
                     now: int, io: Io): Decision {
    match situation
    case Uncoalesced => Decision(s, Apply)
    case Bypassing => Dropped(codec, s, name, io)
    case Unlistable => Decision(s, Failed)
    case Matched(m) =>
      if m == map[] then Dropped(codec, s, name, io)
      else if AnyReleases(m) then Decision(s, Apply)
      else Staged(codec, s, name, hash, PoolNames(m), owner, now, io)
  }

  /** `d` is the desired object with the live bypass on it. */
  ghost function CoalesceWith(codec: Codec, s: Store, d: Object, coalescible: bool, live: Object, hash: string,
                              hco: Hco, list: PoolList, now: int, io: Io): Decision {
    Act(codec, s, Situate(coalescible, Bypassed(d, hco.annotations), list, d, live), Name(d), hash, hco.owner, now, io)
  }

  ghost function Coalesce(codec: Codec, s: Store, desired: Object, live: Object, hash: string, hco: Hco, list: PoolList,
                          now: int, io: Io): Decision {
    CoalesceWith(codec, s, CopyBypass(desired, live), IsMachineConfig(desired) && hco.namespace != "", live, hash, hco,
      list, now, io)
  }

  method CoalesceMachineConfigUpdate(store: StagingStore, desired: Object, live: Object, hash: string, hco: Hco,
                                     list: PoolList, now: int, io: Io)
    returns (verdict: Verdict)
    modifies store
    ensures Decision(store.View(), verdict) ==
            Coalesce(store.codec, old(store.View()), desired, live, hash, hco, list, now, io)
  {
    if !IsMachineConfig(desired) {
      return Apply;
    }
    if hco.namespace == "" {
      return Apply;
    }
    verdict := CoalesceForPools(store, CopyBypass(desired, live), live, hash, hco, list, now, io);
  }

  method CoalesceForPools(store: StagingStore, d: Object, live: Object, hash: string, hco: Hco, list: PoolList,
                          now: int, io: Io)
    returns (verdict: Verdict)
    modifies store
    ensures Decision(store.View(), verdict) ==
            CoalesceWith(store.codec, old(store.View()), d, true, live, hash, hco, list, now, io)
  {
    if Bypassed(d, hco.annotations) {
      var ok := store.UnstageUpdate(Name(d), io);
      return if ok then Apply else Failed;
    }
    match list {
      case NoMco => return Apply;
      case ListFailed => return Failed;
      case Listed(pools) =>
        var matched := MatchingMachineConfigPools(pools, d, live);
        if matched.None? {
          return Failed;
        }
        verdict := CoalesceMatched(store, matched.value, Name(d), hash, hco.owner, now, io);
    }
  }

  method CoalesceMatched(store: StagingStore, pools: map<string, Pool>, name: string, hash: string, owner: Option<Json>,
                         now: int, io: Io)
    returns (verdict: Verdict)
    modifies store
    ensures Decision(store.View(), verdict) ==
            Act(store.codec, old(store.View()), Matched(pools), name, hash, owner, now, io)
  {
    if |pools| == 0 {
      var ok := store.UnstageUpdate(name, io);
      return if ok then Apply else Failed;
    }
    var release := AnyPoolReleases(pools);
    if release {
      return Apply;
    }
    var names := SortedStringKeys(pools.Keys);
    verdict := HoldUpdate(store, name, hash, names, owner, now, io);
  }

  method AnyPoolReleases(pools: map<string, Pool>) returns (release: bool)
    ensures release <==> AnyReleases(pools)
  {
    var todo := pools.Keys;
    while todo != {}
      invariant todo <= pools.Keys
      invariant forall n :: n in pools && n !in todo ==> !Releases(pools[n].body)
    {
      var n :| n in todo;
      todo := todo - {n};
      if Releases(pools[n].body) {
        return true;
      }
    }
    return false;
  }

  method HoldUpdate(store: StagingStore, name: string, hash: string, names: seq<string>, owner: Option<Json>, now: int,
                    io: Io)
    returns (verdict: Verdict)
    modifies store
    ensures Decision(store.View(), verdict) == Staged(store.codec, old(store.View()), name, hash, names, owner, now, io)
  {
    var ok := store.LoadStaging(io);
    if !ok {
      return Failed;
    }
    if name !in store.entries || store.entries[name].desiredHash != hash {
      ok := store.StageUpdate(name, Stage(now, hash, names), owner, io);
      return if ok then Hold else Failed;
    }
    if store.entries[name].matchingPools != names {
      ok := store.StageUpdate(name, store.entries[name].(matchingPools := names), owner, io);
      return if ok then Hold else Failed;
    }
    return Hold;
  }

  // When an update is held. ---------------------------------------------------------------------

  /** The bypass in effect: the policy marker, else a valid value on the MachineConfig with live
      preferred, else a valid value on the HCO, else off. */
  predicate BypassInEffect(desired: Object, live: Object, hco: map<string, string>) {
    var own := BypassValue(if BYPASS_ANNOTATION in Annotations(live) then Annotations(live) else Annotations(desired));
    || HasAnnotation(desired, NDP_EFFECTIVE_ANNOTATION, "true")
    || (if own.Some? then own.value else BypassValue(hco) == Some(true))
  }

  ghost predicate ShouldHold(desired: Object, live: Object, hco: Hco, list: PoolList) {
    && IsMachineConfig(desired)
    && hco.namespace != ""
    && !BypassInEffect(desired, live, hco.annotations)
    && SomePoolHolds(desired, live, list)
  }

  /** The pools can be listed, one selects the live or desired labels, and none of those releases. */
  ghost predicate SomePoolHolds(desired: Object, live: Object, list: PoolList) {
    && list.Listed?
    && (forall i :: 0 <= i < |list.pools| ==> !list.pools[i].selector.Malformed?)
    && (exists i :: 0 <= i < |list.pools| && Selected(list.pools[i], desired, live))
    && (forall i :: 0 <= i < |list.pools| && Selected(list.pools[i], desired, live) ==>
          !Releases(list.pools[i].body))
  }

  /** Pool names are unique in a cluster. */
  predicate DistinctNames(list: PoolList) {
    list.Listed? ==> forall i, j :: 0 <= i < j < |list.pools| ==> list.pools[i].name != list.pools[j].name
  }

  lemma CopyBypassFacts(desired: Object, live: Object, hco: map<string, string>)
    requires Name(desired) != ""
    ensures var d := CopyBypass(desired, live);
            && Name(d) == Name(desired) && Labels(d) == Labels(desired)
            && (Bypassed(d, hco) <==> BypassInEffect(desired, live, hco))
  {
    if BYPASS_ANNOTATION in Annotations(live) {
      AnnotationRoundTrip(desired, BYPASS_ANNOTATION, Annotations(live)[BYPASS_ANNOTATION]);
      AnnotationKeepsRest(desired, BYPASS_ANNOTATION, Annotations(live)[BYPASS_ANNOTATION]);
    }
  }

  lemma {:induction false} MatchingByLabels(pools: seq<Pool>, d: Object, desired: Object, live: Object)
    requires Labels(d) == Labels(desired)
    ensures Matching(pools, d, live) == Matching(pools, desired, live)
  {
    if pools != [] { MatchingByLabels(pools[..|pools| - 1], d, desired, live); }
  }

  /** Among pools with distinct names, what the matched pools are like. */
  lemma MatchedPools(pools: seq<Pool>, desired: Object, live: Object)
    requires DistinctNames(Listed(pools)) && Matching(pools, desired, live).Some?
    ensures var m := Matching(pools, desired, live).value;
            && (m != map[] <==> exists i :: 0 <= i < |pools| && Selected(pools[i], desired, live))
            && (AnyReleases(m) <==>
               exists i :: 0 <= i < |pools| && Selected(pools[i], desired, live) && Releases(pools[i].body))
  {
    var m := Matching(pools, desired, live).value;
    MatchingExact(pools, desired, live);
    forall i | 0 <= i < |pools| && Selected(pools[i], desired, live)
      ensures pools[i].name in m && m[pools[i].name] == pools[i]
    {
      var n := pools[i].name;
      assert m[n] in pools;
      var j :| 0 <= j < |pools| && pools[j] == m[n];
      assert i == j;
    }
    if AnyReleases(m) {
      var n :| n in m && Releases(m[n].body);
      assert m[n] in pools;
    }
    if m != map[] {
      var n :| n in m;
      assert m[n] in pools;
    }
  }

  ghost predicate Holds(situation: Situation) {
    situation.Matched? && situation.pools != map[] && !AnyReleases(situation.pools)
  }

  lemma ActHolds(codec: Codec, s: Store, situation: Situation, name: string, hash: string, owner: Option<Json>,
                 now: int, io: Io)
    ensures var verdict := Act(codec, s, situation, name, hash, owner, now, io).verdict;
            && (verdict != Failed ==> (verdict == Hold <==> Holds(situation)))
            && (io == Io(true, true, true) ==>
                  verdict == if Holds(situation) then Hold else if situation.Unlistable? then Failed else Apply)
  {
    DroppedVerdict(codec, s, name, io);
    if situation.Matched? { StagedVerdict(codec, s, name, hash, PoolNames(situation.pools), owner, now, io); }
  }

  lemma DroppedVerdict(codec: Codec, s: Store, name: string, io: Io)
    ensures Dropped(codec, s, name, io).verdict != Hold
    ensures io == Io(true, true, true) ==> Dropped(codec, s, name, io).verdict == Apply
  {}

  lemma StagedVerdict(codec: Codec, s: Store, name: string, hash: string, pools: seq<string>, owner: Option<Json>,
                      now: int, io: Io)
    ensures Staged(codec, s, name, hash, pools, owner, now, io).verdict != Apply
    ensures io == Io(true, true, true) ==> Staged(codec, s, name, hash, pools, owner, now, io).verdict == Hold
  {}

  lemma ListHolds(pools: seq<Pool>, desired: Object, live: Object)
    requires DistinctNames(Listed(pools))
    ensures var r := Matching(pools, desired, live);
            (r.Some? && r.value != map[] && !AnyReleases(r.value)) <==> SomePoolHolds(desired, live, Listed(pools))
  {
    MatchingExact(pools, desired, live);
    if Matching(pools, desired, live).Some? { MatchedPools(pools, desired, live); }
  }

  lemma SituationHolds(coalescible: bool, bypass: bool, list: PoolList, d: Object, desired: Object, live: Object)
    requires Labels(d) == Labels(desired) && DistinctNames(list)
    ensures Holds(Situate(coalescible, bypass, list, d, live)) <==>
            coalescible && !bypass && SomePoolHolds(desired, live, list)
  {
    if list.Listed? {
      MatchingByLabels(list.pools, d, desired, live);
      ListHolds(list.pools, desired, live);
    }
  }

  /** The pools were listed and none of them is selected. */
  ghost predicate NoneSelected(desired: Object, live: Object, list: PoolList) {
    && list.Listed?
    && forall i :: 0 <= i < |list.pools| ==>
         !list.pools[i].selector.Malformed? && !Selected(list.pools[i], desired, live)
  }

  /** What an update meets, from the inputs. */
  lemma SituationExact(coalescible: bool, bypass: bool, list: PoolList, d: Object, desired: Object, live: Object)
    requires Labels(d) == Labels(desired) && DistinctNames(list)
    ensures var r := Situate(coalescible, bypass, list, d, live);
            && (r.Bypassing? <==> coalescible && bypass)
            && (r.Unlistable? <==> coalescible && !bypass && CannotList(list))
            && (r == Matched(map[]) <==> coalescible && !bypass && NoneSelected(desired, live, list))
            && (Holds(r) <==> coalescible && !bypass && SomePoolHolds(desired, live, list))
            && (Holds(r) ==> r.pools.Keys == SelectedNames(list.pools, desired, live))
  {
    SituationHolds(coalescible, bypass, list, d, desired, live);
    if list.Listed? {
      MatchingByLabels(list.pools, d, desired, live);
      MatchingNames(list.pools, desired, live);
    }
  }

  ghost function SelectedNames(pools: seq<Pool>, desired: Object, live: Object): set<string> {
    set i | 0 <= i < |pools| && Selected(pools[i], desired, live) :: pools[i].name
  }

  lemma MatchingNames(pools: seq<Pool>, desired: Object, live: Object)
    ensures var r := Matching(pools, desired, live);
            && (r.None? <==> CannotList(Listed(pools)))
            && (r == Some(map[]) <==> NoneSelected(desired, live, Listed(pools)))
            && (r.Some? ==> r.value.Keys == SelectedNames(pools, desired, live))
  {
    MatchingExact(pools, desired, live);
    if Matching(pools, desired, live).Some? {
      var m := Matching(pools, desired, live).value;
      assert m == map[] <==> forall n :: n !in m;
      if NoneSelected(desired, live, Listed(pools)) {
        assert forall n :: n !in m;
      } else {
        var i :| 0 <= i < |pools| && Selected(pools[i], desired, live);
        assert pools[i].name in m;
      }
    }
  }

  /** Pools that cannot be listed, or one whose selector is malformed. */
  ghost predicate CannotList(list: PoolList) {
    || list.ListFailed?
    || (list.Listed? && exists i :: 0 <= i < |list.pools| && list.pools[i].selector.Malformed?)
  }

  /** The rollout of pools matters for the update. */
  predicate DependsOnPools(desired: Object, live: Object, hco: Hco) {
    IsMachineConfig(desired) && hco.namespace != "" && !BypassInEffect(desired, live, hco.annotations)
  }

  /** An update that meets no error is held exactly when it should be. With a staging store that can be read and
      written it fails exactly when the pools matter and cannot be listed, and is let pass otherwise. */
  lemma HeldIffShouldHold(codec: Codec, s: Store, desired: Object, live: Object, hash: string, hco: Hco, list: PoolList,
                          now: int, io: Io)
    requires Name(desired) != "" && DistinctNames(list)
    ensures var verdict := Coalesce(codec, s, desired, live, hash, hco, list, now, io).verdict;
            && (verdict != Failed ==> (verdict == Hold <==> ShouldHold(desired, live, hco, list)))
            && (io == Io(true, true, true) ==>
                  verdict == if ShouldHold(desired, live, hco, list) then Hold
                             else if DependsOnPools(desired, live, hco) && CannotList(list) then Failed
                             else Apply)
  {
    CopyBypassFacts(desired, live, hco.annotations);
    HeldWith(codec, s, CopyBypass(desired, live), IsMachineConfig(desired) && hco.namespace != "", desired, live, hash,
      hco, list, now, io);
  }

  lemma HeldWith(codec: Codec, s: Store, d: Object, coalescible: bool, desired: Object, live: Object, hash: string,
                 hco: Hco, list: PoolList, now: int, io: Io)
    requires Labels(d) == Labels(desired) && DistinctNames(list)
    ensures var verdict := CoalesceWith(codec, s, d, coalescible, live, hash, hco, list, now, io).verdict;
            var matters := coalescible && !Bypassed(d, hco.annotations);
            var should := matters && SomePoolHolds(desired, live, list);
            && (verdict != Failed ==> (verdict == Hold <==> should))
            && (io == Io(true, true, true) ==>
                  verdict == if should then Hold else if matters && CannotList(list) then Failed else Apply)
  {
    var bypass := Bypassed(d, hco.annotations);
    SituationExact(coalescible, bypass, list, d, desired, live);
    ActHolds(codec, s, Situate(coalescible, bypass, list, d, live), Name(d), hash, hco.owner, now, io);
  }

  // The staging clock. --------------------------------------------------------------------------

  type Entries = map<string, Stage>

  ghost predicate OthersKept(before: Entries, after: Entries, name: string) {
    forall n :: n != name ==> (n in after <==> n in before) && (n in before ==> after[n] == before[n])
  }

  /** An entry for the same rendered state, while it lasts, keeps its time. */
  ghost predicate ClockKept(before: Entries, after: Entries, name: string, hash: string) {
    name in before && before[name].desiredHash == hash && name in after ==>
      after[name].stagedAt == before[name].stagedAt && after[name].desiredHash == hash
  }

  /** An entry appears or changes only with a hold; and after a hold there is one for the state held, with the time of
      the hold unless an entry for that very state was there before. */
  ghost predicate ClockStarts(before: Entries, after: Entries, name: string, hash: string, now: int, held: bool) {
    && (name in after && !(name in before && after[name] == before[name]) ==> held)
    && (held ==>
          && name in after && after[name].desiredHash == hash
          && after[name].stagedAt ==
             if name in before && before[name].desiredHash == hash then before[name].stagedAt else now)
  }

  ghost predicate NoPoolMatches(desired: Object, live: Object, list: PoolList) {
    list.Listed? && forall i :: 0 <= i < |list.pools| ==> !Selected(list.pools[i], desired, live)
  }

  lemma SituationReasons(coalescible: bool, bypass: bool, list: PoolList, d: Object, desired: Object, live: Object)
    requires Labels(d) == Labels(desired)
    ensures var r := Situate(coalescible, bypass, list, d, live);
            (r.Bypassing? ==> bypass) && (r == Matched(map[]) ==> NoPoolMatches(desired, live, list))
  {
    if Situate(coalescible, bypass, list, d, live) == Matched(map[]) {
      MatchingByLabels(list.pools, d, desired, live);
      MatchingExact(list.pools, desired, live);
      forall i | 0 <= i < |list.pools| ensures !Selected(list.pools[i], desired, live)
      {
        assert list.pools[i].name !in Matching(list.pools, desired, live).value;
      }
    }
  }

  lemma ActKeepsClock(codec: Codec, s: Store, situation: Situation, name: string, hash: string, owner: Option<Json>,
                      now: int, io: Io)
    requires codec.Faithful() && OwnerRefs(owner) && Mirrors(codec, s)
    ensures var r := Act(codec, s, situation, name, hash, owner, now, io);
            var before, after := Decoded(codec, s.configMap), Decoded(codec, r.store.configMap);
            && Mirrors(codec, r.store)
            && OthersKept(before, after, name)
            && ClockKept(before, after, name, hash)
            && ClockStarts(before, after, name, hash, now, r.verdict == Hold)
            && (name in before && name !in after ==>
               r.verdict == Apply && (situation.Bypassing? || situation == Matched(map[])))
  {
    if situation.Bypassing? || situation == Matched(map[]) {
      DroppedEffect(codec, s, name, io);
    } else if situation.Matched? && !AnyReleases(situation.pools) {
      StagedKeepsClock(codec, s, name, hash, PoolNames(situation.pools), owner, now, io);
    }
  }

  lemma DroppedEffect(codec: Codec, s: Store, name: string, io: Io)
    requires codec.Faithful() && Mirrors(codec, s)
    ensures var r := Dropped(codec, s, name, io);
            var before, after := Decoded(codec, s.configMap), Decoded(codec, r.store.configMap);
            && Mirrors(codec, r.store)
            && OthersKept(before, after, name)
            && (name in after ==> name in before && after[name] == before[name])
            && (name in before && name !in after ==> r.verdict == Apply)
            && r.verdict != Hold
  {
    DropEffect(codec, s, name, io);
  }

  /** The decision drops an entry only to let the update pass, for a bypass or when no pool matches; otherwise an
      entry for the same rendered state keeps its time, and a hold of another state starts at the time of the hold. */
  lemma CoalesceKeepsClock(codec: Codec, s: Store, desired: Object, live: Object, hash: string, hco: Hco,
                           list: PoolList, now: int, io: Io)
    requires codec.Faithful() && OwnerRefs(hco.owner) && Mirrors(codec, s) && Name(desired) != ""
    ensures var r := Coalesce(codec, s, desired, live, hash, hco, list, now, io);
            var before, after := Decoded(codec, s.configMap), Decoded(codec, r.store.configMap);
            && Mirrors(codec, r.store)
            && OthersKept(before, after, Name(desired))
            && ClockKept(before, after, Name(desired), hash)
            && ClockStarts(before, after, Name(desired), hash, now, r.verdict == Hold)
            && (Name(desired) in before && Name(desired) !in after ==>
                  && r.verdict == Apply
                  && (BypassInEffect(desired, live, hco.annotations) || NoPoolMatches(desired, live, list)))
  {
    CopyBypassFacts(desired, live, hco.annotations);
    KeepsClockWith(codec, s, CopyBypass(desired, live), IsMachineConfig(desired) && hco.namespace != "", desired, live,
      hash, hco, list, now, io);
  }

  lemma KeepsClockWith(codec: Codec, s: Store, d: Object, coalescible: bool, desired: Object, live: Object,
                       hash: string, hco: Hco, list: PoolList, now: int, io: Io)
    requires codec.Faithful() && OwnerRefs(hco.owner) && Mirrors(codec, s) && Labels(d) == Labels(desired)
    ensures var r := CoalesceWith(codec, s, d, coalescible, live, hash, hco, list, now, io);
            var before, after := Decoded(codec, s.configMap), Decoded(codec, r.store.configMap);
            && Mirrors(codec, r.store)
            && OthersKept(before, after, Name(d))
            && ClockKept(before, after, Name(d), hash)
            && ClockStarts(before, after, Name(d), hash, now, r.verdict == Hold)
            && (Name(d) in before && Name(d) !in after ==>
                  r.verdict == Apply && (Bypassed(d, hco.annotations) || NoPoolMatches(desired, live, list)))
  {
    var bypass := Bypassed(d, hco.annotations);
    SituationReasons(coalescible, bypass, list, d, desired, live);
    ActKeepsClock(codec, s, Situate(coalescible, bypass, list, d, live), Name(d), hash, hco.owner, now, io);
  }

  lemma StagedKeepsClock(codec: Codec, s: Store, name: string, hash: string, pools: seq<string>, owner: Option<Json>,
                         now: int, io: Io)
    requires codec.Faithful() && OwnerRefs(owner) && Mirrors(codec, s)
    ensures var r := Staged(codec, s, name, hash, pools, owner, now, io);
            var before, after := Decoded(codec, s.configMap), Decoded(codec, r.store.configMap);
            && Mirrors(codec, r.store)
            && OthersKept(before, after, name)
            && ClockKept(before, after, name, hash)
            && ClockStarts(before, after, name, hash, now, r.verdict == Hold)
            && (name in before ==> name in after)
  {
    StagedExact(codec, s, name, hash, pools, owner, now, io);
  }

  // The exact decision. -------------------------------------------------------------------------

  /** What is staged while an update is held: since the first hold of this state. */
  function HeldStage(before: Entries, name: string, hash: string, pools: seq<string>, now: int): Stage {
    Stage(if name in before && before[name].desiredHash == hash then before[name].stagedAt else now, hash, pools)
  }

  predicate CanStage(codec: Codec, s: Store, name: string, stage: Stage, io: Io) {
    var before := Decoded(codec, s.configMap);
    Readable(s, io) && ((name in before && before[name] == stage) || Writable(s, io))
  }

  predicate CanDrop(codec: Codec, s: Store, name: string, io: Io) {
    Readable(s, io) && (name in Decoded(codec, s.configMap) ==> io.patchOk)
  }

  /** The owner of the ConfigMap once an entry is staged: the given one where there was none and the entry is new. */
  function OwnerAfter(codec: Codec, s: Store, name: string, stage: Stage, owner: Option<Json>): Option<Json> {
    var before := Decoded(codec, s.configMap);
    if (name in before && before[name] == stage) || Owned(s.configMap) || owner.None? then OwnerOf(s.configMap)
    else owner
  }

  lemma StagedExact(codec: Codec, s: Store, name: string, hash: string, pools: seq<string>, owner: Option<Json>,
                    now: int, io: Io)
    requires codec.Faithful() && OwnerRefs(owner) && Mirrors(codec, s)
    ensures var r := Staged(codec, s, name, hash, pools, owner, now, io);
            var before := Decoded(codec, s.configMap);
            var stage := HeldStage(before, name, hash, pools, now);
            && Mirrors(codec, r.store)
            && r.verdict == (if CanStage(codec, s, name, stage, io) then Hold else Failed)
            && Decoded(codec, r.store.configMap) == (if r.verdict == Hold then before[name := stage] else before)
            && OwnerOf(r.store.configMap) ==
               if r.verdict == Hold then OwnerAfter(codec, s, name, stage, owner) else OwnerOf(s.configMap)
  {
    LoadMirrors(codec, s, io);
    var l, before := Load(codec, s, io), Decoded(codec, s.configMap);
    if l.ok {
      var stage := HeldStage(before, name, hash, pools, now);
      PutEffect(codec, l.store, name, stage, owner, io);
      if name in before && before[name] == stage { assert before[name := stage] == before; }
    }
  }

  lemma ActExact(codec: Codec, s: Store, situation: Situation, name: string, hash: string, owner: Option<Json>,
                 now: int, io: Io)
    requires codec.Faithful() && OwnerRefs(owner) && Mirrors(codec, s)
    ensures var r := Act(codec, s, situation, name, hash, owner, now, io);
            var before, after := Decoded(codec, s.configMap), Decoded(codec, r.store.configMap);
            if situation.Bypassing? || situation == Matched(map[]) then
              && r.verdict == (if CanDrop(codec, s, name, io) then Apply else Failed)
              && after == (if CanDrop(codec, s, name, io) then before - {name} else before)
              && OwnerOf(r.store.configMap) == OwnerOf(s.configMap)
            else if Holds(situation) then
              var stage := HeldStage(before, name, hash, PoolNames(situation.pools), now);
              && r.verdict == (if CanStage(codec, s, name, stage, io) then Hold else Failed)
              && after == (if r.verdict == Hold then before[name := stage] else before)
              && OwnerOf(r.store.configMap) ==
                 if r.verdict == Hold then OwnerAfter(codec, s, name, stage, owner) else OwnerOf(s.configMap)
            else r.verdict == (if situation.Unlistable? then Failed else Apply) && r.store == s
  {
    if situation.Bypassing? || situation == Matched(map[]) {
      DropEffect(codec, s, name, io);
    } else if Holds(situation) {
      StagedExact(codec, s, name, hash, PoolNames(situation.pools), owner, now, io);
    }
  }

  /** No rollout is waited for: a bypass is in effect, or no pool selects the MachineConfig. */
  ghost predicate RetiresEntry(desired: Object, live: Object, hco: Hco, list: PoolList) {
    && IsMachineConfig(desired) && hco.namespace != ""
    && (BypassInEffect(desired, live, hco.annotations) || NoneSelected(desired, live, list))
  }

  /** The entry that a hold leaves: the state held, since its first hold, with the selecting pools in order. */
  ghost function EntryFor(before: Entries, desired: Object, live: Object, hash: string, list: PoolList,
                          now: int): Stage {
    var pools := if list.Listed? then SelectedNames(list.pools, desired, live) else {};
    HeldStage(before, Name(desired), hash, InOrder(pools), now)
  }

  /** Verdict, durable entries and owner after a decision, for every state of the API server. The update is held exactly
      when it should be and the entry for it is there or can be written. It fails exactly when that cannot be written,
      when an entry that is not needed cannot be dropped, or when the pools matter and cannot be listed. */
  lemma CoalesceExact(codec: Codec, s: Store, desired: Object, live: Object, hash: string, hco: Hco, list: PoolList,
                      now: int, io: Io)
    requires codec.Faithful() && OwnerRefs(hco.owner) && Mirrors(codec, s) && Name(desired) != "" && DistinctNames(list)
    ensures var r, name := Coalesce(codec, s, desired, live, hash, hco, list, now, io), Name(desired);
            var before := Decoded(codec, s.configMap);
            var stage := EntryFor(before, desired, live, hash, list, now);
            var retires, holds := RetiresEntry(desired, live, hco, list), ShouldHold(desired, live, hco, list);
            && (r.verdict == Hold <==> holds && CanStage(codec, s, name, stage, io))
            && (r.verdict == Failed <==>
                  || (holds && !CanStage(codec, s, name, stage, io))
                  || (retires && !CanDrop(codec, s, name, io))
                  || (DependsOnPools(desired, live, hco) && CannotList(list)))
            && Decoded(codec, r.store.configMap) ==
               (if r.verdict == Hold then before[name := stage]
                else if retires && CanDrop(codec, s, name, io) then before - {name}
                else before)
            && OwnerOf(r.store.configMap) ==
               if r.verdict == Hold then OwnerAfter(codec, s, name, stage, hco.owner) else OwnerOf(s.configMap)
  {
    CopyBypassFacts(desired, live, hco.annotations);
    ExactWith(codec, s, CopyBypass(desired, live), IsMachineConfig(desired) && hco.namespace != "", desired, live, hash,
      hco, list, now, io);
  }

  lemma ExactWith(codec: Codec, s: Store, d: Object, coalescible: bool, desired: Object, live: Object, hash: string,
                  hco: Hco, list: PoolList, now: int, io: Io)
    requires codec.Faithful() && OwnerRefs(hco.owner) && Mirrors(codec, s) && DistinctNames(list)
    requires Labels(d) == Labels(desired) && Name(d) == Name(desired)
    ensures var r, name := CoalesceWith(codec, s, d, coalescible, live, hash, hco, list, now, io), Name(desired);
            var before, bypass := Decoded(codec, s.configMap), Bypassed(d, hco.annotations);
            var stage := EntryFor(before, desired, live, hash, list, now);
            var retires := coalescible && (bypass || NoneSelected(desired, live, list));
            var holds := coalescible && !bypass && SomePoolHolds(desired, live, list);
            && (r.verdict == Hold <==> holds && CanStage(codec, s, name, stage, io))
            && (r.verdict == Failed <==>
                  || (holds && !CanStage(codec, s, name, stage, io))
                  || (retires && !CanDrop(codec, s, name, io))
                  || (coalescible && !bypass && CannotList(list)))
            && Decoded(codec, r.store.configMap) ==
               (if r.verdict == Hold then before[name := stage]
                else if retires && CanDrop(codec, s, name, io) then before - {name}
                else before)
            && OwnerOf(r.store.configMap) ==
               if r.verdict == Hold then OwnerAfter(codec, s, name, stage, hco.owner) else OwnerOf(s.configMap)
  {
    var bypass := Bypassed(d, hco.annotations);
    SituationExact(coalescible, bypass, list, d, desired, live);
    ActExact(codec, s, Situate(coalescible, bypass, list, d, live), Name(d), hash, hco.owner, now, io);
  }

  // The watch. ----------------------------------------------------------------------------------

  /** The predicate on MachineConfigPool updates. */
  predicate UpdatePasses(before: Object, after: Object) { RolloutConditions(before) != RolloutConditions(after) }

  /** An update passes exactly when it changes the last condition of type Updating or RenderDegraded. */
  lemma PassesIff(before: Object, after: Object)
    ensures UpdatePasses(before, after) <==>
            exists t, status ::
              Reports(before, t, status) != Reports(after, t, status) && t in {"Updating", "RenderDegraded"}
  {
    var a, b := RolloutConditions(before), RolloutConditions(after);
    if a != b {
      var t :| (t in a && !(t in b && b[t] == a[t])) || (t in b && !(t in a && a[t] == b[t]));
      var status := if t in a && !(t in b && b[t] == a[t]) then a[t] else b[t];
      ReportsIff(before, t, status);
      ReportsIff(after, t, status);
      assert Reports(before, t, status) != Reports(after, t, status);
    } else {
      forall t, status | t in {"Updating", "RenderDegraded"}
        ensures Reports(before, t, status) == Reports(after, t, status)
      {
        ReportsIff(before, t, status);
        ReportsIff(after, t, status);
      }
    }
  }

  /** While no update passes, the conditions stay those last seen. */
  lemma {:induction false} UnseenUpdatesChangeNothing(pools: seq<Object>)
    requires pools != []
    requires forall i :: 0 <= i < |pools| - 1 ==> !UpdatePasses(pools[i], pools[i + 1])
    ensures RolloutConditions(pools[0]) == RolloutConditions(pools[|pools| - 1])
  {
    if |pools| > 1 {
      var before := pools[..|pools| - 1];
      forall i | 0 <= i < |before| - 1 ensures !UpdatePasses(before[i], before[i + 1])
      {
        assert !UpdatePasses(pools[i], pools[i + 1]);
      }
      UnseenUpdatesChangeNothing(before);
      assert !UpdatePasses(pools[|pools| - 2], pools[|pools| - 1]);
    }
  }

  /** A release is never hidden by the filter. */
  lemma ReleaseIsSeen(pools: seq<Object>) returns (i: nat)
    requires pools != [] && Releases(pools[0]) != Releases(pools[|pools| - 1])
    ensures i < |pools| - 1 && UpdatePasses(pools[i], pools[i + 1])
  {
    if k :| 0 <= k < |pools| - 1 && UpdatePasses(pools[k], pools[k + 1]) {
      i := k;
    } else {
      UnseenUpdatesChangeNothing(pools);
      assert false;
    }
  }
}
