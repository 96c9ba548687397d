/** The readiness gate opens: once the aggregate is applied and the Machine Config Operator has taken it over, every
    active dependent whose policy asks for actions passes (pkg/engine/node_disruption_policy.go). */
module GateOpening {
  import opened JsonTree
  import opened NodeDisruptionPolicy
  import opened PolicyAggregation
  import opened Platform
  import opened PlatformProgress
  import Coalescing

  // What a policy must ask for. -----------------------------------------------------------------------------

  predicate HasActions(o: Object) { NestedList(o, ["actions"]).Found? }

  predicate AllHaveActions(list: seq<Json>) { forall w <- list :: w.Obj? && HasActions(w.fields) }

  /** A list, if there is one, asks for something and for actions in every entry. */
  predicate KeyedRequests(want: Object, k: Keyed) {
    match NestedList(want, [k.field])
    case Mismatch => false
    case Missing => true
    case Found(list) => list != [] && AllHaveActions(list)
  }

  predicate SshRequests(want: Object) {
    match NestedObj(want, ["sshkey"])
    case Mismatch => false
    case Missing => true
    case Found(o) => HasActions(o)
  }

  /** The policy asks for something, and for actions wherever it asks. */
  predicate Requests(want: Object) {
    && KeyedRequests(want, FILES) && KeyedRequests(want, UNITS) && SshRequests(want)
    && (NestedList(want, ["files"]).Found? || NestedList(want, ["units"]).Found? || NestedObj(want, ["sshkey"]).Found?)
  }

  // The entries of a dependent in the merged policy. --------------------------------------------------------

  /** An entry of an active dependent's policy is in the aggregate, under its identifier. */
  lemma DependentEntry(assets: seq<Asset>, scope: Scope, a: Aggregate, asset: Asset, want: Object, k: Keyed, w: Json)
    requires Aggregated(assets, scope) == Some(a) && asset in assets && Contributes(asset, scope, want)
    requires (k == FILES || k == UNITS) && NestedList(want, [k.field]).Found? && w in NestedList(want, [k.field]).value
    ensures WellKeyed(w, k.id) && Holds(EntriesFor(a, k), NestedStr(w.fields, [k.id]).value, w.fields)
  {
    var part := if k == FILES then Files else Units;
    PartExact(assets, scope, part);
    assert Sound(asset, scope, part);
    assert EntryOf(want, part, NestedStr(w.fields, [k.id]).value, w.fields);
    assert Supplies(asset, scope, part, NestedStr(w.fields, [k.id]).value, w.fields);
    assert Supplied(assets, scope, part, NestedStr(w.fields, [k.id]).value, w.fields);
  }

  lemma {:induction false} FirstIsOwn(list: seq<Json>, id: string, name: string, fields: Object)
    requires Obj(fields) in list && AnswersTo(Obj(fields), id, name)
    requires forall e <- list :: AnswersTo(e, id, name) ==> e == Obj(fields)
    ensures FirstMatches(list, id, name, fields) <==> HasActions(fields)
  {
    if !AnswersTo(list[0], id, name) {
      assert forall e <- list[1..] :: e in list;
      FirstIsOwn(list[1..], id, name, fields);
    }
  }

  /** In the merged list the entry of a dependent is the only one that answers to its identifier. */
  lemma OwnEntryMatches(assets: seq<Asset>, scope: Scope, a: Aggregate, config: Object,
                        others: map<(string, string), set<string>>, k: Keyed, w: Json)
    requires Aggregated(assets, scope) == Some(a) && (k == FILES || k == UNITS)
    requires WellKeyed(w, k.id) && Holds(EntriesFor(a, k), NestedStr(w.fields, [k.id]).value, w.fields)
    ensures var list := NestedList(MergedPolicy(config, others, DesiredConfig(PolicyObject(a))), [k.field]);
            list.Found? && (EntryMatches(list.value, w, k.id) <==> HasActions(w.fields))
  {
    var name, entries := NestedStr(w.fields, [k.id]).value, EntriesFor(a, k);
    var list := NestedList(MergedPolicy(config, others, DesiredConfig(PolicyObject(a))), [k.field]);
    MergedEntries(assets, scope, a, config, others, k, w);
    AggregateIsFiled(assets, scope, a, k);
    assert name in entries && w == Obj(entries[name]);
    forall e <- list.value ensures AnswersTo(e, k.id, name) ==> e == Obj(w.fields) {
      MergedEntries(assets, scope, a, config, others, k, e);
    }
    FirstIsOwn(list.value, k.id, name, w.fields);
  }

  lemma KeyedAnswerIs(merged: Object, want: Object, k: Keyed, got: seq<Json>)
    requires NestedList(merged, [k.field]) == Found(got) && !NestedList(want, [k.field]).Mismatch?
    requires NestedList(want, [k.field]).Found? ==>
               var list := NestedList(want, [k.field]).value;
               forall w <- list :: MatchesIfActions(got, w, k.id)
    ensures var answer := KeyedAnswer(merged, want, k);
            && (answer.None? <==> NestedList(want, [k.field]).Missing?)
            && (answer in {None, Some(Yes)} <==> KeyedRequests(want, k))
  {
    if NestedList(want, [k.field]).Found? { AllMatch(got, NestedList(want, [k.field]).value, k.id); }
  }

  /** The policy of an active dependent is well formed if aggregation succeeds. */
  lemma WantIsSound(assets: seq<Asset>, scope: Scope, a: Aggregate, asset: Asset, want: Object, part: Part)
    requires Aggregated(assets, scope) == Some(a) && asset in assets && Contributes(asset, scope, want)
    ensures WellFormedPart(want, part)
  {
    PartExact(assets, scope, part);
    assert Sound(asset, scope, part);
  }

  ghost predicate MatchesIfActions(got: seq<Json>, w: Json, id: string) {
    w.Obj? && (EntryMatches(got, w, id) <==> HasActions(w.fields))
  }

  lemma DependentMatches(assets: seq<Asset>, scope: Scope, a: Aggregate, asset: Asset, want: Object, config: Object,
                         others: map<(string, string), set<string>>, k: Keyed, w: Json)
    requires Aggregated(assets, scope) == Some(a) && asset in assets && Contributes(asset, scope, want)
    requires k == FILES || k == UNITS
    requires NestedList(want, [k.field]).Found? && w in NestedList(want, [k.field]).value
    ensures var list := NestedList(MergedPolicy(config, others, DesiredConfig(PolicyObject(a))), [k.field]);
            list.Found? && MatchesIfActions(list.value, w, k.id)
  {
    DependentEntry(assets, scope, a, asset, want, k, w);
    OwnEntryMatches(assets, scope, a, config, others, k, w);
  }

  lemma KeyedOpens(assets: seq<Asset>, scope: Scope, a: Aggregate, asset: Asset, want: Object, merged: Object,
                   config: Object, others: map<(string, string), set<string>>, k: Keyed)
    requires Aggregated(assets, scope) == Some(a) && asset in assets && Contributes(asset, scope, want)
    requires k == FILES || k == UNITS
    requires merged == MergedPolicy(config, others, DesiredConfig(PolicyObject(a)))
    ensures var answer := KeyedAnswer(merged, want, k);
            && (answer.None? <==> NestedList(want, [k.field]).Missing?)
            && (answer in {None, Some(Yes)} <==> KeyedRequests(want, k))
  {
    WantIsSound(assets, scope, a, asset, want, if k == FILES then Files else Units);
    MergedIdentified(assets, scope, a, config, others, k);
    var got, list := NestedList(merged, [k.field]).value, NestedList(want, [k.field]);
    if list.Found? {
      forall w <- list.value ensures MatchesIfActions(got, w, k.id) {
        DependentMatches(assets, scope, a, asset, want, config, others, k, w);
      }
    }
    KeyedAnswerIs(merged, want, k, got);
  }

  lemma AllMatch(got: seq<Json>, want: seq<Json>, id: string)
    requires forall w <- want :: MatchesIfActions(got, w, id)
    ensures (forall i :: 0 <= i < |want| ==> EntryMatches(got, want[i], id)) <==> AllHaveActions(want)
  {
    if forall i :: 0 <= i < |want| ==> EntryMatches(got, want[i], id) {
      forall w <- want ensures w.Obj? && HasActions(w.fields) {
        var i :| 0 <= i < |want| && want[i] == w;
        assert EntryMatches(got, want[i], id) && MatchesIfActions(got, w, id);
      }
    }
    if AllHaveActions(want) {
      forall i | 0 <= i < |want| ensures EntryMatches(got, want[i], id) {
        assert want[i] in want && MatchesIfActions(got, want[i], id);
      }
    }
  }

  lemma MergedSsh(a: Aggregate, config: Object, others: map<(string, string), set<string>>)
    requires "sshkey" in a.sshKey
    ensures NestedObj(MergedPolicy(config, others, DesiredConfig(PolicyObject(a))), ["sshkey"]) ==
            Found(a.sshKey["sshkey"])
  {
    DesiredSpec(PolicyObject(a));
    FieldAt(PolicyObject(a), "sshkey");
    FieldAt(MergedPolicy(config, others, DesiredConfig(PolicyObject(a))), "sshkey");
  }

  lemma SshOpens(assets: seq<Asset>, scope: Scope, a: Aggregate, asset: Asset, want: Object, config: Object,
                 others: map<(string, string), set<string>>)
    requires Aggregated(assets, scope) == Some(a) && asset in assets && Contributes(asset, scope, want)
    ensures !NestedObj(want, ["sshkey"]).Mismatch?
    ensures var answer := SshAnswer(MergedPolicy(config, others, DesiredConfig(PolicyObject(a))), want);
            && (answer.None? <==> NestedObj(want, ["sshkey"]).Missing?)
            && (answer in {None, Some(Yes)} <==> SshRequests(want))
  {
    PartExact(assets, scope, SshKey);
    assert Sound(asset, scope, SshKey);
    if NestedObj(want, ["sshkey"]).Found? {
      var key := NestedObj(want, ["sshkey"]).value;
      assert EntryOf(want, SshKey, "sshkey", key);
      assert Supplies(asset, scope, SshKey, "sshkey", key);
      assert Supplied(assets, scope, SshKey, "sshkey", key);
      assert Holds(a.sshKey, "sshkey", key);
      MergedSsh(a, config, others);
    }
  }

  // The gate. -----------------------------------------------------------------------------------------------

  lemma YesIff(x: Option<Answer>, y: Option<Answer>, z: Option<Answer>)
    ensures Decide([x, y, z], false) == Yes <==>
            && x in {None, Some(Yes)} && y in {None, Some(Yes)} && z in {None, Some(Yes)}
            && (x.Some? || y.Some? || z.Some?)
  {
    DecideThree(x, y, z);
  }

  /** The merged policy fulfils the policy of an active dependent exactly when that asks for actions. */
  lemma MergedFulfilsIff(assets: seq<Asset>, scope: Scope, a: Aggregate, asset: Asset, want: Object, config: Object,
                         others: map<(string, string), set<string>>)
    requires Aggregated(assets, scope) == Some(a) && asset in assets && Contributes(asset, scope, want)
    ensures Effective(MergedPolicy(config, others, DesiredConfig(PolicyObject(a))), want) == Yes <==> Requests(want)
  {
    var merged := MergedPolicy(config, others, DesiredConfig(PolicyObject(a)));
    KeyedOpens(assets, scope, a, asset, want, merged, config, others, FILES);
    KeyedOpens(assets, scope, a, asset, want, merged, config, others, UNITS);
    SshOpens(assets, scope, a, asset, want, config, others);
    YesIff(KeyedAnswer(merged, want, FILES), KeyedAnswer(merged, want, UNITS), SshAnswer(merged, want));
  }

  lemma ReadyIff(dependent: Object, want: Object, config: Object, status: Object)
    requires Coalescing.IsMachineConfig(dependent) && Covers(want, dependent)
    requires EffectivePolicies(config) == Found(status)
    ensures Prepare(dependent, Want(want), ConfigFound(config)).Ready? <==> Effective(status, want) == Yes
  {
  }

  /** After the apply of the aggregate, whatever others manage, and a step of the Machine Config Operator, an active
      dependent passes the gate exactly when its policy asks for actions. */
  lemma GateOpensIff(assets: seq<Asset>, scope: Scope, a: Aggregate, asset: Asset, want: Object, config: Object,
                     others: map<(string, string), set<string>>)
    requires Aggregated(assets, scope) == Some(a) && asset in assets && Contributes(asset, scope, want)
    requires Coalescing.IsMachineConfig(asset.dependent.manifest)
    ensures var observed := ObservedConfig(AppliedConfig(config, others, DesiredConfig(PolicyObject(a))));
            Prepare(asset.dependent.manifest, Want(want), ConfigFound(observed)).Ready? <==> Requests(want)
  {
    MergedFulfilsIff(assets, scope, a, asset, want, config, others);
    ReadyAfter(asset.dependent.manifest, want, config, others, DesiredConfig(PolicyObject(a)));
  }

  lemma ReadyAfter(dependent: Object, want: Object, config: Object, others: map<(string, string), set<string>>,
                   desired: Object)
    requires Coalescing.IsMachineConfig(dependent) && Covers(want, dependent)
    ensures Prepare(dependent, Want(want), ConfigFound(ObservedConfig(AppliedConfig(config, others, desired)))).Ready?
            <==> Effective(MergedPolicy(config, others, desired), want) == Yes
  {
    var applied := AppliedConfig(config, others, desired);
    AppliedPolicies(config, others, desired);
    ObservedPolicies(applied);
    ReadyIff(dependent, want, ObservedConfig(applied), SpecPolicy(applied));
  }

  /** An aggregate with a dependent that asks for something is not empty. */
  lemma RequestsHaveEntries(assets: seq<Asset>, scope: Scope, a: Aggregate, asset: Asset, want: Object)
    requires Aggregated(assets, scope) == Some(a) && asset in assets && Contributes(asset, scope, want)
    requires Requests(want)
    ensures HasEntries(a)
  {
    forall k <- [FILES, UNITS] | NestedList(want, [k.field]).Found? ensures EntriesFor(a, k) != map[] {
      DependentEntry(assets, scope, a, asset, want, k, NestedList(want, [k.field]).value[0]);
    }
    assert FILES in [FILES, UNITS] && UNITS in [FILES, UNITS];
    if NestedObj(want, ["sshkey"]).Found? {
      PartExact(assets, scope, SshKey);
      assert EntryOf(want, SshKey, "sshkey", NestedObj(want, ["sshkey"]).value);
      assert Supplies(asset, scope, SshKey, "sshkey", NestedObj(want, ["sshkey"]).value);
      assert Supplied(assets, scope, SshKey, "sshkey", NestedObj(want, ["sshkey"]).value);
      assert Holds(a.sshKey, "sshkey", NestedObj(want, ["sshkey"]).value);
    }
  }

  /** So a reconcile of the policies and an MCO step let every active dependent that asks for actions pass, also where
      there was no singleton before. */
  lemma PolicyOpensGate(e: Env, inp: Inputs, prune: bool, w: World, a: Aggregate, asset: Asset, want: Object)
    requires Quiet(e) && GoesThrough(inp) && Aggregated(inp.assets, inp.scope) == Some(a) && Unoverridden(w.cluster)
    requires asset in inp.assets && Contributes(asset, inp.scope, want) && Requests(want)
    requires Coalescing.IsMachineConfig(asset.dependent.manifest)
    ensures var c := McoStep(ReconcilePolicy(e, inp, prune, w).world.cluster);
            c.config.Some? && Prepare(asset.dependent.manifest, Want(want), ConfigFound(c.config.value)).Ready?
  {
    RequestsHaveEntries(inp.assets, inp.scope, a, asset, want);
    QuietPolicy(e, inp, prune, w, a);
    var config := if w.cluster.config.Some? then w.cluster.config.value else map[];
    GateOpensIff(inp.assets, inp.scope, a, asset, want, config, w.cluster.others);
  }
}
