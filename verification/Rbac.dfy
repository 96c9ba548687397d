/** Merging of ClusterRole and Role rules: mergeTransitiveRules in pkg/rbac/rbac.go. */
module Rbac {
  import opened Sorting
  import Strings = JsonPointer

  datatype Rule = Rule(apiGroups: seq<string>, resources: seq<string>, resourceNames: seq<string>, verbs: seq<string>)

  /** API group and the sorted, comma-joined resource names. */
  type MergeKey = (string, string)

  datatype GroupInfo = GroupInfo(resourceNames: seq<string>, resources: set<string>, verbs: set<string>)
  type Groups = map<MergeKey, GroupInfo>

  function Elements(s: seq<string>): set<string> { set x | x in s }

  function Join(s: seq<string>): string {
    if s == [] then "" else if |s| == 1 then s[0] else s[0] + [','] + Join(s[1..])
  }

  function NamesKey(rule: Rule): string { Join(SortStrings(rule.resourceNames)) }

  // Grouping. -----------------------------------------------------------------------------------

  function AddGroup(groups: Groups, rule: Rule, apiGroup: string): Groups {
    var key := (apiGroup, NamesKey(rule));
    var info := if key in groups then groups[key] else GroupInfo(SortStrings(rule.resourceNames), {}, {});
    groups[key := info.(resources := info.resources + Elements(rule.resources),
                        verbs := info.verbs + Elements(rule.verbs))]
  }

  function AddGroups(groups: Groups, rule: Rule, apiGroups: seq<string>): Groups {
    if apiGroups == [] then groups
    else AddGroup(AddGroups(groups, rule, apiGroups[..|apiGroups| - 1]), rule, apiGroups[|apiGroups| - 1])
  }

  function Grouped(collected: seq<Rule>): Groups {
    if collected == [] then map[]
    else
      var rule := collected[|collected| - 1];
      AddGroups(Grouped(collected[..|collected| - 1]), rule, rule.apiGroups)
  }

  function NamesOut(names: seq<string>): seq<string> {
    if |names| > 0 && names[0] != "" then names else []
  }

  ghost function RuleFor(groups: Groups, key: MergeKey): Rule
    requires key in groups
  {
    RuleOf(key.0, groups[key])
  }

  ghost function RuleOf(apiGroup: string, info: GroupInfo): Rule {
    Rule([apiGroup], InOrder(info.resources), NamesOut(info.resourceNames), InOrder(info.verbs))
  }

  ghost function RulesFor(groups: Groups, keys: seq<MergeKey>): (rules: seq<Rule>)
    requires forall k <- keys :: k in groups
    ensures |rules| == |keys|
  {
    if keys == [] then []
    else RulesFor(groups, keys[..|keys| - 1]) + [RuleFor(groups, keys[|keys| - 1])]
  }

  lemma {:induction false} RulesForAt(groups: Groups, keys: seq<MergeKey>, i: nat)
    requires (forall k <- keys :: k in groups) && i < |keys|
    ensures RulesFor(groups, keys)[i] == RuleFor(groups, keys[i])
  {
    if i < |keys| - 1 { RulesForAt(groups, keys[..|keys| - 1], i); }
  }

  ghost function Emitted(groups: Groups): seq<Rule> { RulesFor(groups, PairsInOrder(groups.Keys)) }

  ghost function Merged(collected: seq<Rule>): seq<Rule> { Emitted(Grouped(collected)) }

  method AddRuleToGroup(groups: Groups, rule: Rule, sortedNames: seq<string>, key: MergeKey) returns (r: Groups)
    requires sortedNames == SortStrings(rule.resourceNames) && key.1 == NamesKey(rule)
    ensures r == AddGroup(groups, rule, key.0)
  {
    var info := if key in groups then groups[key] else GroupInfo(sortedNames, {}, {});
    var resources, verbs := info.resources, info.verbs;
    for n := 0 to |rule.resources|
      invariant resources == info.resources + Elements(rule.resources[..n])
    {
      resources := resources + {rule.resources[n]};
    }
    for n := 0 to |rule.verbs|
      invariant verbs == info.verbs + Elements(rule.verbs[..n])
    {
      verbs := verbs + {rule.verbs[n]};
    }
    assert rule.resources[..|rule.resources|] == rule.resources && rule.verbs[..|rule.verbs|] == rule.verbs;
    r := groups[key := info.(resources := resources, verbs := verbs)];
  }

  method GroupRules(collected: seq<Rule>) returns (groups: Groups)
    ensures groups == Grouped(collected)
  {
    groups := map[];
    for i := 0 to |collected|
      invariant groups == Grouped(collected[..i])
    {
      var rule := collected[i];
      var sortedNames := SortStrings(rule.resourceNames);
      var namesKey := Join(sortedNames);
      ghost var before := groups;
      for j := 0 to |rule.apiGroups|
        invariant groups == AddGroups(before, rule, rule.apiGroups[..j])
      {
        groups := AddRuleToGroup(groups, rule, sortedNames, (rule.apiGroups[j], namesKey));
        assert rule.apiGroups[..j + 1][..j] == rule.apiGroups[..j];
      }
      assert rule.apiGroups[..|rule.apiGroups|] == rule.apiGroups;
      assert collected[..i + 1][..i] == collected[..i];
    }
    assert collected[..|collected|] == collected;
  }

  method EmitRule(apiGroup: string, info: GroupInfo) returns (rule: Rule)
    ensures rule == RuleOf(apiGroup, info)
  {
    var resources := SortedStringKeys(info.resources);
    var verbs := SortedStringKeys(info.verbs);
    rule := Rule([apiGroup], resources, [], verbs);
    if |info.resourceNames| > 0 && info.resourceNames[0] != "" {
      rule := rule.(resourceNames := info.resourceNames);
    }
  }

  method EmitRules(groups: Groups, keys: seq<MergeKey>) returns (result: seq<Rule>)
    requires forall k <- keys :: k in groups
    ensures result == RulesFor(groups, keys)
  {
    result := [];
    for i := 0 to |keys|
      invariant result == RulesFor(groups, keys[..i])
    {
      var key := keys[i];
      var rule := EmitRule(key.0, groups[key]);
      assert keys[..i + 1][..i] == keys[..i];
      result := result + [rule];
    }
    assert keys[..|keys|] == keys;
  }

  method MergeTransitiveRules(collected: seq<Rule>) returns (result: seq<Rule>)
    ensures result == Merged(collected)
  {
    var groups := GroupRules(collected);
    var keys := SortedPairKeys(groups.Keys);
    result := EmitRules(groups, keys);
  }

  // What the groups hold. -----------------------------------------------------------------------

  predicate Feeds(rule: Rule, key: MergeKey) {
    key.0 in rule.apiGroups && key.1 == NamesKey(rule)
  }

  lemma {:induction false} AddGroupsAt(groups: Groups, rule: Rule, apiGroups: seq<string>, key: MergeKey)
    ensures var r := AddGroups(groups, rule, apiGroups);
            var fed := key.0 in apiGroups && key.1 == NamesKey(rule);
            && (key in r <==> key in groups || fed)
            && (key in groups && !fed ==> r[key] == groups[key])
            && (fed ==>
                  var names := SortStrings(rule.resourceNames);
                  var before := if key in groups then groups[key] else GroupInfo(names, {}, {});
                  && r[key].resources == before.resources + Elements(rule.resources)
                  && r[key].verbs == before.verbs + Elements(rule.verbs)
                  && r[key].resourceNames == before.resourceNames)
  {
    if apiGroups != [] {
      var before := apiGroups[..|apiGroups| - 1];
      AddGroupsAt(groups, rule, before, key);
      assert apiGroups == before + [apiGroups[|apiGroups| - 1]];
    }
  }

  /** The resources, or the verbs, of the rules that feed a group. */
  function Fed(collected: seq<Rule>, key: MergeKey, part: Rule -> seq<string>): set<string> {
    if collected == [] then {}
    else
      var rule := collected[|collected| - 1];
      Fed(collected[..|collected| - 1], key, part) + if Feeds(rule, key) then Elements(part(rule)) else {}
  }

  const RESOURCES: Rule -> seq<string> := (r: Rule) => r.resources
  const VERBS: Rule -> seq<string> := (r: Rule) => r.verbs

  lemma {:induction false} FedFrom(collected: seq<Rule>, key: MergeKey, part: Rule -> seq<string>, x: string)
    ensures x in Fed(collected, key, part) <==>
            exists i :: 0 <= i < |collected| && Feeds(collected[i], key) && x in part(collected[i])
  {
    if collected != [] {
      var n := |collected| - 1;
      FedFrom(collected[..n], key, part, x);
      assert forall i :: 0 <= i < n ==> collected[..n][i] == collected[i];
    }
  }

  /** A group holds exactly what the rules feeding it hold. */
  lemma {:induction false} GroupedParts(collected: seq<Rule>, key: MergeKey)
    ensures var gs := Grouped(collected);
            && (key in gs ==> gs[key].resources == Fed(collected, key, RESOURCES))
            && (key in gs ==> gs[key].verbs == Fed(collected, key, VERBS))
            && (key !in gs ==> Fed(collected, key, RESOURCES) == Fed(collected, key, VERBS) == {})
  {
    if collected != [] {
      var n := |collected| - 1;
      GroupedParts(collected[..n], key);
      AddGroupsAt(Grouped(collected[..n]), collected[n], collected[n].apiGroups, key);
    }
  }

  /** A group exists when some rule feeds it, and has the names of one that does. */
  lemma {:induction false} GroupedNames(collected: seq<Rule>, key: MergeKey)
    ensures forall i :: 0 <= i < |collected| && Feeds(collected[i], key) ==> key in Grouped(collected)
    ensures key in Grouped(collected) ==>
              exists i :: 0 <= i < |collected| && Feeds(collected[i], key)
                       && Grouped(collected)[key].resourceNames == SortStrings(collected[i].resourceNames)
  {
    if collected != [] {
      var n := |collected| - 1;
      var before, rule := collected[..n], collected[n];
      GroupedNames(before, key);
      AddGroupsAt(Grouped(before), rule, rule.apiGroups, key);
      assert forall i :: 0 <= i < n ==> collected[i] == before[i];
      if key in Grouped(before) {
        var i :| 0 <= i < n && Feeds(before[i], key)
          && Grouped(before)[key].resourceNames == SortStrings(before[i].resourceNames);
        assert Feeds(collected[i], key);
      }
    }
  }

  // Names that join unambiguously. --------------------------------------------------------------

  /** Resource names as the API allows them: non-empty and without a comma. */
  predicate CleanNames(names: seq<string>) {
    forall n <- names :: n != "" && ',' !in n
  }

  predicate CleanRules(collected: seq<Rule>) {
    forall i :: 0 <= i < |collected| ==> CleanNames(collected[i].resourceNames)
  }

  lemma SplitFirst(name: string, rest: string, names: seq<string>)
    requires ',' !in name && Strings.Split(rest, ',') == names
    ensures Strings.Split(name + [','] + rest, ',') == [name] + names
  {
    Strings.SplitAfterSegment(name, rest, ',');
  }

  lemma {:induction false} SplitJoin(names: seq<string>)
    requires names != [] && CleanNames(names)
    ensures Strings.Split(Join(names), ',') == names && Join(names) != ""
  {
    var first, rest := names[0], names[1..];
    assert first in names && forall n <- rest :: n in names;
    if |names| == 1 {
      Strings.SplitAfterSegment(first, "", ',');
      assert names == [first];
    } else {
      SplitJoin(rest);
      SplitFirst(first, Join(rest), rest);
      assert names == [first] + rest;
    }
  }

  lemma CleanSort(names: seq<string>)
    requires CleanNames(names)
    ensures CleanNames(SortStrings(names))
  {}

  lemma SameKeySameNames(a: Rule, b: Rule)
    requires CleanNames(a.resourceNames) && CleanNames(b.resourceNames) && NamesKey(a) == NamesKey(b)
    ensures SortStrings(a.resourceNames) == SortStrings(b.resourceNames)
  {
    CleanSort(a.resourceNames);
    CleanSort(b.resourceNames);
    var x, y := SortStrings(a.resourceNames), SortStrings(b.resourceNames);
    if x != [] { SplitJoin(x); }
    if y != [] { SplitJoin(y); }
  }

  // When groups keep the names of their rules. --------------------------------------------------

  predicate ShareGroup(a: Rule, b: Rule) {
    NamesKey(a) == NamesKey(b) && exists g :: g in a.apiGroups && g in b.apiGroups
  }

  /** Rules whose joined names collide within an API group have the same names, and no name is empty. */
  predicate ScopesApart(collected: seq<Rule>) {
    && (forall i, j :: 0 <= i < |collected| && 0 <= j < |collected| && ShareGroup(collected[i], collected[j]) ==>
          SortStrings(collected[i].resourceNames) == SortStrings(collected[j].resourceNames))
    && (forall i :: 0 <= i < |collected| && collected[i].apiGroups != [] ==> "" !in collected[i].resourceNames)
  }

  /** The output rule for an API group of a rule has the names of that rule. */
  ghost predicate KeepsNames(collected: seq<Rule>, i: nat, apiGroup: string)
    requires i < |collected|
  {
    var key := (apiGroup, NamesKey(collected[i]));
    && key in Grouped(collected)
    && RuleFor(Grouped(collected), key).resourceNames == SortStrings(collected[i].resourceNames)
  }

  lemma NamesComeOut(names: seq<string>)
    ensures NamesOut(SortStrings(names)) == SortStrings(names) <==> "" !in names
  {
    var r := SortStrings(names);
    LessStrict();
    if "" in names {
      assert "" in r;
      SortedFirst(Less, r, "");
    } else if r != [] {
      assert r[0] in names;
    }
  }

  lemma NamesInGroup(collected: seq<Rule>, i: nat, key: MergeKey)
    requires ScopesApart(collected) && i < |collected| && Feeds(collected[i], key)
    ensures key in Grouped(collected)
    ensures RuleFor(Grouped(collected), key).resourceNames == SortStrings(collected[i].resourceNames)
  {
    GroupedNames(collected, key);
    var j :| 0 <= j < |collected| && Feeds(collected[j], key)
      && Grouped(collected)[key].resourceNames == SortStrings(collected[j].resourceNames);
    assert ShareGroup(collected[i], collected[j]);
    NamesComeOut(collected[i].resourceNames);
  }

  /** The names of every rule survive the merge exactly when colliding rules have the same names and none is empty. */
  lemma MergeKeepsNamesIff(collected: seq<Rule>)
    ensures (forall i, g :: 0 <= i < |collected| && g in collected[i].apiGroups ==> KeepsNames(collected, i, g)) <==>
            ScopesApart(collected)
  {
    if ScopesApart(collected) {
      forall i, g | 0 <= i < |collected| && g in collected[i].apiGroups ensures KeepsNames(collected, i, g) {
        assert Feeds(collected[i], (g, NamesKey(collected[i])));
        NamesInGroup(collected, i, (g, NamesKey(collected[i])));
      }
    } else if forall i, g :: 0 <= i < |collected| && g in collected[i].apiGroups ==> KeepsNames(collected, i, g) {
      KeptNamesAreApart(collected);
    }
  }

  lemma KeptNamesAreApart(collected: seq<Rule>)
    requires forall i, g :: 0 <= i < |collected| && g in collected[i].apiGroups ==> KeepsNames(collected, i, g)
    ensures ScopesApart(collected)
  {
    forall i, j | 0 <= i < |collected| && 0 <= j < |collected| && ShareGroup(collected[i], collected[j])
      ensures SortStrings(collected[i].resourceNames) == SortStrings(collected[j].resourceNames)
    {
      var g :| g in collected[i].apiGroups && g in collected[j].apiGroups;
      assert KeepsNames(collected, i, g) && KeepsNames(collected, j, g);
    }
    forall i | 0 <= i < |collected| && collected[i].apiGroups != [] ensures "" !in collected[i].resourceNames {
      var g := collected[i].apiGroups[0];
      assert KeepsNames(collected, i, g);
      GroupedNames(collected, (g, NamesKey(collected[i])));
      NamesComeOutAs(Grouped(collected)[(g, NamesKey(collected[i]))].resourceNames, collected[i].resourceNames);
    }
  }

  lemma NamesComeOutAs(info: seq<string>, names: seq<string>)
    requires NamesOut(info) == SortStrings(names)
    ensures "" !in names
  {
    assert SortStrings(names) != [] ==> NamesOut(SortStrings(names)) == SortStrings(names);
    NamesComeOut(names);
  }

  /** Names as the API allows them keep scopes apart. */
  lemma CleanIsApart(collected: seq<Rule>)
    requires CleanRules(collected)
    ensures ScopesApart(collected)
  {
    forall i, j | 0 <= i < |collected| && 0 <= j < |collected| && ShareGroup(collected[i], collected[j])
      ensures SortStrings(collected[i].resourceNames) == SortStrings(collected[j].resourceNames)
    {
      SameKeySameNames(collected[i], collected[j]);
    }
  }

  lemma OneKeyForTwoScopes()
    ensures SortStrings(["a,b"]) == ["a,b"] && SortStrings(["a", "b"]) == ["a", "b"]
    ensures Join(["a,b"]) == Join(["a", "b"])
  {
    LessStrict();
    assert Less("a", "b");
    SortedUnique(Less, SortStrings(["a,b"]), ["a,b"]);
    SortedUnique(Less, SortStrings(["a", "b"]), ["a", "b"]);
    assert ["a", "b"][1..] == ["b"];
  }

  /** Names with a comma need not: a rule for the name `a,b` and one for `a` and `b` fall into one group. */
  lemma CommasCollide(one: Rule, two: Rule)
    requires one.resourceNames == ["a,b"] && two.resourceNames == ["a", "b"]
    requires exists g :: g in one.apiGroups && g in two.apiGroups
    ensures !ScopesApart([one, two])
  {
    OneKeyForTwoScopes();
    assert ShareGroup([one, two][0], [one, two][1]);
    assert |["a,b"]| != |["a", "b"]|;
  }

  lemma KeyHasRule(collected: seq<Rule>, key: MergeKey) returns (k: nat)
    requires key in Grouped(collected)
    ensures k < |Merged(collected)| && Merged(collected)[k] == RuleFor(Grouped(collected), key)
  {
    var keys := PairsInOrder(Grouped(collected).Keys);
    assert key in keys;
    k :| 0 <= k < |keys| && keys[k] == key;
    RulesForAt(Grouped(collected), keys, k);
  }

  lemma KeyOfRule(collected: seq<Rule>, k: nat) returns (key: MergeKey)
    requires k < |Merged(collected)|
    ensures key in Grouped(collected) && Merged(collected)[k] == RuleFor(Grouped(collected), key)
    ensures key == PairsInOrder(Grouped(collected).Keys)[k]
  {
    key := PairsInOrder(Grouped(collected).Keys)[k];
    assert key in PairsInOrder(Grouped(collected).Keys);
    RulesForAt(Grouped(collected), PairsInOrder(Grouped(collected).Keys), k);
  }

  // Theorems. -----------------------------------------------------------------------------------

  /** Every permission of every input rule is granted by an output rule for the same names. */
  lemma MergeLosesNothing(collected: seq<Rule>, i: nat, apiGroup: string, resource: string, verb: string)
    returns (k: nat)
    requires ScopesApart(collected) && i < |collected|
    requires apiGroup in collected[i].apiGroups && resource in collected[i].resources && verb in collected[i].verbs
    ensures k < |Merged(collected)|
    ensures var out := Merged(collected)[k];
            && out.apiGroups == [apiGroup] && resource in out.resources && verb in out.verbs
            && (forall n :: n in out.resourceNames <==> n in collected[i].resourceNames)
  {
    var key := (apiGroup, NamesKey(collected[i]));
    assert Feeds(collected[i], key);
    GroupedParts(collected, key);
    FedFrom(collected, key, RESOURCES, resource);
    FedFrom(collected, key, VERBS, verb);
    NamesInGroup(collected, i, key);
    k := KeyHasRule(collected, key);
  }

  /** Every resource and every verb of an output rule comes from an input for that group and those names. */
  lemma MergeAddsNothing(collected: seq<Rule>, k: nat)
    requires ScopesApart(collected) && k < |Merged(collected)|
    ensures var out := Merged(collected)[k];
            && |out.apiGroups| == 1
            && (forall x :: x in out.resources ==>
                  exists i :: 0 <= i < |collected| && FromInput(collected[i], out) && x in collected[i].resources)
            && (forall x :: x in out.verbs ==>
                  exists i :: 0 <= i < |collected| && FromInput(collected[i], out) && x in collected[i].verbs)
  {
    var gs := Grouped(collected);
    var key := KeyOfRule(collected, k);
    var out := Merged(collected)[k];
    GroupedParts(collected, key);
    forall x | x in gs[key].resources
      ensures exists i :: 0 <= i < |collected| && Feeds(collected[i], key) && x in RESOURCES(collected[i])
    {
      FedFrom(collected, key, RESOURCES, x);
    }
    forall x | x in gs[key].verbs
      ensures exists i :: 0 <= i < |collected| && Feeds(collected[i], key) && x in VERBS(collected[i])
    {
      FedFrom(collected, key, VERBS, x);
    }
    forall i | 0 <= i < |collected| && Feeds(collected[i], key) ensures FromInput(collected[i], out)
    {
      NamesInGroup(collected, i, key);
    }
  }

  predicate FromInput(rule: Rule, out: Rule) {
    && |out.apiGroups| == 1 && out.apiGroups[0] in rule.apiGroups
    && out.resourceNames == SortStrings(rule.resourceNames)
  }

  /** There is one output rule per API group and list of names. */
  lemma MergeOneRulePerScope(collected: seq<Rule>, j: nat, k: nat)
    requires ScopesApart(collected) && j < k < |Merged(collected)|
    ensures var a, b := Merged(collected)[j], Merged(collected)[k];
            a.apiGroups != b.apiGroups || a.resourceNames != b.resourceNames
  {
    var x := KeyOfRule(collected, j);
    var y := KeyOfRule(collected, k);
    OutputNamesGiveKey(collected, x);
    OutputNamesGiveKey(collected, y);
  }

  /** The output rules ascend by API group and then by names, and the resources and verbs of each ascend too. */
  lemma MergeIsSorted(collected: seq<Rule>, j: nat, k: nat)
    requires ScopesApart(collected) && j < k < |Merged(collected)|
    ensures ScopeBefore(ScopeOf(Merged(collected)[j]), ScopeOf(Merged(collected)[k]))
    ensures forall out <- [Merged(collected)[j], Merged(collected)[k]] ::
              Ascending(out.resources) && Ascending(out.verbs)
  {
    ScopesAscend(collected, j, k);
    PartsAscend(collected, j);
    PartsAscend(collected, k);
  }

  predicate ScopeBefore(a: (string, string), b: (string, string)) { Less(a.0, b.0) || (a.0 == b.0 && Less(a.1, b.1)) }

  lemma ScopesAscend(collected: seq<Rule>, j: nat, k: nat)
    requires ScopesApart(collected) && j < k < |Merged(collected)|
    ensures ScopeBefore(ScopeOf(Merged(collected)[j]), ScopeOf(Merged(collected)[k]))
  {
    var x := KeyOfRule(collected, j);
    var y := KeyOfRule(collected, k);
    ScopeIsKey(collected, x);
    ScopeIsKey(collected, y);
    PairsAreSorted(Grouped(collected).Keys);
    assert PairLess(x, y);
  }

  lemma PartsAscend(collected: seq<Rule>, k: nat)
    requires k < |Merged(collected)|
    ensures Ascending(Merged(collected)[k].resources) && Ascending(Merged(collected)[k].verbs)
  {
    var x := KeyOfRule(collected, k);
    RuleIsSorted(x.0, Grouped(collected)[x]);
  }

  function ScopeOf(out: Rule): (string, string) {
    (if |out.apiGroups| == 1 then out.apiGroups[0] else "", Join(out.resourceNames))
  }

  lemma ScopeIsKey(collected: seq<Rule>, key: MergeKey)
    requires ScopesApart(collected) && key in Grouped(collected)
    ensures ScopeOf(RuleFor(Grouped(collected), key)) == key
  {
    OutputNamesGiveKey(collected, key);
  }

  predicate Ascending(s: seq<string>) { forall i, j :: 0 <= i < j < |s| ==> Less(s[i], s[j]) }

  lemma RuleIsSorted(apiGroup: string, info: GroupInfo)
    ensures Ascending(RuleOf(apiGroup, info).resources) && Ascending(RuleOf(apiGroup, info).verbs)
  {
    InOrderIsSorted(info.resources);
    InOrderIsSorted(info.verbs);
  }

  lemma OutputNamesGiveKey(collected: seq<Rule>, key: MergeKey)
    requires ScopesApart(collected) && key in Grouped(collected)
    ensures Join(RuleFor(Grouped(collected), key).resourceNames) == key.1
  {
    GroupedNames(collected, key);
    var i :| 0 <= i < |collected| && Feeds(collected[i], key);
    NamesInGroup(collected, i, key);
  }

  /** Two collections of the same rules, in any order and with any repetition, merge to the same list. */
  lemma MergeIgnoresOrder(a: seq<Rule>, b: seq<Rule>)
    requires ScopesApart(a)
    requires forall r :: r in a <==> r in b
    ensures Merged(a) == Merged(b)
  {
    var ga, gb := Grouped(a), Grouped(b);
    forall key ensures (key in ga) == (key in gb)
    {
      FedInBoth(a, b, key);
      FedInBoth(b, a, key);
    }
    forall key | key in ga && key in gb ensures ga[key] == gb[key]
    {
      SameGroup(a, b, key);
    }
    assert ga == gb;
  }

  lemma FedInBoth(a: seq<Rule>, b: seq<Rule>, key: MergeKey)
    requires forall r :: r in a ==> r in b
    ensures key in Grouped(a) ==> key in Grouped(b)
    ensures key in Grouped(a) ==> Grouped(a)[key].resources <= Grouped(b)[key].resources
    ensures key in Grouped(a) ==> Grouped(a)[key].verbs <= Grouped(b)[key].verbs
  {
    GroupedNames(a, key);
    GroupedNames(b, key);
    GroupedParts(a, key);
    GroupedParts(b, key);
    FedMonotone(a, b, key, RESOURCES);
    FedMonotone(a, b, key, VERBS);
    if key in Grouped(a) {
      var i :| 0 <= i < |a| && Feeds(a[i], key);
      assert a[i] in b;
    }
  }

  lemma FedMonotone(a: seq<Rule>, b: seq<Rule>, key: MergeKey, part: Rule -> seq<string>)
    requires forall r :: r in a ==> r in b
    ensures Fed(a, key, part) <= Fed(b, key, part)
  {
    forall x | x in Fed(a, key, part) ensures x in Fed(b, key, part)
    {
      FedFrom(a, key, part, x);
      FedFrom(b, key, part, x);
      var i :| 0 <= i < |a| && Feeds(a[i], key) && x in part(a[i]);
      assert a[i] in b;
    }
  }

  lemma SameGroup(a: seq<Rule>, b: seq<Rule>, key: MergeKey)
    requires ScopesApart(a)
    requires forall r :: r in a <==> r in b
    requires key in Grouped(a) && key in Grouped(b)
    ensures Grouped(a)[key] == Grouped(b)[key]
  {
    FedInBoth(a, b, key);
    FedInBoth(b, a, key);
    SameGroupNames(a, b, key);
  }

  lemma SameGroupNames(a: seq<Rule>, b: seq<Rule>, key: MergeKey)
    requires ScopesApart(a)
    requires forall r :: r in a <==> r in b
    requires key in Grouped(a) && key in Grouped(b)
    ensures Grouped(a)[key].resourceNames == Grouped(b)[key].resourceNames
  {
    GroupedNames(a, key);
    GroupedNames(b, key);
    var i :| 0 <= i < |a| && Feeds(a[i], key) && Grouped(a)[key].resourceNames == SortStrings(a[i].resourceNames);
    var j :| 0 <= j < |b| && Feeds(b[j], key) && Grouped(b)[key].resourceNames == SortStrings(b[j].resourceNames);
    assert b[j] in a;
    var m :| 0 <= m < |a| && a[m] == b[j];
    assert ShareGroup(a[i], a[m]);
  }
}
