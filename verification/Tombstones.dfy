/** Whether an effective node disruption policy still applies to a tombstoned MachineConfig:
    machineConfigHasEffectiveNodeDisruptionPolicy in pkg/engine/tombstone.go. */
module Tombstones {
  import opened JsonTree
  import opened NodeDisruptionPolicy

  datatype Check = Clear | Blocked | CheckError

  /** The identifiers of the entries of a list; None where one has the wrong type. */
  function NamesOf(list: seq<Json>, id: string): Option<set<string>> {
    if list == [] then Some({})
    else
      var last := list[|list| - 1];
      match NamesOf(list[..|list| - 1], id)
      case None => None
      case Some(names) =>
        if !last.Obj? then Some(names)
        else
          match NestedStr(last.fields, [id])
          case Mismatch => None
          case Missing => Some(names)
          case Found(name) => Some(names + {name})
  }

  /** The first entry of a MachineConfig that is named, or has an identifier of the wrong type, decides. */
  function Scan(entries: seq<Json>, id: string, names: set<string>): Check {
    if entries == [] then Clear
    else if !entries[0].Obj? then Scan(entries[1..], id, names)
    else
      match NestedStr(entries[0].fields, [id])
      case Mismatch => CheckError
      case Missing => Scan(entries[1..], id, names)
      case Found(name) => if name in names then Blocked else Scan(entries[1..], id, names)
  }

  function ListOr(a: Access<seq<Json>>): seq<Json> { if a.Found? then a.value else [] }

  function KeyedCheck(machineConfig: Object, effective: Object, k: Keyed): Check {
    var policy := NestedList(effective, [k.field]);
    var own := NestedList(machineConfig, ["spec", "config", k.section, k.field]);
    if policy.Mismatch? then CheckError
    else
      match NamesOf(ListOr(policy), k.id)
      case None => CheckError
      case Some(names) => if own.Mismatch? then CheckError else Scan(ListOr(own), k.id, names)
  }

  function PolicyCheck(machineConfig: Object, effective: Object): Check {
    if KeyedCheck(machineConfig, effective, FILES) == Clear then KeyedCheck(machineConfig, effective, UNITS)
    else KeyedCheck(machineConfig, effective, FILES)
  }

  method HasEffectivePolicy(machineConfig: Object, effective: Object) returns (r: Check)
    ensures r == PolicyCheck(machineConfig, effective)
  {
    r := CheckKeyed(machineConfig, effective, FILES);
    if r == Clear {
      r := CheckKeyed(machineConfig, effective, UNITS);
    }
  }

  method CheckKeyed(machineConfig: Object, effective: Object, k: Keyed) returns (r: Check)
    ensures r == KeyedCheck(machineConfig, effective, k)
  {
    var policy := NestedList(effective, [k.field]);
    if policy.Mismatch? {
      return CheckError;
    }
    var effectiveEntries := ListOr(policy);
    var names := CollectNames(effectiveEntries, k.id);
    if names.None? {
      return CheckError;
    }
    var own := NestedList(machineConfig, ["spec", "config", k.section, k.field]);
    if own.Mismatch? {
      return CheckError;
    }
    var entries := ListOr(own);
    for i := 0 to |entries|
      invariant Scan(entries, k.id, names.value) == Scan(entries[i..], k.id, names.value)
    {
      assert entries[i..][1..] == entries[i + 1..];
      var entry := entries[i];
      if entry.Obj? {
        var name := NestedStr(entry.fields, [k.id]);
        if name.Mismatch? {
          return CheckError;
        }
        if name.Found? && name.value in names.value {
          return Blocked;
        }
      }
    }
    return Clear;
  }

  method CollectNames(entries: seq<Json>, id: string) returns (names: Option<set<string>>)
    ensures names == NamesOf(entries, id)
  {
    var effectiveNames: set<string> := {};
    for i := 0 to |entries|
      invariant NamesOf(entries[..i], id) == Some(effectiveNames)
    {
      assert entries[..i + 1][..i] == entries[..i];
      var entry := entries[i];
      if entry.Obj? {
        var name := NestedStr(entry.fields, [id]);
        if name.Mismatch? {
          MistypedIsFinal(entries, i, id);
          return None;
        }
        if name.Found? {
          effectiveNames := effectiveNames + {name.value};
        }
      }
    }
    assert entries[..|entries|] == entries;
    return Some(effectiveNames);
  }

  lemma {:induction false} MistypedIsFinal(list: seq<Json>, i: nat, id: string)
    requires i < |list| && list[i].Obj? && NestedStr(list[i].fields, [id]).Mismatch?
    ensures NamesOf(list, id).None?
  {
    if i < |list| - 1 { MistypedIsFinal(list[..|list| - 1], i, id); }
  }

  // What the check means. --------------------------------------------------------------------------------

  /** No entry of one kind in the MachineConfig has an entry in the policy list. */
  ghost predicate Unnamed(entries: seq<Json>, policy: seq<Json>, id: string) {
    forall i, name :: 0 <= i < |entries| && Named(entries[i], id, name) ==> !HasNamed(policy, id, name)
  }

  /** No file and no unit of the MachineConfig has an entry in the policy. */
  ghost predicate NoEntries(machineConfig: Object, policy: Object) {
    forall k <- {FILES, UNITS} :: Unnamed(ConfigEntries(machineConfig, k), ListOr(NestedList(policy, [k.field])), k.id)
  }

  /** Identifiers are strings wherever there are any. */
  predicate Typed(list: seq<Json>, id: string) {
    forall i :: 0 <= i < |list| && list[i].Obj? ==> !NestedStr(list[i].fields, [id]).Mismatch?
  }

  lemma {:induction false} NamesOfExact(list: seq<Json>, id: string)
    ensures NamesOf(list, id).Some? <==> Typed(list, id)
    ensures NamesOf(list, id).Some? ==> forall name :: name in NamesOf(list, id).value <==> HasNamed(list, id, name)
  {
    if list != [] {
      var n := |list| - 1;
      NamesOfExact(list[..n], id);
      assert forall i :: 0 <= i < n ==> list[..n][i] == list[i];
      assert forall name :: HasNamed(list, id, name) <==> HasNamed(list[..n], id, name) || Named(list[n], id, name);
    }
  }

  lemma {:induction false} ScanClear(entries: seq<Json>, id: string, names: set<string>)
    ensures Scan(entries, id, names) == Clear <==>
            Typed(entries, id) && forall i, name :: 0 <= i < |entries| && Named(entries[i], id, name) ==> name !in names
  {
    if entries != [] {
      ScanClear(entries[1..], id, names);
      assert forall i :: 0 < i < |entries| ==> entries[i] == entries[1..][i - 1];
      assert forall i :: 0 <= i < |entries[1..]| ==> entries[1..][i] == entries[i + 1];
    }
  }

  predicate WellTyped(machineConfig: Object, policy: Object) {
    forall k <- {FILES, UNITS} ::
      && !NestedList(policy, [k.field]).Mismatch? && Typed(ListOr(NestedList(policy, [k.field])), k.id)
      && !NestedList(machineConfig, ["spec", "config", k.section, k.field]).Mismatch?
      && Typed(ConfigEntries(machineConfig, k), k.id)
  }

  /** The check is clear exactly when everything is of the right type and the policy has no entry for any
      file or unit of the MachineConfig. */
  lemma ClearIffNoEntries(machineConfig: Object, policy: Object)
    ensures PolicyCheck(machineConfig, policy) == Clear <==>
            WellTyped(machineConfig, policy) && NoEntries(machineConfig, policy)
  {
    KeyedClear(machineConfig, policy, FILES);
    KeyedClear(machineConfig, policy, UNITS);
    assert WellTyped(machineConfig, policy) ==> FILES in {FILES, UNITS} && UNITS in {FILES, UNITS};
  }

  lemma KeyedClear(machineConfig: Object, policy: Object, k: Keyed)
    ensures KeyedCheck(machineConfig, policy, k) == Clear <==>
            && !NestedList(policy, [k.field]).Mismatch? && Typed(ListOr(NestedList(policy, [k.field])), k.id)
            && !NestedList(machineConfig, ["spec", "config", k.section, k.field]).Mismatch?
            && Typed(ConfigEntries(machineConfig, k), k.id)
            && Unnamed(ConfigEntries(machineConfig, k), ListOr(NestedList(policy, [k.field])), k.id)
  {
    var list := ListOr(NestedList(policy, [k.field]));
    NamesOfExact(list, k.id);
    if NamesOf(list, k.id).Some? {
      ScanClear(ConfigEntries(machineConfig, k), k.id, NamesOf(list, k.id).value);
    }
  }

  /** The check is blocked only by a file or unit that the policy has an entry for. */
  lemma BlockedHasEntry(machineConfig: Object, policy: Object)
    ensures PolicyCheck(machineConfig, policy) == Blocked ==> !NoEntries(machineConfig, policy)
  {
    KeyedBlocked(machineConfig, policy, FILES);
    KeyedBlocked(machineConfig, policy, UNITS);
    assert PolicyCheck(machineConfig, policy) == Blocked ==> FILES in {FILES, UNITS} && UNITS in {FILES, UNITS};
  }

  lemma KeyedBlocked(machineConfig: Object, policy: Object, k: Keyed)
    ensures KeyedCheck(machineConfig, policy, k) == Blocked ==>
              !Unnamed(ConfigEntries(machineConfig, k), ListOr(NestedList(policy, [k.field])), k.id)
  {
    var list := ListOr(NestedList(policy, [k.field]));
    NamesOfExact(list, k.id);
    if KeyedCheck(machineConfig, policy, k) == Blocked {
      ScanBlocked(ConfigEntries(machineConfig, k), k.id, NamesOf(list, k.id).value);
    }
  }

  lemma {:induction false} ScanBlocked(entries: seq<Json>, id: string, names: set<string>)
    requires Scan(entries, id, names) == Blocked
    ensures exists i, name :: 0 <= i < |entries| && Named(entries[i], id, name) && name in names
  {
    if Scan(entries[1..], id, names) == Blocked {
      ScanBlocked(entries[1..], id, names);
      var i, name :| 0 <= i < |entries[1..]| && Named(entries[1..][i], id, name) && name in names;
      assert Named(entries[i + 1], id, name);
    } else {
      assert Named(entries[0], id, NestedStr(entries[0].fields, [id]).value);
    }
  }

  /** The check fails only where something has the wrong type. */
  lemma WellTypedDecides(machineConfig: Object, policy: Object)
    requires WellTyped(machineConfig, policy)
    ensures PolicyCheck(machineConfig, policy) != CheckError
  {
    assert FILES in {FILES, UNITS} && UNITS in {FILES, UNITS};
    TypedDecides(machineConfig, policy, FILES);
    TypedDecides(machineConfig, policy, UNITS);
  }

  lemma TypedDecides(machineConfig: Object, policy: Object, k: Keyed)
    requires !NestedList(policy, [k.field]).Mismatch? && Typed(ListOr(NestedList(policy, [k.field])), k.id)
    requires !NestedList(machineConfig, ["spec", "config", k.section, k.field]).Mismatch?
    requires Typed(ConfigEntries(machineConfig, k), k.id)
    ensures KeyedCheck(machineConfig, policy, k) != CheckError
  {
    NamesOfExact(ListOr(NestedList(policy, [k.field])), k.id);
    ScanDecides(ConfigEntries(machineConfig, k), k.id, NamesOf(ListOr(NestedList(policy, [k.field])), k.id).value);
  }

  lemma {:induction false} ScanDecides(entries: seq<Json>, id: string, names: set<string>)
    requires Typed(entries, id)
    ensures Scan(entries, id, names) != CheckError
  {
    if entries != [] {
      assert forall i | 0 <= i < |entries[1..]| :: entries[1..][i] == entries[i + 1];
      ScanDecides(entries[1..], id, names);
    }
  }
}
