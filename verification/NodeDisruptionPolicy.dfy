/** Node disruption policies: pkg/engine/node_disruption_policy.go. Coverage of a MachineConfig by a
    policy, the match of a requested policy with the effective one, and the readiness gate built from both. */
module NodeDisruptionPolicy {
  import opened JsonTree
  import opened Coalescing

  const CONFIGURATION_API_VERSION := "operator.openshift.io/v1"
  const CONFIGURATION_KIND := "MachineConfiguration"
  const CONFIGURATION_NAME := "cluster"

  /** A keyed list of the policy: its field, the field that identifies an entry, and the section of a
      MachineConfig's Ignition config in which such entries live. */
  datatype Keyed = Keyed(field: string, id: string, section: string)

  const FILES := Keyed("files", "path", "storage")
  const UNITS := Keyed("units", "name", "systemd")

  /** The entry is an object with the given identifier. */
  predicate Named(entry: Json, id: string, name: string) {
    entry.Obj? && NestedStr(entry.fields, [id]) == Found(name)
  }

  predicate HasNamed(entries: seq<Json>, id: string, name: string) {
    exists i :: 0 <= i < |entries| && Named(entries[i], id, name)
  }

  // Coverage. -----------------------------------------------------------------------------------

  /** An optional object whose fields are among those allowed; what is in it is checked by the caller. */
  predicate OnlyFields(section: Access<Object>, allowed: set<string>) {
    !section.Mismatch? && (section.Found? ==> section.value.Keys <= allowed)
  }

  predicate CoversEntry(policy: Object, k: Keyed, entry: Json) {
    && entry.Obj? && NestedStr(entry.fields, [k.id]).Found?
    && NestedStr(entry.fields, [k.id]).value != ""
    && NestedList(policy, [k.field]).Found?
    && HasNamed(NestedList(policy, [k.field]).value, k.id, NestedStr(entry.fields, [k.id]).value)
  }

  predicate CoversNamed(policy: Object, config: Object, k: Keyed) {
    var section := NestedObj(config, [k.section]);
    && OnlyFields(section, {k.field})
    && (section.Found? ==>
          match NestedList(section.value, [k.field])
          case Mismatch => false
          case Missing => true
          case Found(entries) =>
            !NestedList(policy, [k.field]).Mismatch?
            && forall i :: 0 <= i < |entries| ==> CoversEntry(policy, k, entries[i]))
  }

  function StringList(o: Object, field: string): Access<seq<Json>> {
    match NestedList(o, [field])
    case Found(items) => if forall i :: 0 <= i < |items| ==> items[i].Str? then Found(items) else Mismatch
    case other => other
  }

  predicate CoverableUser(user: Json) {
    && user.Obj? && user.fields.Keys <= {"name", "sshAuthorizedKeys"}
    && !StringList(user.fields, "sshAuthorizedKeys").Mismatch?
  }

  predicate HasKeys(user: Json) {
    && user.Obj? && StringList(user.fields, "sshAuthorizedKeys").Found?
    && StringList(user.fields, "sshAuthorizedKeys").value != []
  }

  function SshActions(policy: Object): Access<seq<Json>> {
    match NestedObj(policy, ["sshkey"])
    case Found(key) => NestedList(key, ["actions"])
    case Missing => Missing
    case Mismatch => Mismatch
  }

  predicate CoversSSHKeys(policy: Object, config: Object) {
    var passwd := NestedObj(config, ["passwd"]);
    && OnlyFields(passwd, {"users"})
    && (passwd.Found? ==>
          match NestedList(passwd.value, ["users"])
          case Mismatch => false
          case Missing => true
          case Found(users) =>
            && (forall i :: 0 <= i < |users| ==> CoverableUser(users[i]))
            && ((exists i :: 0 <= i < |users| && HasKeys(users[i])) ==> SshActions(policy).Found?))
  }

  method CheckSSHKeys(policy: Object, config: Object) returns (ok: bool)
    ensures ok == CoversSSHKeys(policy, config)
  {
    var passwd := NestedObj(config, ["passwd"]);
    if !OnlyFields(passwd, {"users"}) {
      return false;
    }
    if passwd.Missing? {
      return true;
    }
    var users := NestedList(passwd.value, ["users"]);
    if users.Mismatch? {
      return false;
    }
    if users.Missing? {
      return true;
    }
    var usesSSHKeys := false;
    for i := 0 to |users.value|
      invariant forall k :: 0 <= k < i ==> CoverableUser(users.value[k])
      invariant usesSSHKeys <==> exists k :: 0 <= k < i && HasKeys(users.value[k])
    {
      var user := users.value[i];
      if !CoverableUser(user) {
        return false;
      }
      usesSSHKeys := usesSSHKeys || HasKeys(user);
    }
    if !usesSSHKeys {
      return true;
    }
    return SshActions(policy).Found?;
  }

  predicate CoversConfig(policy: Object, config: Object) {
    && config.Keys <= {"ignition", "storage", "systemd", "passwd"}
    && OnlyFields(NestedObj(config, ["ignition"]), {"version"})
    && CoversNamed(policy, config, FILES)
    && CoversNamed(policy, config, UNITS)
    && CoversSSHKeys(policy, config)
  }

  /** nodeDisruptionPolicyCoversMachineConfig returns no error. */
  predicate Covers(policy: Object, machineConfig: Object) {
    var spec := NestedObj(machineConfig, ["spec"]);
    && OnlyFields(spec, {"config"})
    && (spec.Found? ==>
          var config := NestedObj(spec.value, ["config"]);
          !config.Mismatch? && (config.Found? ==> CoversConfig(policy, config.value)))
  }

  // The requested policy against the effective one. ---------------------------------------------

  predicate ActionsMatch(actual: Object, expected: Object) {
    NestedList(expected, ["actions"]).Found? && NestedList(actual, ["actions"]) == NestedList(expected, ["actions"])
  }

  /** The identifier as the search for an effective entry reads it: absent counts as empty. */
  predicate AnswersTo(entry: Json, id: string, name: string) {
    && entry.Obj?
    && match NestedStr(entry.fields, [id])
       case Found(s) => s == name
       case Missing => name == ""
       case Mismatch => false
  }

  /** The first entry that answers to a name has the expected actions. */
  predicate FirstMatches(actual: seq<Json>, id: string, name: string, expected: Object) {
    if actual == [] then false
    else if AnswersTo(actual[0], id, name) then ActionsMatch(actual[0].fields, expected)
    else FirstMatches(actual[1..], id, name, expected)
  }

  predicate EntryMatches(actual: seq<Json>, expected: Json, id: string) {
    && expected.Obj? && NestedStr(expected.fields, [id]).Found?
    && FirstMatches(actual, id, NestedStr(expected.fields, [id]).value, expected.fields)
  }

  method NamedEntriesMatch(actual: seq<Json>, expected: seq<Json>, id: string) returns (ok: bool)
    ensures ok <==> forall i :: 0 <= i < |expected| ==> EntryMatches(actual, expected[i], id)
  {
    for i := 0 to |expected|
      invariant forall k :: 0 <= k < i ==> EntryMatches(actual, expected[k], id)
    {
      var entry := expected[i];
      if !entry.Obj? || !NestedStr(entry.fields, [id]).Found? {
        return false;
      }
      var identifier := NestedStr(entry.fields, [id]).value;
      var matched := false;
      var j := 0;
      while j < |actual|
        invariant 0 <= j <= |actual| && !matched
        invariant FirstMatches(actual, id, identifier, entry.fields) ==
          FirstMatches(actual[j..], id, identifier, entry.fields)
      {
        if AnswersTo(actual[j], id, identifier) {
          matched := ActionsMatch(actual[j].fields, entry.fields);
          break;
        }
        assert actual[j..][1..] == actual[j + 1..];
        j := j + 1;
      }
      if !matched {
        return false;
      }
    }
    return true;
  }

  datatype Answer = Yes | No | Error

  /** One keyed list of the requested policy; None where it asks for nothing. */
  function KeyedAnswer(actual: Object, expected: Object, k: Keyed): Option<Answer> {
    match NestedList(expected, [k.field])
    case Mismatch => Some(Error)
    case Missing => None
    case Found(want) =>
      if want == [] then Some(Error)
      else
        match NestedList(actual, [k.field])
        case Mismatch => Some(Error)
        case Missing => Some(No)
        case Found(got) =>
          Some(if forall i :: 0 <= i < |want| ==> EntryMatches(got, want[i], k.id) then Yes else No)
  }

  function SshAnswer(actual: Object, expected: Object): Option<Answer> {
    match NestedObj(expected, ["sshkey"])
    case Mismatch => Some(Error)
    case Missing => None
    case Found(want) =>
      match NestedObj(actual, ["sshkey"])
      case Mismatch => Some(Error)
      case Missing => Some(No)
      case Found(got) => Some(if ActionsMatch(got, want) then Yes else No)
  }

  /** The first answer that is not Yes decides; nothing asked for is an error. */
  function Decide(answers: seq<Option<Answer>>, asked: bool): Answer {
    if answers == [] then (if asked then Yes else Error)
    else if answers[0].None? then Decide(answers[1..], asked)
    else if answers[0].value != Yes then answers[0].value
    else Decide(answers[1..], true)
  }

  function Effective(actual: Object, expected: Object): Answer {
    Decide([KeyedAnswer(actual, expected, FILES), KeyedAnswer(actual, expected, UNITS), SshAnswer(actual, expected)],
      false)
  }

  method KeyedEntriesMatch(actual: Object, expected: Object, k: Keyed) returns (a: Option<Answer>)
    ensures a == KeyedAnswer(actual, expected, k)
  {
    var want := NestedList(expected, [k.field]);
    if want.Mismatch? {
      return Some(Error);
    }
    if want.Missing? {
      return None;
    }
    if want.value == [] {
      return Some(Error);
    }
    var got := NestedList(actual, [k.field]);
    if !got.Found? {
      return Some(if got.Mismatch? then Error else No);
    }
    var ok := NamedEntriesMatch(got.value, want.value, k.id);
    return Some(if ok then Yes else No);
  }

  method EntriesMatch(actual: Object, expected: Object) returns (answer: Answer)
    ensures answer == Effective(actual, expected)
  {
    var hasRequestedEntries := false;
    ghost var rest := [KeyedAnswer(actual, expected, FILES), KeyedAnswer(actual, expected, UNITS),
      SshAnswer(actual, expected)];
    var types := [FILES, UNITS];
    for i := 0 to |types|
      invariant Effective(actual, expected) == Decide(rest[i..], hasRequestedEntries)
    {
      assert rest[i..][1..] == rest[i + 1..] && rest[i..][0] == rest[i];
      var a := KeyedEntriesMatch(actual, expected, types[i]);
      if a.Some? {
        if a.value != Yes {
          return a.value;
        }
        hasRequestedEntries := true;
      }
    }
    assert rest[2..][1..] == [] && rest[2..][0] == rest[2];
    var sshKey := NestedObj(expected, ["sshkey"]);
    if sshKey.Mismatch? {
      return Error;
    }
    if sshKey.Found? {
      hasRequestedEntries := true;
      var got := NestedObj(actual, ["sshkey"]);
      if !got.Found? {
        return if got.Mismatch? then Error else No;
      }
      if !ActionsMatch(got.value, sshKey.value) {
        return No;
      }
    }
    if !hasRequestedEntries {
      return Error;
    }
    return Yes;
  }

  // The readiness gate. -------------------------------------------------------------------------

  /** A read of the MachineConfiguration singleton. */
  datatype ConfigRead = ConfigAbsent | ConfigUnreadable | ConfigFound(config: Object)

  /** A policy asset after rendering: an error, nothing, or its spec.nodeDisruptionPolicy. */
  datatype Wanted = WantError | WantNothing | Want(policy: Object)

  datatype Gate = Ready(marked: Object) | Waiting | GateError

  function EffectivePolicies(config: Object): Access<Object> {
    NestedObj(config, ["status", "nodeDisruptionPolicyStatus", "clusterPolicies"])
  }

  function Readiness(want: Object, read: ConfigRead): Answer {
    match read
    case ConfigAbsent => No
    case ConfigUnreadable => Error
    case ConfigFound(config) =>
      match EffectivePolicies(config)
      case Mismatch => Error
      case Missing => No
      case Found(status) => Effective(status, want)
  }

  function Prepare(desired: Object, want: Wanted, read: ConfigRead): Gate {
    if !IsMachineConfig(desired) || want.WantError? then GateError
    else if want.WantNothing? then (if Covers(map[], desired) then Waiting else GateError)
    else if !Covers(want.policy, desired) then GateError
    else
      match Readiness(want.policy, read)
      case Yes => Ready(SetAnnotation(desired, NDP_EFFECTIVE_ANNOTATION, "true"))
      case No => Waiting
      case Error => GateError
  }

  method PrepareDependent(desired: Object, want: Wanted, read: ConfigRead) returns (gate: Gate)
    ensures gate == Prepare(desired, want, read)
  {
    if !IsMachineConfig(desired) || want.WantError? {
      return GateError;
    }
    var policy := if want.Want? then want.policy else map[];
    if !Covers(policy, desired) {
      return GateError;
    }
    if want.WantNothing? || read.ConfigAbsent? {
      return Waiting;
    }
    if read.ConfigUnreadable? {
      return GateError;
    }
    var status := EffectivePolicies(read.config);
    if !status.Found? {
      return if status.Mismatch? then GateError else Waiting;
    }
    var answer := EntriesMatch(status.value, policy);
    match answer {
      case Error => return GateError;
      case No => return Waiting;
      case Yes => return Ready(SetAnnotation(desired, NDP_EFFECTIVE_ANNOTATION, "true"));
    }
  }

  /** The files or units of a MachineConfig. */
  function ConfigEntries(machineConfig: Object, k: Keyed): seq<Json> {
    match NestedList(machineConfig, ["spec", "config", k.section, k.field]) case Found(l) => l case _ => []
  }

  function ConfigUsers(machineConfig: Object): seq<Json> {
    match NestedList(machineConfig, ["spec", "config", "passwd", "users"]) case Found(l) => l case _ => []
  }

  /** The entry has a name, the policy requests actions for it, and an effective entry of that name has the actions of
      every requested entry of that name. */
  ghost predicate EntryEffective(entry: Json, want: Object, status: Object, k: Keyed) {
    && NestedList(want, [k.field]).Found? && NestedList(status, [k.field]).Found?
    && entry.Obj? && NestedStr(entry.fields, [k.id]).Found? && NestedStr(entry.fields, [k.id]).value != ""
    && var name := NestedStr(entry.fields, [k.id]).value;
       && HasNamed(NestedList(want, [k.field]).value, k.id, name)
       && exists e :: && e in NestedList(status, [k.field]).value
                      && Fulfils(e, NestedList(want, [k.field]).value, k.id, name)
  }

  /** An entry of this name with the actions of every requested entry of this name. */
  predicate Fulfils(entry: Json, want: seq<Json>, id: string, name: string) {
    && Named(entry, id, name)
    && forall w <- want | Named(w, id, name) :: SameActions(entry.fields, w.fields)
  }

  /** There are actions on both sides, and they are the same. */
  predicate SameActions(actual: Object, expected: Object) {
    NestedList(actual, ["actions"]).Found? && NestedList(actual, ["actions"]) == NestedList(expected, ["actions"])
  }

  /** The paths below spec that a policy can cover. */
  predicate CoverablePath(q: Path) {
    |q| > 0 ==>
      && q[0] == "config"
      && (|q| > 1 ==> q[1] in {"ignition", "storage", "systemd", "passwd"})
      && (|q| > 2 ==> q[2] == (match q[1]
                               case "ignition" => "version"
                               case "storage" => "files"
                               case "systemd" => "units"
                               case _ => "users"))
  }

  lemma FieldStep(o: Object, k: string, rest: Path)
    ensures NestedObj(o, [k]).Found? ==> Nested(Obj(o), [k] + rest) == Nested(Obj(NestedObj(o, [k]).value), rest)
    ensures !NestedObj(o, [k]).Found? && rest != [] ==> !Nested(Obj(o), [k] + rest).Found?
    ensures NestedObj(o, [k]).Missing? ==> Nested(Obj(o), [k] + rest).Missing?
  {
    FieldAt(o, k);
    assert ([k] + rest)[1..] == rest;
  }

  lemma FieldsAllowed(o: Object, k: string, allowed: set<string>, q: Path)
    requires OnlyFields(NestedObj(o, [k]), allowed) && |q| > 1 && q[0] == k && Nested(Obj(o), q).Found?
    ensures NestedObj(o, [k]).Found? && q[1] in allowed
    ensures Nested(Obj(NestedObj(o, [k]).value), q[1..]).Found?
  {
    FieldStep(o, k, q[1..]);
    assert q == [k] + q[1..];
  }

  /** A covered MachineConfig contains nothing outside the coverable shapes. */
  lemma CoveredShape(policy: Object, machineConfig: Object, q: Path)
    requires Covers(policy, machineConfig) && Nested(Obj(machineConfig), ["spec"] + q).Found?
    ensures CoverablePath(q)
  {
    var p := ["spec"] + q;
    if |q| > 0 {
      FieldsAllowed(machineConfig, "spec", {"config"}, p);
      assert p[1..] == q;
      var spec := NestedObj(machineConfig, ["spec"]).value;
      if |q| > 1 {
        FieldStep(spec, "config", q[1..]);
        assert q == ["config"] + q[1..];
        var config := NestedObj(spec, ["config"]).value;
        FieldAt(config, q[1]);
        if |q| > 2 {
          match q[1]
          case "ignition" => FieldsAllowed(config, "ignition", {"version"}, q[1..]);
          case "storage" => FieldsAllowed(config, "storage", {"files"}, q[1..]);
          case "systemd" => FieldsAllowed(config, "systemd", {"units"}, q[1..]);
          case _ => FieldsAllowed(config, "passwd", {"users"}, q[1..]);
        }
      }
    }
  }

  /** A list four levels down, read level by level. */
  lemma DeepList(o: Object, k: string, f: string)
    ensures var spec := NestedObj(o, ["spec"]);
            var list := NestedList(o, ["spec", "config", k, f]);
            list.Found? ==>
              && spec.Found? && NestedObj(spec.value, ["config"]).Found?
              && NestedObj(NestedObj(spec.value, ["config"]).value, [k]).Found?
              && NestedList(NestedObj(NestedObj(spec.value, ["config"]).value, [k]).value, [f]) == list
  {
    var path := ["spec", "config", k, f];
    FieldStep(o, "spec", ["config", k, f]);
    assert path == ["spec"] + ["config", k, f];
    if NestedObj(o, ["spec"]).Found? {
      var spec := NestedObj(o, ["spec"]).value;
      FieldStep(spec, "config", [k, f]);
      assert ["config", k, f] == ["config"] + [k, f];
      if NestedObj(spec, ["config"]).Found? {
        FieldStep(NestedObj(spec, ["config"]).value, k, [f]);
        assert [k, f] == [k] + [f];
      }
    }
  }

  /** Every file and unit of a covered MachineConfig is named by the policy. */
  lemma CoveredEntries(policy: Object, machineConfig: Object, k: Keyed, i: nat)
    requires Covers(policy, machineConfig) && k in {FILES, UNITS} && i < |ConfigEntries(machineConfig, k)|
    ensures CoversEntry(policy, k, ConfigEntries(machineConfig, k)[i])
  {
    DeepList(machineConfig, k.section, k.field);
  }

  // Exactly what a policy covers. -----------------------------------------------------------------------------

  lemma FieldsIff(o: Object, k: string, allowed: set<string>)
    ensures OnlyFields(NestedObj(o, [k]), allowed) <==>
            !NestedObj(o, [k]).Mismatch? && forall f :: Nested(Obj(o), [k, f]).Found? ==> f in allowed
  {
    FieldAt(o, k);
    if NestedObj(o, [k]).Found? {
      forall f ensures Nested(Obj(o), [k, f]).Found? <==> f in NestedObj(o, [k]).value {
        FieldOfField(o, k, f);
        FieldAt(o[k].fields, f);
      }
    }
  }

  /** The field that a section of the Ignition config may have. */
  function FieldOf(section: string): string {
    match section
    case "ignition" => "version"
    case "storage" => "files"
    case "systemd" => "units"
    case _ => "users"
  }

  const SECTIONS: set<string> := {"ignition", "storage", "systemd", "passwd"}

  predicate SectionsAllowed(config: Object) {
    config.Keys <= SECTIONS && forall x <- SECTIONS :: OnlyFields(NestedObj(config, [x]), {FieldOf(x)})
  }

  /** The sections are those allowed exactly when they are objects and every path is coverable. */
  lemma SectionsIff(config: Object)
    ensures SectionsAllowed(config) <==>
            && (forall x <- SECTIONS :: !NestedObj(config, [x]).Mismatch?)
            && (forall q: Path :: Nested(Obj(config), q).Found? ==> CoverablePath(["config"] + q))
  {
    forall x <- SECTIONS
      ensures OnlyFields(NestedObj(config, [x]), {FieldOf(x)}) <==>
              !NestedObj(config, [x]).Mismatch? && forall f :: Nested(Obj(config), [x, f]).Found? ==> f in {FieldOf(x)}
    {
      FieldsIff(config, x, {FieldOf(x)});
    }
    if SectionsAllowed(config) {
      forall q: Path | Nested(Obj(config), q).Found? ensures CoverablePath(["config"] + q) {
        AllowedPath(config, q);
      }
    }
    if forall q: Path :: Nested(Obj(config), q).Found? ==> CoverablePath(["config"] + q) {
      forall k <- config ensures k in SECTIONS {
        FieldAt(config, k);
        assert CoverablePath(["config"] + [k]);
      }
      forall x, f | x in SECTIONS && Nested(Obj(config), [x, f]).Found? ensures f in {FieldOf(x)} {
        assert CoverablePath(["config"] + [x, f]);
      }
    }
  }

  lemma AllowedPath(config: Object, q: Path)
    requires SectionsAllowed(config) && Nested(Obj(config), q).Found?
    ensures CoverablePath(["config"] + q)
  {
    if |q| > 0 {
      FieldStep(config, q[0], q[1..]);
      assert q == [q[0]] + q[1..] && q[0] in config.Keys;
      if |q| > 1 { FieldsAllowed(config, q[0], {FieldOf(q[0])}, q); }
    }
  }

  /** A non-empty identifier that the list of the policy has too. */
  ghost predicate NamedBy(policy: Object, entry: Json, field: string, id: string) {
    exists name :: && name != "" && Named(entry, id, name) && NestedList(policy, [field]).Found?
                   && HasNamed(NestedList(policy, [field]).value, id, name)
  }

  lemma NamedByIff(policy: Object, k: Keyed, entry: Json)
    ensures CoversEntry(policy, k, entry) <==> NamedBy(policy, entry, k.field, k.id)
  {
    if CoversEntry(policy, k, entry) { assert Named(entry, k.id, NestedStr(entry.fields, [k.id]).value); }
  }

  /** The list of files or units is absent, or a list whose every entry the policy names. */
  ghost predicate ListCovered(policy: Object, list: Access<seq<Json>>, field: string, id: string) {
    && !list.Mismatch?
    && (list.Found? ==>
          && !NestedList(policy, [field]).Mismatch?
          && forall i :: 0 <= i < |list.value| ==> NamedBy(policy, list.value[i], field, id))
  }

  /** The users are absent, or a list of names with keys; and where there are keys, the policy has actions for them. */
  ghost predicate UsersCovered(policy: Object, users: Access<seq<Json>>) {
    && !users.Mismatch?
    && (users.Found? ==>
          && (forall i :: 0 <= i < |users.value| ==> UserAllowed(users.value[i]))
          && ((exists i :: 0 <= i < |users.value| && UsesKeys(users.value[i])) ==>
                NestedList(policy, ["sshkey", "actions"]).Found?))
  }

  /** A user with nothing but a name and a list of keys that are strings. */
  ghost predicate UserAllowed(user: Json) {
    && user.Obj? && (forall f :: Nested(user, [f]).Found? ==> f in {"name", "sshAuthorizedKeys"})
    && !NestedList(user.fields, ["sshAuthorizedKeys"]).Mismatch?
    && (NestedList(user.fields, ["sshAuthorizedKeys"]).Found? ==>
          forall key <- NestedList(user.fields, ["sshAuthorizedKeys"]).value :: key.Str?)
  }

  predicate UsesKeys(user: Json) {
    && user.Obj? && NestedList(user.fields, ["sshAuthorizedKeys"]).Found?
    && NestedList(user.fields, ["sshAuthorizedKeys"]).value != []
  }

  lemma UserIff(user: Json)
    ensures CoverableUser(user) <==> UserAllowed(user)
    ensures CoverableUser(user) ==> (HasKeys(user) <==> UsesKeys(user))
  {
    if user.Obj? {
      forall f ensures Nested(user, [f]).Found? <==> f in user.fields { FieldAt(user.fields, f); }
    }
  }

  lemma SshActionsIff(policy: Object)
    ensures SshActions(policy).Found? <==> NestedList(policy, ["sshkey", "actions"]).Found?
    ensures SshActions(policy).Found? ==> SshActions(policy) == NestedList(policy, ["sshkey", "actions"])
  {
    FieldStep(policy, "sshkey", ["actions"]);
    assert ["sshkey", "actions"] == ["sshkey"] + ["actions"];
  }

  lemma ListIff(policy: Object, config: Object, k: Keyed)
    requires OnlyFields(NestedObj(config, [k.section]), {k.field})
    ensures CoversNamed(policy, config, k) <==>
            ListCovered(policy, NestedList(config, [k.section, k.field]), k.field, k.id)
  {
    FieldStep(config, k.section, [k.field]);
    assert [k.section, k.field] == [k.section] + [k.field];
    var list := NestedList(config, [k.section, k.field]);
    if list.Found? {
      forall i | 0 <= i < |list.value|
        ensures CoversEntry(policy, k, list.value[i]) <==> NamedBy(policy, list.value[i], k.field, k.id)
      {
        NamedByIff(policy, k, list.value[i]);
      }
    }
  }

  lemma UsersIff(policy: Object, config: Object)
    requires OnlyFields(NestedObj(config, ["passwd"]), {"users"})
    ensures CoversSSHKeys(policy, config) <==> UsersCovered(policy, NestedList(config, ["passwd", "users"]))
  {
    FieldStep(config, "passwd", ["users"]);
    assert ["passwd", "users"] == ["passwd"] + ["users"];
    SshActionsIff(policy);
    var users := NestedList(config, ["passwd", "users"]);
    if users.Found? {
      forall i | 0 <= i < |users.value|
        ensures CoverableUser(users.value[i]) <==> UserAllowed(users.value[i])
        ensures CoverableUser(users.value[i]) ==> (HasKeys(users.value[i]) <==> UsesKeys(users.value[i]))
      {
        UserIff(users.value[i]);
      }
    }
  }

  /** The files, units and users of a MachineConfig against its policy. */
  ghost predicate ListsCovered(policy: Object, files: Access<seq<Json>>, units: Access<seq<Json>>,
                               users: Access<seq<Json>>) {
    && ListCovered(policy, files, "files", "path") && ListCovered(policy, units, "units", "name")
    && UsersCovered(policy, users)
  }

  lemma ConfigIff(policy: Object, config: Object)
    ensures CoversConfig(policy, config) <==>
            && SectionsAllowed(config)
            && ListsCovered(policy, NestedList(config, ["storage", "files"]), NestedList(config, ["systemd", "units"]),
                            NestedList(config, ["passwd", "users"]))
  {
    assert CoversConfig(policy, config) ==> SectionsAllowed(config);
    if SectionsAllowed(config) {
      assert "storage" in SECTIONS && "systemd" in SECTIONS && "passwd" in SECTIONS && "ignition" in SECTIONS;
      ListIff(policy, config, FILES);
      ListIff(policy, config, UNITS);
      UsersIff(policy, config);
    }
  }

  const CONFIG: Path := ["spec", "config"]

  /** Where there is a config, a path below it is one in it; where there is none, nothing is below it. */
  lemma BelowConfig(mc: Object, q: Path)
    ensures NestedObj(mc, CONFIG).Found? ==> Nested(Obj(mc), CONFIG + q) == Nested(Obj(NestedObj(mc, CONFIG).value), q)
    ensures NestedObj(mc, CONFIG).Missing? ==> Nested(Obj(mc), CONFIG + q).Missing?
  {
    NestedStep(Obj(mc), CONFIG, q);
    MissingBelow(Obj(mc), CONFIG, q);
  }

  lemma SpecThenConfig(mc: Object)
    ensures NestedObj(mc, ["spec"]).Found? ==>
              NestedObj(mc, CONFIG) == NestedObj(NestedObj(mc, ["spec"]).value, ["config"])
    ensures NestedObj(mc, ["spec"]).Missing? ==> NestedObj(mc, CONFIG).Missing?
  {
    FieldStep(mc, "spec", ["config"]);
    assert CONFIG == ["spec"] + ["config"];
  }

  lemma ShapeIff(mc: Object)
    requires !NestedObj(mc, ["spec"]).Mismatch? && !NestedObj(mc, CONFIG).Mismatch?
    ensures (forall q: Path :: Nested(Obj(mc), ["spec"] + q).Found? ==> CoverablePath(q)) <==>
            && OnlyFields(NestedObj(mc, ["spec"]), {"config"})
            && (NestedObj(mc, CONFIG).Found? ==>
                  var config := NestedObj(mc, CONFIG).value;
                  forall q: Path :: Nested(Obj(config), q).Found? ==> CoverablePath(["config"] + q))
  {
    FieldsIff(mc, "spec", {"config"});
    if forall q: Path :: Nested(Obj(mc), ["spec"] + q).Found? ==> CoverablePath(q) {
      forall f | Nested(Obj(mc), ["spec", f]).Found? ensures f in {"config"} {
        assert ["spec"] + [f] == ["spec", f];
        assert CoverablePath([f]);
      }
      if NestedObj(mc, CONFIG).Found? {
        forall q: Path | Nested(Obj(NestedObj(mc, CONFIG).value), q).Found? ensures CoverablePath(["config"] + q) {
          BelowConfig(mc, q);
          assert ["spec"] + (["config"] + q) == CONFIG + q;
        }
      }
    } else {
      var q: Path :| Nested(Obj(mc), ["spec"] + q).Found? && !CoverablePath(q);
      BelowSpec(mc, q);
    }
  }

  /** A path below spec that is not coverable leaves the allowed fields or is one below config. */
  lemma BelowSpec(mc: Object, q: Path)
    requires Nested(Obj(mc), ["spec"] + q).Found? && !CoverablePath(q) && !NestedObj(mc, CONFIG).Mismatch?
    ensures !OnlyFields(NestedObj(mc, ["spec"]), {"config"}) || NestedObj(mc, CONFIG).Found?
    ensures OnlyFields(NestedObj(mc, ["spec"]), {"config"}) ==>
              q[0] == "config" && Nested(Obj(NestedObj(mc, CONFIG).value), q[1..]).Found? && q == ["config"] + q[1..]
  {
    if OnlyFields(NestedObj(mc, ["spec"]), {"config"}) {
      FieldsAllowed(mc, "spec", {"config"}, ["spec"] + q);
      assert q == ["config"] + q[1..] && ["spec"] + q == CONFIG + q[1..];
      BelowConfig(mc, q[1..]);
    }
  }

  lemma SectionBelow(mc: Object, x: string)
    ensures NestedObj(mc, CONFIG).Missing? ==> NestedObj(mc, ["spec", "config", x]).Missing?
    ensures NestedObj(mc, CONFIG).Found? ==>
              NestedObj(mc, ["spec", "config", x]) == NestedObj(NestedObj(mc, CONFIG).value, [x])
  {
    BelowConfig(mc, [x]);
    assert CONFIG + [x] == ["spec", "config", x];
  }

  lemma ListBelow(mc: Object, x: string, f: string)
    ensures NestedObj(mc, CONFIG).Missing? ==> NestedList(mc, ["spec", "config", x, f]).Missing?
    ensures NestedObj(mc, CONFIG).Found? ==>
              NestedList(mc, ["spec", "config", x, f]) == NestedList(NestedObj(mc, CONFIG).value, [x, f])
  {
    BelowConfig(mc, [x, f]);
    assert CONFIG + [x, f] == ["spec", "config", x, f];
  }

  /** A policy covers a MachineConfig exactly when spec, config and its sections are objects, every path below spec is
      coverable, the policy names every file and unit, and it has SSH key actions where a user has keys. */
  lemma CoversIff(policy: Object, machineConfig: Object)
    ensures Covers(policy, machineConfig) <==>
            && !NestedObj(machineConfig, ["spec"]).Mismatch? && !NestedObj(machineConfig, ["spec", "config"]).Mismatch?
            && (forall x <- SECTIONS :: !NestedObj(machineConfig, ["spec", "config", x]).Mismatch?)
            && (forall q: Path :: Nested(Obj(machineConfig), ["spec"] + q).Found? ==> CoverablePath(q))
            && ListsCovered(policy, NestedList(machineConfig, ["spec", "config", "storage", "files"]),
                            NestedList(machineConfig, ["spec", "config", "systemd", "units"]),
                            NestedList(machineConfig, ["spec", "config", "passwd", "users"]))
  {
    var mc := machineConfig;
    SpecThenConfig(mc);
    if !NestedObj(mc, ["spec"]).Mismatch? && !NestedObj(mc, CONFIG).Mismatch? {
      ShapeIff(mc);
      forall x <- SECTIONS { SectionBelow(mc, x); }
      ListBelow(mc, "storage", "files");
      ListBelow(mc, "systemd", "units");
      ListBelow(mc, "passwd", "users");
      if NestedObj(mc, CONFIG).Found? {
        ConfigIff(policy, NestedObj(mc, CONFIG).value);
        SectionsIff(NestedObj(mc, CONFIG).value);
      }
    }
  }

  lemma {:induction false} DecideYes(answers: seq<Option<Answer>>, asked: bool, i: nat)
    requires Decide(answers, asked) == Yes && i < |answers|
    ensures answers[i].None? || answers[i] == Some(Yes)
    decreases |answers|
  {
    if i > 0 { DecideYes(answers[1..], asked || answers[0].Some?, i - 1); }
  }

  /** The index of the first entry that answers to a name, or the length. */
  function FirstAnswer(actual: seq<Json>, id: string, name: string): nat {
    if actual == [] || AnswersTo(actual[0], id, name) then 0 else 1 + FirstAnswer(actual[1..], id, name)
  }

  lemma {:induction false} FirstMatchesAt(actual: seq<Json>, id: string, name: string, expected: Object)
    ensures var j := FirstAnswer(actual, id, name);
            && j <= |actual| && (j < |actual| ==> AnswersTo(actual[j], id, name))
            && (forall i | 0 <= i < j :: !AnswersTo(actual[i], id, name))
            && (FirstMatches(actual, id, name, expected) <==> j < |actual| && ActionsMatch(actual[j].fields, expected))
  {
    if actual != [] && !AnswersTo(actual[0], id, name) { FirstMatchesAt(actual[1..], id, name, expected); }
  }

  lemma KeyedEffective(policy: Object, status: Object, k: Keyed, entry: Json)
    requires k in {FILES, UNITS} && CoversEntry(policy, k, entry) && KeyedAnswer(status, policy, k) == Some(Yes)
    ensures EntryEffective(entry, policy, status, k)
  {
    var name := NestedStr(entry.fields, [k.id]).value;
    var want, got := NestedList(policy, [k.field]).value, NestedList(status, [k.field]).value;
    var j := FirstAnswer(got, k.id, name);
    forall w <- want | Named(w, k.id, name)
      ensures j < |got| && Named(got[j], k.id, name) && ActionsMatch(got[j].fields, w.fields)
    {
      var i :| 0 <= i < |want| && want[i] == w;
      assert EntryMatches(got, want[i], k.id);
      FirstMatchesAt(got, k.id, name, w.fields);
    }
    var i :| 0 <= i < |want| && Named(want[i], k.id, name);
    assert want[i] in want && got[j] in got && Fulfils(got[j], want, k.id, name);
  }

  lemma ReadyMeans(desired: Object, policy: Object, read: ConfigRead)
    requires Prepare(desired, Want(policy), read).Ready?
    ensures Covers(policy, desired)
    ensures read.ConfigFound? && EffectivePolicies(read.config).Found?
    ensures Effective(EffectivePolicies(read.config).value, policy) == Yes
  {}

  lemma EffectiveMeans(status: Object, policy: Object)
    requires Effective(status, policy) == Yes
    ensures forall k <- {FILES, UNITS} :: KeyedAnswer(status, policy, k) in {None, Some(Yes)}
    ensures SshAnswer(status, policy) in {None, Some(Yes)}
  {
    var answers := [KeyedAnswer(status, policy, FILES), KeyedAnswer(status, policy, UNITS), SshAnswer(status, policy)];
    DecideYes(answers, false, 0);
    DecideYes(answers, false, 1);
    DecideYes(answers, false, 2);
  }

  /** Whenever a dependent passes the gate, MCO reports for each of its files and units an entry whose
      actions are exactly those of every requested entry for it. */
  lemma GateEntriesEffective(desired: Object, policy: Object, read: ConfigRead, k: Keyed, i: nat)
    requires Prepare(desired, Want(policy), read).Ready?
    requires k in {FILES, UNITS} && i < |ConfigEntries(desired, k)|
    ensures read.ConfigFound? && EffectivePolicies(read.config).Found?
    ensures EntryEffective(ConfigEntries(desired, k)[i], policy, EffectivePolicies(read.config).value, k)
  {
    ReadyMeans(desired, policy, read);
    var status := EffectivePolicies(read.config).value;
    EffectiveMeans(status, policy);
    CoveredEntries(policy, desired, k, i);
    assert KeyedAnswer(status, policy, k) != None;
    KeyedEffective(policy, status, k, ConfigEntries(desired, k)[i]);
  }

  /** Likewise for SSH keys, if it uses any. */
  lemma GateSshEffective(desired: Object, policy: Object, read: ConfigRead, i: nat)
    requires Prepare(desired, Want(policy), read).Ready?
    requires i < |ConfigUsers(desired)| && HasKeys(ConfigUsers(desired)[i])
    ensures read.ConfigFound? && EffectivePolicies(read.config).Found?
    ensures SshActions(policy).Found? && SshActions(EffectivePolicies(read.config).value) == SshActions(policy)
  {
    ReadyMeans(desired, policy, read);
    EffectiveMeans(EffectivePolicies(read.config).value, policy);
    DeepList(desired, "passwd", "users");
  }

  /** And it contains nothing that a policy cannot cover. */
  lemma GateShape(desired: Object, policy: Object, read: ConfigRead)
    requires Prepare(desired, Want(policy), read).Ready?
    ensures forall q: Path :: Nested(Obj(desired), ["spec"] + q).Found? ==> CoverablePath(q)
    ensures forall i :: 0 <= i < |ConfigUsers(desired)| ==> CoverableUser(ConfigUsers(desired)[i])
  {
    ReadyMeans(desired, policy, read);
    DeepList(desired, "passwd", "users");
    forall q: Path | Nested(Obj(desired), ["spec"] + q).Found? ensures CoverablePath(q)
    {
      CoveredShape(policy, desired, q);
    }
  }

  // Exactly when the gate opens, and when it waits. -----------------------------------------------------------

  /** The identifier of an entry, where an absent one counts as empty. */
  predicate GoesBy(entry: Json, id: string, name: string) {
    entry.Obj? && !NestedStr(entry.fields, [id]).Mismatch? && StringAt(entry.fields, [id]) == name
  }

  /** The requested entry has a name, and the first effective entry that goes by it has the requested actions. */
  ghost predicate Met(got: seq<Json>, w: Json, id: string) {
    && w.Obj? && NestedStr(w.fields, [id]).Found?
    && exists j :: && 0 <= j < |got| && GoesBy(got[j], id, NestedStr(w.fields, [id]).value)
                   && (forall i | 0 <= i < j :: !GoesBy(got[i], id, NestedStr(w.fields, [id]).value))
                   && SameActions(got[j].fields, w.fields)
  }

  lemma MetIff(got: seq<Json>, w: Json, id: string)
    ensures EntryMatches(got, w, id) <==> Met(got, w, id)
  {
    if w.Obj? && NestedStr(w.fields, [id]).Found? {
      FirstMatchesAt(got, id, NestedStr(w.fields, [id]).value, w.fields);
      assert forall e, name :: AnswersTo(e, id, name) <==> GoesBy(e, id, name);
    }
  }

  /** The policy requests entries in a list, and each of them is met. */
  ghost predicate ListMet(status: Object, want: Object, field: string, id: string) {
    && NestedList(want, [field]).Found? && NestedList(want, [field]).value != [] && NestedList(status, [field]).Found?
    && forall w <- NestedList(want, [field]).value :: Met(NestedList(status, [field]).value, w, id)
  }

  /** It requests entries, and one of them is not met though all is well formed. */
  ghost predicate ListUnmet(status: Object, want: Object, field: string, id: string) {
    && NestedList(want, [field]).Found? && NestedList(want, [field]).value != []
    && !NestedList(status, [field]).Mismatch?
    && !ListMet(status, want, field, id)
  }

  predicate SshMet(status: Object, want: Object) {
    && NestedObj(want, ["sshkey"]).Found? && NestedObj(status, ["sshkey"]).Found?
    && SameActions(NestedObj(status, ["sshkey"]).value, NestedObj(want, ["sshkey"]).value)
  }

  predicate SshUnmet(status: Object, want: Object) {
    NestedObj(want, ["sshkey"]).Found? && !NestedObj(status, ["sshkey"]).Mismatch? && !SshMet(status, want)
  }

  lemma KeyedAnswerExact(status: Object, want: Object, k: Keyed)
    ensures KeyedAnswer(status, want, k).None? <==> NestedList(want, [k.field]).Missing?
    ensures KeyedAnswer(status, want, k) == Some(Yes) <==> ListMet(status, want, k.field, k.id)
    ensures KeyedAnswer(status, want, k) == Some(No) <==> ListUnmet(status, want, k.field, k.id)
  {
    if NestedList(want, [k.field]).Found? && NestedList(status, [k.field]).Found? {
      var list, got := NestedList(want, [k.field]).value, NestedList(status, [k.field]).value;
      forall i | 0 <= i < |list| ensures EntryMatches(got, list[i], k.id) <==> Met(got, list[i], k.id) {
        MetIff(got, list[i], k.id);
      }
    }
  }

  lemma SshAnswerExact(status: Object, want: Object)
    ensures SshAnswer(status, want).None? <==> NestedObj(want, ["sshkey"]).Missing?
    ensures SshAnswer(status, want) == Some(Yes) <==> SshMet(status, want)
    ensures SshAnswer(status, want) == Some(No) <==> SshUnmet(status, want)
  {}

  /** Everything that the policy requests is met, and it requests something. */
  ghost predicate PolicyMet(status: Object, want: Object) {
    && (NestedList(want, ["files"]).Missing? || ListMet(status, want, "files", "path"))
    && (NestedList(want, ["units"]).Missing? || ListMet(status, want, "units", "name"))
    && (NestedObj(want, ["sshkey"]).Missing? || SshMet(status, want))
    && (NestedList(want, ["files"]).Found? || NestedList(want, ["units"]).Found? || NestedObj(want, ["sshkey"]).Found?)
  }

  /** Of files, units and SSH keys, the first that is requested and not met is well formed. */
  ghost predicate PolicyUnmet(status: Object, want: Object) {
    var files := NestedList(want, ["files"]).Missing? || ListMet(status, want, "files", "path");
    var units := NestedList(want, ["units"]).Missing? || ListMet(status, want, "units", "name");
    || ListUnmet(status, want, "files", "path")
    || (files && ListUnmet(status, want, "units", "name"))
    || (files && units && SshUnmet(status, want))
  }

  lemma DecideFirst(x: Option<Answer>, rest: seq<Option<Answer>>, asked: bool)
    ensures Decide([x] + rest, asked) ==
            if x.None? then Decide(rest, asked) else if x.value != Yes then x.value else Decide(rest, true)
  {
    assert ([x] + rest)[1..] == rest;
  }

  lemma DecideThree(x: Option<Answer>, y: Option<Answer>, z: Option<Answer>)
    ensures Decide([x, y, z], false) ==
            if x.Some? && x.value != Yes then x.value
            else if y.Some? && y.value != Yes then y.value
            else if z.Some? && z.value != Yes then z.value
            else if x.None? && y.None? && z.None? then Error else Yes
  {
    assert [x, y, z] == [x] + [y, z] && [y, z] == [y] + [z] && [z] == [z] + [];
    DecideFirst(x, [y, z], false);
    DecideFirst(y, [z], false);
    DecideFirst(y, [z], true);
    DecideFirst(z, [], false);
    DecideFirst(z, [], true);
  }

  lemma EffectiveExact(status: Object, want: Object)
    ensures Effective(status, want) == Yes <==> PolicyMet(status, want)
    ensures Effective(status, want) == No <==> PolicyUnmet(status, want)
  {
    KeyedAnswerExact(status, want, FILES);
    KeyedAnswerExact(status, want, UNITS);
    SshAnswerExact(status, want);
    DecideThree(KeyedAnswer(status, want, FILES), KeyedAnswer(status, want, UNITS), SshAnswer(status, want));
  }

  /** The singleton was read, and its status meets the policy. */
  ghost predicate Fulfilled(want: Object, read: ConfigRead) {
    && read.ConfigFound? && EffectivePolicies(read.config).Found?
    && PolicyMet(EffectivePolicies(read.config).value, want)
  }

  /** There is no singleton, or no status yet, or one that does not meet the policy though all is well formed. */
  ghost predicate Unfulfilled(want: Object, read: ConfigRead) {
    || read.ConfigAbsent?
    || (read.ConfigFound? && EffectivePolicies(read.config).Missing?)
    || (&& read.ConfigFound? && EffectivePolicies(read.config).Found?
        && PolicyUnmet(EffectivePolicies(read.config).value, want))
  }

  /** A dependent passes exactly when it is a MachineConfig that its policy covers and the policy is fulfilled. It waits
      exactly when it is covered and the policy is not fulfilled yet, or asks for nothing. All else is an error. */
  lemma GateExact(desired: Object, want: Wanted, read: ConfigRead)
    ensures var gate := Prepare(desired, want, read);
            && (gate.Ready? <==>
                  && IsMachineConfig(desired) && want.Want?
                  && Covers(want.policy, desired) && Fulfilled(want.policy, read))
            && (gate.Waiting? <==>
                  && IsMachineConfig(desired) && !want.WantError?
                  && Covers(if want.Want? then want.policy else map[], desired)
                  && (want.Want? ==> Unfulfilled(want.policy, read)))
            && (gate.Ready? ==> gate.marked == SetAnnotation(desired, NDP_EFFECTIVE_ANNOTATION, "true"))
  {
    if want.Want? && read.ConfigFound? && EffectivePolicies(read.config).Found? {
      EffectiveExact(EffectivePolicies(read.config).value, want.policy);
    }
  }
}
