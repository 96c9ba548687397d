/** The durable record of staged MachineConfig updates: the staging store of
    pkg/engine/machineconfig_coalescing.go. A ConfigMap is mirrored in memory; each write is a JSON
    Merge Patch (RFC 7396) of one key. */
module Staging {
  import opened JsonTree

  datatype Stage = Stage(stagedAt: int, desiredHash: string, matchingPools: seq<string>)

  /** JSON encoding of a stage as the value of one ConfigMap key. */
  datatype Codec = Codec(encode: Stage -> string, decode: string -> Option<Stage>) {
    ghost predicate Faithful() { forall s: Stage :: decode(encode(s)) == Some(s) }
  }

  /** What the API server does with each request that an operation may send. */
  datatype Io = Io(readOk: bool, patchOk: bool, createOk: bool)

  /** The mirror in memory and the ConfigMap in the cluster. */
  datatype Store = Store(loaded: bool, hasOwner: bool, entries: map<string, Stage>, configMap: Option<Object>)

  // The API server. -----------------------------------------------------------------------------

  /** Section 2 of RFC 7396. */
  function MergePatch(target: Json, patch: Json): Json
    decreases patch
  {
    if !patch.Obj? then patch
    else
      var t := if target.Obj? then target.fields else map[];
      Obj(map k | k in t.Keys + patch.fields.Keys && !(k in patch.fields && patch.fields[k].Null?) ::
            if k in patch.fields then MergePatch(if k in t then t[k] else Null, patch.fields[k]) else t[k])
  }

  /** The string data of a ConfigMap, as the API server stores it. */
  predicate WellFormed(cm: Object) {
    "data" in cm ==> cm["data"].Obj? && forall k <- cm["data"].fields :: cm["data"].fields[k].Str?
  }

  function Data(cm: Object): map<string, string> {
    if "data" in cm && cm["data"].Obj?
    then map k | k in cm["data"].fields && cm["data"].fields[k].Str? :: cm["data"].fields[k].s
    else map[]
  }

  predicate HasOwner(cm: Object) {
    match NestedList(cm, ["metadata", "ownerReferences"])
    case Found(refs) => |refs| > 0
    case _ => false
  }

  /** The patch that sets one key, or deletes it where `value` is None. */
  function EntryPatch(name: string, value: Option<string>, owner: Option<Json>): Object {
    var data := map["data" := Obj(map[name := if value.Some? then Str(value.value) else Null])];
    if owner.Some? then data["metadata" := Obj(map["ownerReferences" := owner.value])] else data
  }

  function NewConfigMap(name: string, value: string, owner: Option<Json>): Object {
    map["data" := Obj(map[name := Str(value)]),
        "metadata" := Obj(if owner.Some? then map["ownerReferences" := owner.value] else map[])]
  }

  /** An owner reference list made from the HCO has one element. */
  predicate OwnerRefs(owner: Option<Json>) {
    owner.Some? ==> owner.value.List? && |owner.value.items| == 1
  }

  // Operations. ---------------------------------------------------------------------------------

  function Decode(codec: Codec, data: map<string, string>): map<string, Stage> {
    map k | k in data && codec.decode(data[k]).Some? :: codec.decode(data[k]).value
  }

  function RawData(cm: Option<Object>): map<string, string> {
    if cm.None? then map[] else Data(cm.value)
  }

  function Decoded(codec: Codec, cm: Option<Object>): map<string, Stage> { Decode(codec, RawData(cm)) }

  /** The result of an operation: the new store, and whether it returned without error. */
  datatype Outcome = Outcome(store: Store, ok: bool)

  function Load(codec: Codec, s: Store, io: Io): Outcome {
    if s.loaded then Outcome(s, true)
    else if !io.readOk then Outcome(s.(entries := map[]), false)
    else
      var hasOwner := if s.configMap.Some? then HasOwner(s.configMap.value) else s.hasOwner;
      Outcome(s.(entries := Decoded(codec, s.configMap), hasOwner := hasOwner, loaded := true), true)
  }

  function Write(s: Store, name: string, value: Option<string>, owner: Option<Json>, io: Io): Outcome {
    if !io.patchOk then Outcome(s, false)
    else if s.configMap.None? then
      if value.None? then Outcome(s, true)
      else if !io.createOk then Outcome(s, false)
      else Outcome(s.(configMap := Some(NewConfigMap(name, value.value, owner)), hasOwner := owner.Some?), true)
    else
      var patch := EntryPatch(name, value, if s.hasOwner then None else owner);
      Outcome(s.(configMap := Some(MergePatch(Obj(s.configMap.value), Obj(patch)).fields),
                 hasOwner := s.hasOwner || owner.Some?), true)
  }

  function Put(codec: Codec, s: Store, name: string, stage: Stage, owner: Option<Json>, io: Io): Outcome {
    var l := Load(codec, s, io);
    if !l.ok then l
    else
      var w := Write(l.store, name, Some(codec.encode(stage)), owner, io);
      if w.ok then Outcome(w.store.(entries := w.store.entries[name := stage]), true) else w
  }

  function Drop(codec: Codec, s: Store, name: string, io: Io): Outcome {
    var l := Load(codec, s, io);
    if !l.ok || name !in l.store.entries then l
    else
      var w := Write(l.store, name, None, None, io);
      if w.ok then Outcome(w.store.(entries := w.store.entries - {name}), true) else w
  }

  function Restarted(s: Store): Store { Store(false, false, map[], s.configMap) }

  class StagingStore {
    const codec: Codec
    var entries: map<string, Stage>
    var loaded: bool
    var hasOwner: bool
    /** The ConfigMap in the cluster; it outlives the process. */
    var configMap: Option<Object>

    ghost function View(): Store
      reads this
    {
      Store(loaded, hasOwner, entries, configMap)
    }

    constructor (codec: Codec, configMap: Option<Object>)
      ensures this.codec == codec && View() == Store(false, false, map[], configMap)
    {
      this.codec := codec;
      this.configMap := configMap;
      entries, loaded, hasOwner := map[], false, false;
    }

    method LoadStaging(io: Io) returns (ok: bool)
      modifies this
      ensures Outcome(View(), ok) == Load(codec, old(View()), io)
    {
      if loaded {
        return true;
      }
      entries := map[];
      if !io.readOk {
        return false;
      }
      if configMap.Some? {
        var data := Data(configMap.value);
        var todo := data.Keys;
        while todo != {}
          invariant todo <= data.Keys
          invariant loaded == old(loaded) && hasOwner == old(hasOwner) && configMap == old(configMap)
          invariant entries ==
            map k | k in data && k !in todo && codec.decode(data[k]).Some? :: codec.decode(data[k]).value
        {
          var name :| name in todo;
          todo := todo - {name};
          var stage := codec.decode(data[name]);
          if stage.Some? {
            entries := entries[name := stage.value];
          }
        }
        hasOwner := HasOwner(configMap.value);
      }
      loaded := true;
      return true;
    }

    method WriteEntry(name: string, value: Option<string>, owner: Option<Json>, io: Io) returns (ok: bool)
      modifies this
      ensures Outcome(View(), ok) == Write(old(View()), name, value, owner, io)
    {
      var patch := EntryPatch(name, value, None);
      if owner.Some? && !hasOwner {
        patch := patch["metadata" := Obj(map["ownerReferences" := owner.value])];
      }
      if !io.patchOk {
        return false;
      }
      if configMap.None? {
        if value.None? {
          return true;
        }
        if !io.createOk {
          return false;
        }
        configMap := Some(NewConfigMap(name, value.value, owner));
        hasOwner := owner.Some?;
        return true;
      }
      configMap := Some(MergePatch(Obj(configMap.value), Obj(patch)).fields);
      if owner.Some? {
        hasOwner := true;
      }
      return true;
    }

    method StageUpdate(name: string, stage: Stage, owner: Option<Json>, io: Io) returns (ok: bool)
      modifies this
      ensures Outcome(View(), ok) == Put(codec, old(View()), name, stage, owner, io)
    {
      ok := LoadStaging(io);
      if !ok {
        return;
      }
      ok := WriteEntry(name, Some(codec.encode(stage)), owner, io);
      if ok {
        entries := entries[name := stage];
      }
    }

    method UnstageUpdate(name: string, io: Io) returns (ok: bool)
      modifies this
      ensures Outcome(View(), ok) == Drop(codec, old(View()), name, io)
    {
      ok := LoadStaging(io);
      if !ok || name !in entries {
        return;
      }
      ok := WriteEntry(name, None, None, io);
      if ok {
        entries := entries - {name};
      }
    }
  }

  // The mirror is faithful. ---------------------------------------------------------------------

  /** Once loaded, memory holds exactly the decodable entries of the ConfigMap, and knows whether it has an owner. */
  predicate Mirrors(codec: Codec, s: Store) {
    && (s.configMap.Some? ==> WellFormed(s.configMap.value))
    && (s.loaded ==> s.entries == Decoded(codec, s.configMap))
    && (s.hasOwner ==> Owned(s.configMap))
    && (s.loaded && Owned(s.configMap) ==> s.hasOwner)
  }

  predicate Owned(cm: Option<Object>) { cm.Some? && HasOwner(cm.value) }

  /** The owner references of a ConfigMap. */
  function OwnerOf(cm: Option<Object>): Option<Json> {
    if cm.None? then None else Lookup(Obj(cm.value), ["metadata", "ownerReferences"])
  }

  /** The store is in memory already or can be read. */
  predicate Readable(s: Store, io: Io) { s.loaded || io.readOk }

  /** A new entry can be written, and so the ConfigMap created where there is none. */
  predicate Writable(s: Store, io: Io) { io.patchOk && (s.configMap.None? ==> io.createOk) }

  /** One field of a merged object. */
  lemma MergeAt(cm: Object, patch: Object, k: string)
    ensures var r := MergePatch(Obj(cm), Obj(patch)).fields;
            && (k in r <==> if k in patch then !patch[k].Null? else k in cm)
            && (k in r ==> r[k] == if k in patch then MergePatch(if k in cm then cm[k] else Null, patch[k]) else cm[k])
  {}

  function Fields(cm: Object): Object { if "data" in cm && cm["data"].Obj? then cm["data"].fields else map[] }

  function Texts(fields: Object): map<string, string>
    requires forall k <- fields :: fields[k].Str?
  {
    map k | k in fields :: fields[k].s
  }

  lemma DataIsTexts(cm: Object)
    requires forall k <- Fields(cm) :: Fields(cm)[k].Str?
    ensures Data(cm) == Texts(Fields(cm))
  {}

  /** A merge patch of one data key changes that key and no other, corrupt or not. */
  lemma PatchTouchesOneKey(cm: Object, name: string, value: Option<string>, owner: Option<Json>)
    requires WellFormed(cm)
    ensures var r := MergePatch(Obj(cm), Obj(EntryPatch(name, value, owner))).fields;
            && WellFormed(r)
            && Data(r) == (if value.Some? then Data(cm)[name := value.value] else Data(cm) - {name})
  {
    var patch := EntryPatch(name, value, owner);
    var r := MergePatch(Obj(cm), Obj(patch)).fields;
    MergeAt(cm, patch, "data");
    DataPatch(if "data" in cm then cm["data"] else Null, name, if value.Some? then Str(value.value) else Null);
    DataUpdate(Fields(cm), name, value);
    DataIsTexts(cm);
    DataIsTexts(r);
  }

  /** Nor does it change any other part of the ConfigMap, but for the owner it may add. */
  lemma PatchKeepsRest(cm: Object, name: string, value: Option<string>, owner: Option<Json>, k: string)
    requires k != "data" && (k != "metadata" || owner.None?)
    ensures var r := MergePatch(Obj(cm), Obj(EntryPatch(name, value, owner))).fields;
            (k in r <==> k in cm) && (k in r ==> r[k] == cm[k])
  {
    MergeAt(cm, EntryPatch(name, value, owner), k);
  }

  lemma DataUpdate(fields: Object, name: string, value: Option<string>)
    requires forall k <- fields :: fields[k].Str?
    ensures var after := if value.None? then fields - {name} else fields[name := Str(value.value)];
            && (forall k <- after :: after[k].Str?)
            && Texts(after) == if value.Some? then Texts(fields)[name := value.value] else Texts(fields) - {name}
  {}

  lemma DataPatch(data: Json, name: string, value: Json)
    requires value.Str? || value.Null?
    ensures var fields := if data.Obj? then data.fields else map[];
            MergePatch(data, Obj(map[name := value]))
            == Obj(if value.Null? then fields - {name} else fields[name := value])
  {}

  lemma PatchSetsOwner(cm: Object, name: string, value: Option<string>, owner: Option<Json>)
    requires OwnerRefs(owner)
    ensures var r := MergePatch(Obj(cm), Obj(EntryPatch(name, value, owner))).fields;
            OwnerOf(Some(r)) == (if owner.Some? then owner else OwnerOf(Some(cm)))
            && (HasOwner(r) <==> owner.Some? || HasOwner(cm))
  {
    var patch := EntryPatch(name, value, owner);
    MergeAt(cm, patch, "metadata");
    OwnerAt(MergePatch(Obj(cm), Obj(patch)).fields);
    OwnerAt(cm);
    if owner.Some? {
      var metadata := if "metadata" in cm && cm["metadata"].Obj? then cm["metadata"].fields else map[];
      MergeAt(metadata, patch["metadata"].fields, "ownerReferences");
    }
  }

  lemma OwnerAt(cm: Object)
    ensures OwnerOf(Some(cm)) ==
            if "metadata" in cm && cm["metadata"].Obj? && "ownerReferences" in cm["metadata"].fields
            then Some(cm["metadata"].fields["ownerReferences"]) else None
    ensures HasOwner(cm) <==>
            OwnerOf(Some(cm)).Some? && OwnerOf(Some(cm)).value.List? && |OwnerOf(Some(cm)).value.items| > 0
  {
    assert ["metadata", "ownerReferences"][1..] == ["ownerReferences"];
    if "metadata" in cm && cm["metadata"].Obj? {
      FieldOfField(cm, "metadata", "ownerReferences");
      FieldAt(cm["metadata"].fields, "ownerReferences");
    }
  }

  datatype Op =
    | PutOp(name: string, stage: Stage, owner: Option<Json>, io: Io)
    | DropOp(name: string, io: Io)
    | LoadOp(io: Io)
    | RestartOp

  function Step(codec: Codec, s: Store, op: Op): Store {
    match op
    case PutOp(name, stage, owner, io) => Put(codec, s, name, stage, owner, io).store
    case DropOp(name, io) => Drop(codec, s, name, io).store
    case LoadOp(io) => Load(codec, s, io).store
    case RestartOp => Restarted(s)
  }

  function Run(codec: Codec, s: Store, ops: seq<Op>): Store {
    if ops == [] then s else Step(codec, Run(codec, s, ops[..|ops| - 1]), ops[|ops| - 1])
  }

  predicate OwnersAreRefs(op: Op) { op.PutOp? ==> OwnerRefs(op.owner) }

  lemma DecodeUpdate(codec: Codec, data: map<string, string>, name: string, stage: Stage)
    requires codec.Faithful()
    ensures Decode(codec, data[name := codec.encode(stage)]) == Decode(codec, data)[name := stage]
    ensures Decode(codec, data - {name}) == Decode(codec, data) - {name}
  {
    assert codec.decode(codec.encode(stage)) == Some(stage);
  }

  /** A write commits exactly its key, or nothing when it fails. */
  lemma WriteEffect(codec: Codec, s: Store, name: string, value: Option<string>, owner: Option<Json>, io: Io)
    requires OwnerRefs(owner) && Mirrors(codec, s)
    ensures var w := Write(s, name, value, owner, io);
            && (w.ok <==> if value.Some? then Writable(s, io) else io.patchOk)
            && (!w.ok ==> w.store == s)
            && w.store.loaded == s.loaded && w.store.entries == s.entries
            && (w.ok && value.Some? ==> RawData(w.store.configMap) == RawData(s.configMap)[name := value.value])
            && (w.ok && value.None? ==> RawData(w.store.configMap) == RawData(s.configMap) - {name})
            && (w.store.configMap.Some? ==> WellFormed(w.store.configMap.value))
  {
    if io.patchOk && s.configMap.Some? {
      PatchTouchesOneKey(s.configMap.value, name, value, if s.hasOwner then None else owner);
    }
  }

  /** A write of an entry adds the owner where there is none, and replaces none. */
  lemma WriteOwner(codec: Codec, s: Store, name: string, value: Option<string>, owner: Option<Json>, io: Io)
    requires OwnerRefs(owner) && Mirrors(codec, s) && s.loaded && (value.None? ==> owner.None?)
    ensures var w := Write(s, name, value, owner, io);
            && (w.store.hasOwner <==> Owned(w.store.configMap))
            && (w.ok ==> OwnerOf(w.store.configMap) ==
                         if Owned(s.configMap) || owner.None? then OwnerOf(s.configMap) else owner)
  {
    if io.patchOk && s.configMap.Some? {
      PatchSetsOwner(s.configMap.value, name, value, if s.hasOwner then None else owner);
    } else if io.patchOk && io.createOk && value.Some? {
      OwnerAt(NewConfigMap(name, value.value, owner));
    }
  }

  lemma LoadMirrors(codec: Codec, s: Store, io: Io)
    requires Mirrors(codec, s)
    ensures var l := Load(codec, s, io);
            && Mirrors(codec, l.store) && l.store.configMap == s.configMap
            && (l.ok <==> Readable(s, io)) && (l.ok <==> l.store.loaded)
  {}

  /** Staging succeeds exactly when the store can be read and written. It then adds its entry durably, with the owner
      where the ConfigMap had none; on error it changes nothing durable. The mirror stays exact. */
  lemma PutEffect(codec: Codec, s: Store, name: string, stage: Stage, owner: Option<Json>, io: Io)
    requires codec.Faithful() && OwnerRefs(owner) && Mirrors(codec, s)
    ensures var r := Put(codec, s, name, stage, owner, io);
            && Mirrors(codec, r.store)
            && (r.ok <==> Readable(s, io) && Writable(s, io))
            && Decoded(codec, r.store.configMap) ==
               (if r.ok then Decoded(codec, s.configMap)[name := stage] else Decoded(codec, s.configMap))
            && OwnerOf(r.store.configMap) ==
               if !r.ok || Owned(s.configMap) || owner.None? then OwnerOf(s.configMap) else owner
  {
    LoadMirrors(codec, s, io);
    var l := Load(codec, s, io);
    if l.ok {
      WriteEffect(codec, l.store, name, Some(codec.encode(stage)), owner, io);
      WriteOwner(codec, l.store, name, Some(codec.encode(stage)), owner, io);
      DecodeUpdate(codec, RawData(s.configMap), name, stage);
    }
  }

  /** Unstaging succeeds exactly when the store can be read and, if there is an entry, patched. It then leaves no entry;
      on error it changes nothing durable. */
  lemma DropEffect(codec: Codec, s: Store, name: string, io: Io)
    requires codec.Faithful() && Mirrors(codec, s)
    ensures var r := Drop(codec, s, name, io);
            && Mirrors(codec, r.store)
            && (r.ok <==> Readable(s, io) && (name in Decoded(codec, s.configMap) ==> io.patchOk))
            && Decoded(codec, r.store.configMap) ==
               (if r.ok then Decoded(codec, s.configMap) - {name} else Decoded(codec, s.configMap))
            && OwnerOf(r.store.configMap) == OwnerOf(s.configMap)
  {
    LoadMirrors(codec, s, io);
    var l := Load(codec, s, io);
    if l.ok && name in l.store.entries {
      WriteEffect(codec, l.store, name, None, None, io);
      WriteOwner(codec, l.store, name, None, None, io);
      DecodeUpdate(codec, RawData(s.configMap), name, l.store.entries[name]);
    }
  }

  /** After any operations, failed writes and restarts, a loaded mirror equals the decodable entries. */
  lemma {:induction false} RunMirrors(codec: Codec, s: Store, ops: seq<Op>)
    requires codec.Faithful() && Mirrors(codec, s)
    requires forall i :: 0 <= i < |ops| ==> OwnersAreRefs(ops[i])
    ensures Mirrors(codec, Run(codec, s, ops))
  {
    if ops != [] {
      var before := ops[..|ops| - 1];
      RunMirrors(codec, s, before);
      var t := Run(codec, s, before);
      match ops[|ops| - 1]
      case PutOp(name, stage, owner, io) => PutEffect(codec, t, name, stage, owner, io);
      case DropOp(name, io) => DropEffect(codec, t, name, io);
      case LoadOp(io) => LoadMirrors(codec, t, io);
      case RestartOp =>
    }
  }

  /** Reloading after a restart gives back the map that was in memory before it. */
  lemma RestartKeepsEntries(codec: Codec, s: Store, ops: seq<Op>, io: Io)
    requires codec.Faithful() && Mirrors(codec, s)
    requires forall i :: 0 <= i < |ops| ==> OwnersAreRefs(ops[i])
    requires Run(codec, s, ops).loaded && io.readOk
    ensures Load(codec, Restarted(Run(codec, s, ops)), io).store.entries == Run(codec, s, ops).entries
  {
    RunMirrors(codec, s, ops);
  }
}
