# Verified model of virt-platform-autopilot

The autopilot is a Kubernetes operator that keeps a virtualization platform configured. This project models its
protocols and state machines in Dafny and proves what they keep, over every input, every run and every interleaving with
the other actors of a cluster. `dafny verify dfyconfig.toml` checks all of it.

| module | what it models |
|---|---|
| `JsonTree` | JSON trees and the nested get, set and remove of apimachinery's unstructured objects |
| `JsonPointer` | RFC 6901 pointers and the masking of ignored fields |
| `Drift` | the structured diff and the sanitizing of objects before it |
| `Ownership` | the managed-by label and the opt-out annotation |
| `Sorting` | sorted sequences and sorted map keys |
| `Rbac` | the merging of role rules |
| `CrdCache` | the cache of CRD existence |
| `TokenBuckets`, `Thrashing` | the per-key token bucket and the detector of consecutive throttles |
| `Staging` | the staging ConfigMap, its RFC 7396 patches and its mirror in memory |
| `Coalescing` | whether a MachineConfig update is held until a pool rolls out |
| `NodeDisruptionPolicy` | the gate in front of MachineConfigs that depend on a node disruption policy (NDP) |
| `PolicyAggregation` | the one policy aggregated from all active assets |
| `Patching` | `ReconcileAsset` as a state machine over bucket, detector and staging store |
| `AntiThrashing`, `StagingClock` | what every run of `ReconcileAsset` keeps |
| `AssetOutcomes` | the outcome of every call of `ReconcileAsset`, and the object it applies, read off the inputs |
| `Tombstones` | whether an effective policy entry applies to a tombstoned MachineConfig |
| `Platform` | `Reconcile`: tombstones, aggregate policy, generation barrier; server-side apply and the Machine Config Operator (MCO) |
| `PlatformSafety`, `PlatformProgress`, `PolicyRace` | what every run of `Reconcile` keeps, achieves, and races with |
| `GateOpening` | when the gate opens for a dependent |

Each operation that changes state is a method or a class whose `ensures` ties the new state to a function of the old one;
the lemmas are about these functions. Time is integer nanoseconds given as a parameter. What a template renders to, what
an API call returns and whether it fails, root exclusion, label selectors, hashing and JSON encoding are parameters, and
so universally quantified in every statement. In `Platform` an environment decides what others do to the cluster before
each single API call.

## Results

- **Tombstone safety** (`RunIsSafe`): in every run, whatever others do between any two API calls and whichever calls fail,
  a MachineConfig is deleted only as a labelled tombstone, in a reconcile whose last check found no effective entry for
  any live, labelled tombstoned MachineConfig at the very call that read it; if its first check found one, the
  reconcile's own aggregate was first applied without ignore-fields and the generation read was observed. Every event
  of the run is one that its pass allows: a disabled pass does nothing at all, one whose golden config is not in order only
  deletes other kinds, no decision rests on a failed call, and the policy is applied only where entries, a blocked check or
  the operator's own label call for it. The run is traced: every modelled call finds what others made of what the call before it left, and among the modelled calls
  nothing changes that the events do not account for ("Left out" names the writes outside them).
- **What is effective at a deletion** (`NothingEffectiveAtDeletion`, `BarrierCoversSpecIff`): the comments promise that MCO
  has observed the generation that drops a MachineConfig's actions before it is deleted. The barrier stands only behind a
  blocked first check. For any tombstones, nothing is effective at the deletion, whenever MCO takes over policies during
  the reconcile, exactly when the spec has no entry for the MachineConfig or the first check, left alone, is not clear.
- **Tombstone progress** (`TombstonesAreCleanedUp`): of the objects with tombstones, a reconcile, an MCO step and a reconcile
  leave exactly those that are not labelled.
- **Gate progress** (`GateOpensIff`): after the apply and an MCO step an active dependent passes the readiness gate exactly
  when its policy asks for actions, whatever entries other managers have.
- **Outcome of an asset** (`AppliedIff`, `ChangeOutcome`, `NothingToChange`, `SentNodes`): an asset is applied exactly when it
  renders, is not excluded, its policy if it depends on one covers it and is fulfilled, its live object is readable, neither
  paused nor opted out and of different intent, it waits for no rollout, its namespace is there, a token is left and the
  server accepts it; and what is applied is given node by node. Every other answer has its exact condition too, down to
  the staging store (`CoalesceExact`) and the readiness gate (`GateExact`, `CoversIff`). Trusted for this are a read that
  returns the object asked for, a patch that keeps an object's identity, and unique pool names.
- **Rate** (`RateBoundWithResets`, `ApplyRateBound`): the bucket's bound over any interval of any run, for calls and for the
  applies of `ReconcileAsset`: one capacity for the interval and one for each reset in it (a resume, a restart), none for
  stale-entry cleanup, plus the refill. `RateBoundIsTight` meets the bound without resets for an interval of any length.
- **Episodes** (`RunCounts`, `CounterRisesOncePerEpisode`): the thrashing counter, the pause signal and the detector over every run.
- **Staging** (`RunMirrors`, `StagedSinceFirstHold`): mirror and ConfigMap agree through failures and restarts; the staging
  time is that of the first hold of the rendered state, whatever was staged before.
- **Masking** (`MaskNodes` and the lemmas after it): the masked tree node by node, for overlapping pointers in any order.

Where code and documentation disagree, the model follows the code:

- `docs/anti-thrashing-design.md` describes five updates per window; the code has capacity 10 and refills continuously.
- After a pause annotation could not be written, the comment expects a retry; the next call takes the missing annotation
  for a resume and starts a new episode with a full bucket (`FailedPauseLooksLikeResume`).
- A user patch on a MachineConfig is refused, yet it restarts the staging clock at the next hold exactly when the rendered
  object has no plain annotations map to begin with and the object that the refusal leaves does not happen to have the
  same hash (`PatchRestartsClockIff`); nothing is assumed of the hash.
- CRD cache answers are within the TTL in every run exactly when replies take no time, since an entry is stamped after
  the reply (`FreshIffImmediate`).
- Role rules are kept apart by their joined names, so a comma or an empty name can merge different scopes; names survive
  exactly when colliding rules have the same names and none is empty (`MergeKeepsNamesIff`).
- Whether masking succeeds depends on the order of the pointers, though its result does not (`MaskSuccessDependsOnOrder`).

## Model

| member | source | states |
|---|---|---|
| `JsonTree.SetNodes` | vendor/k8s.io/apimachinery/pkg/apis/meta/v1/unstructured/helpers.go:257-279 | every node of a tree after a set: the new value at and below the path, objects above it, all else as before |
| `JsonTree.SetLookup` | vendor/k8s.io/apimachinery/pkg/apis/meta/v1/unstructured/helpers.go:257-279 | a path neither above nor below the one that is set reads as before |
| `JsonTree.SetSucceedsIff` | vendor/k8s.io/apimachinery/pkg/apis/meta/v1/unstructured/helpers.go:261-279 | a set fails exactly when something that is not an object lies on the way |
| `JsonTree.RemoveNodes` | vendor/k8s.io/apimachinery/pkg/apis/meta/v1/unstructured/helpers.go:314-324 | a removal takes away exactly the subtree at the path |
| `JsonTree.SameNodesSameTree` | vendor/k8s.io/apimachinery/pkg/apis/meta/v1/unstructured/helpers.go:54-71 | a tree is determined by what nested reads find |
| `JsonTree.MismatchIff` | vendor/k8s.io/apimachinery/pkg/apis/meta/v1/unstructured/helpers.go:54-71 | a nested read is an error exactly when something that is neither an object nor null lies on the way |
| `JsonTree.StringMapEntry` | vendor/k8s.io/apimachinery/pkg/apis/meta/v1/unstructured/unstructured.go:399-423 | a label or annotation is a string, or a null for the empty one, in a map that has nothing else |
| `JsonTree.StringMapRoundTrip` | vendor/k8s.io/apimachinery/pkg/apis/meta/v1/unstructured/unstructured.go:399-423 | a metadata string map such as labels or annotations reads back as written |
| `JsonTree.AnnotationKeepsRest` | vendor/k8s.io/apimachinery/pkg/apis/meta/v1/unstructured/unstructured.go:412-423 | setting an annotation changes no label and nothing that identifies the object |
| `JsonPointer.DecodePointer` | pkg/overrides/jsonpointer.go:92-97 | the loop computes the decoded tokens |
| `JsonPointer.PointerRoundTrip` | pkg/overrides/jsonpointer.go:86-97 | decoding the pointer that RFC 6901 assigns to any non-empty list of tokens gives the tokens back |
| `JsonPointer.SwappedUnescapeLosesTokens` | pkg/overrides/jsonpointer.go:94-97 | with the two replacements swapped the round trip fails |
| `JsonPointer.ParsePointers` | pkg/overrides/jsonpointer.go:71-83 | the loop computes the non-empty trimmed parts between commas |
| `JsonPointer.ListingReadsBack` | pkg/overrides/jsonpointer.go:71-83 | pointers listed with commas between them and any blanks and empty items around them are read back in order |
| `JsonPointer.TextIsListing` | pkg/overrides/jsonpointer.go:71-83 | every annotation text is such a listing |
| `JsonPointer.CopyFieldByPointer` | pkg/overrides/jsonpointer.go:86-117 | one pointer copied, removed or refused |
| `JsonPointer.MaskIgnoredFields` | pkg/overrides/jsonpointer.go:34-68 | the loop computes the masked object or the error |
| `JsonPointer.MaskNodes` | pkg/overrides/jsonpointer.go:34-117 | every node of the masked object: from live at and below a pointer, an object above a live value, else from desired |
| `JsonPointer.MaskTakesLiveAtPointers` | pkg/overrides/jsonpointer.go:31-68 | every listed pointer has the presence and value it has in live, whatever the order and overlap |
| `JsonPointer.MaskKeepsDesiredElsewhere` | pkg/overrides/jsonpointer.go:31-68 | a path that is no prefix or extension of a pointer is as in desired |
| `JsonPointer.MaskIsIdempotent` | pkg/overrides/jsonpointer.go:34-68 | masking again succeeds and changes nothing |
| `JsonPointer.MaskIgnoresPointerOrder` | pkg/overrides/jsonpointer.go:60-65 | listings of the same pointers give the same object whenever both succeed |
| `JsonPointer.MaskSucceedsIff` | pkg/overrides/jsonpointer.go:60-117 | masking succeeds exactly when no pointer is malformed or blocked on its turn |
| `JsonPointer.MaskSuccessDependsOnOrder` | pkg/overrides/jsonpointer.go:60-65 | two orders of the same pointers, one refused and one not |
| `JsonPointer.MaskKeepsIdentity` | pkg/overrides/jsonpointer.go:34-68 | an object masked with its own live object keeps kind, API version, name and namespace |
| `Drift.StructuredDiff` | pkg/engine/drift.go:145-172 | the recursion with its loops computes the diff |
| `Drift.DiffEmptyIffEqual` | pkg/engine/drift.go:142-172 | the diff is empty exactly when the objects are equal, at any depth |
| `Drift.DiffAtPath` | pkg/engine/drift.go:142-172 | the diff has an entry at a path exactly when the subtrees there differ |
| `Drift.DiffShows` | pkg/engine/drift.go:142-172 | and shows the live and the desired one there, null for an absent one |
| `Drift.SanitizeObject` | pkg/engine/drift.go:108-140 | the edited copy is the sanitized object |
| `Drift.SanitizedSameIntent` | pkg/engine/drift.go:108-140 | sanitized objects are equal exactly when the originals agree but for status and metadata other than name, namespace, labels and annotations |
| `Drift.DriftIffIntentDiffers` | pkg/engine/drift.go:73-78 | drift is found, and the logged diff is non-empty, exactly for objects of different intent |
| `Ownership.LabelledIff` | pkg/engine/applier.go:184-191 | an object is the operator's own exactly when its label map is readable and has the managed-by value |
| `Ownership.UnmanagedIff` | pkg/overrides/validation.go:145-158 | likewise an object is opted out by its mode annotation |
| `Sorting.SortedUnique` | pkg/rbac/rbac.go:286-295 | a non-descending sequence is determined by the multiset of its elements |
| `Sorting.SortedKeys` | pkg/rbac/rbac.go:670-677 | keys collected in any order come out sorted |
| `Rbac.AddRuleToGroup` | pkg/rbac/rbac.go:269-282 | a rule's resources and verbs join its group |
| `Rbac.GroupRules` | pkg/rbac/rbac.go:262-284 | the nested loops compute the groups |
| `Rbac.EmitRules` | pkg/rbac/rbac.go:297-323 | the loop emits one rule per key, in order |
| `Rbac.MergeTransitiveRules` | pkg/rbac/rbac.go:247-324 | the whole computes the merged rules |
| `Rbac.GroupedParts` | pkg/rbac/rbac.go:262-284 | a group holds exactly the resources and verbs of the rules with its API group and names |
| `Rbac.SameKeySameNames` | pkg/rbac/rbac.go:263-266 | rules with clean names share a key only if they have the same names |
| `Rbac.MergeKeepsNamesIff` | pkg/rbac/rbac.go:262-284 | the output for every group of every rule has that rule's names exactly when colliding rules have the same names and none is empty |
| `Rbac.CleanIsApart` | pkg/rbac/rbac.go:263-266 | names that are non-empty and have no comma meet that condition |
| `Rbac.CommasCollide` | pkg/rbac/rbac.go:263-266 | a name with a comma can break it |
| `Rbac.MergeLosesNothing` | pkg/rbac/rbac.go:247-324 | under that condition every group, resource and verb of every input is granted by an output with the same names |
| `Rbac.MergeAddsNothing` | pkg/rbac/rbac.go:247-324 | under that condition every resource and verb of an output comes from an input with that group and names |
| `Rbac.MergeOneRulePerScope` | pkg/rbac/rbac.go:247-249 | under that condition no two outputs have the same group and names |
| `Rbac.MergeIsSorted` | pkg/rbac/rbac.go:286-323 | under that condition outputs ascend by group and names, and the resources and verbs of each ascend |
| `Rbac.MergeIgnoresOrder` | pkg/rbac/rbac.go:247-249 | under that condition the same rules in any order give the same list |
| `CrdCache.CRDChecker.IsCRDInstalled` | pkg/util/crd_checker.go:67-90 | a fresh entry answers, else the server does and is stored with the time of its reply |
| `CrdCache.CRDChecker.InvalidateCache` | pkg/util/crd_checker.go:124-132 | one name or, for the empty name, all are forgotten |
| `CrdCache.EntryExact` | pkg/util/crd_checker.go:124-175 | after every run the entry of a name is the answer last asked for, unless that name was invalidated since; other names have no effect |
| `CrdCache.FailsIff` | pkg/util/crd_checker.go:67-90 | a call fails exactly when no fresh answer is stored and the server cannot be reached |
| `CrdCache.EntriesAreDated` | pkg/util/crd_checker.go:136-162 | in every run each entry is a server answer no older than the last invalidation of its name |
| `CrdCache.CacheAgreesWithServer` | pkg/util/crd_checker.go:67-90 | every answer without error was the server's at an instant at most TTL plus reply time ago, and not before the last invalidation |
| `CrdCache.AgeBoundIsTight` | pkg/util/crd_checker.go:136-162 | that age is reached |
| `CrdCache.FreshIffImmediate` | pkg/util/crd_checker.go:67-90 | answers are the server's at most TTL ago in every run exactly when replies take no time |
| `CrdCache.OverlapMissesInvalidation` | pkg/util/crd_checker.go:67-90 | an invalidation during a call is missed |
| `TokenBuckets.TokenBucket.Allow` | pkg/throttling/token_bucket.go:69-115 | the buckets after a call, and whether it is allowed |
| `TokenBuckets.TokenBucket.Reset` | pkg/throttling/token_bucket.go:131-136 | one bucket is dropped |
| `TokenBuckets.TokenBucket.ResetAll` | pkg/throttling/token_bucket.go:139-144 | all buckets are dropped |
| `TokenBuckets.TokenBucket.GetTokens` | pkg/throttling/token_bucket.go:148-168 | the count with the tokens accrued since, nothing changed |
| `TokenBuckets.TokenBucket.CleanupStale` | pkg/throttling/token_bucket.go:173-188 | exactly the buckets untouched for longer than the TTL go, and their number is returned |
| `TokenBuckets.StepPays` | pkg/throttling/token_bucket.go:69-115 | what a bucket can still hand out falls by what a call is granted, and rises by at most a full bucket at a reset |
| `TokenBuckets.IdleBucketIsFull` | pkg/throttling/token_bucket.go:170-188 | a bucket idle for a window is full, so dropping it grants nothing extra |
| `TokenBuckets.RateBoundWithResets` | pkg/throttling/token_bucket.go:69-188 | in any interval of any run, with cleanup at any point and r resets in the interval, at most (r + 1) * capacity + ceil(T/d) calls of a key are allowed |
| `TokenBuckets.RateBound` | pkg/throttling/token_bucket.go:69-115 | so without resets at most capacity + ceil(T/d) |
| `TokenBuckets.RateBoundIsTight` | pkg/throttling/token_bucket.go:88-105 | for every interval length a run that reaches the bound |
| `TokenBuckets.TokensLeftCountsBurst` | pkg/throttling/token_bucket.go:146-168 | the count is the number of calls that a burst of any length would be allowed |
| `TokenBuckets.TokensLeftForetells` | pkg/throttling/token_bucket.go:146-168 | the count is positive exactly when a call would be allowed |
| `Thrashing.ThrashingDetector.RecordThrottle` | pkg/throttling/thrashing_detector.go:74-96 | the count rises, and the threshold is reported exactly when reached |
| `Thrashing.ThrashingDetector.RecordSuccess` | pkg/throttling/thrashing_detector.go:100-106 | the key is forgotten |
| `Thrashing.ThrashingDetector.ShouldEmitMetric` | pkg/throttling/thrashing_detector.go:110-126 | true once per episode from the threshold on |
| `Thrashing.ThrashingDetector.GetAttempts` | pkg/throttling/thrashing_detector.go:129-138 | the count, nothing changed |
| `Thrashing.ThrashingDetector.Reset` | pkg/throttling/thrashing_detector.go:142-146 | the key is forgotten |
| `Thrashing.KeysAreDistinct` | pkg/throttling/token_bucket.go:208-214 | triples whose parts have no slash never share a key |
| `Thrashing.SlashesCollide` | pkg/throttling/token_bucket.go:208-214 | with a slash two triples can |
| `Staging.StagingStore.LoadStaging` | pkg/engine/machineconfig_coalescing.go:384-412 | the mirror becomes the decodable entries, once |
| `Staging.StagingStore.WriteEntry` | pkg/engine/machineconfig_coalescing.go:467-512 | create or merge patch, committed or failed |
| `Staging.StagingStore.StageUpdate` | pkg/engine/machineconfig_coalescing.go:427-443 | the entry is written, then mirrored |
| `Staging.StagingStore.UnstageUpdate` | pkg/engine/machineconfig_coalescing.go:445-461 | the entry is deleted, then dropped from the mirror |
| `Staging.PatchTouchesOneKey` | pkg/engine/machineconfig_coalescing.go:463-512 | the merge patch changes one data key and no other, corrupt or not |
| `Staging.PatchKeepsRest` | pkg/engine/machineconfig_coalescing.go:463-512 | and nothing else of the ConfigMap but the owner it may add |
| `Staging.PutEffect` | pkg/engine/machineconfig_coalescing.go:427-443 | staging succeeds exactly when the store can be read and written; it is then durable, with an owner added where there was none, or else changes nothing durable; the mirror stays exact |
| `Staging.DropEffect` | pkg/engine/machineconfig_coalescing.go:445-461 | unstaging succeeds exactly when the store can be read and, if there is an entry, patched; then no entry is left, else nothing durable changes |
| `Staging.RunMirrors` | pkg/engine/machineconfig_coalescing.go:384-512 | after any loads, stages, unstages, failed writes and restarts a loaded mirror equals the decodable entries |
| `Staging.RestartKeepsEntries` | pkg/engine/machineconfig_coalescing.go:384-412 | reloading after a restart gives back the map from before it |
| `Coalescing.MachineConfigIff` | pkg/engine/machineconfig_coalescing.go:84-88 | a MachineConfig has that kind and any version of that API group |
| `Coalescing.ParseBoolIff` | pkg/engine/machineconfig_coalescing.go:205-220 | which spellings of a bypass are true, which are false |
| `Coalescing.MachineConfigPoolRolloutConditions` | pkg/engine/machineconfig_coalescing.go:320-339 | the loop collects the last status of each condition |
| `Coalescing.ReleasesIff` | pkg/engine/machineconfig_coalescing.go:320-362 | a pool releases exactly when its last Updating or RenderDegraded condition is true |
| `Coalescing.MatchingMachineConfigPools` | pkg/engine/machineconfig_coalescing.go:233-267 | the loops compute the matching pools or the error |
| `Coalescing.MatchingExact` | pkg/engine/machineconfig_coalescing.go:233-267 | an error exactly for a malformed selector; else exactly the pools that select the live or desired labels |
| `Coalescing.CoalesceMachineConfigUpdate` | pkg/engine/machineconfig_coalescing.go:97-167 | verdict and staging store are those of the decision function |
| `Coalescing.HoldUpdate` | pkg/engine/machineconfig_coalescing.go:136-166 | the staged entry is kept, updated or replaced |
| `Coalescing.HeldIffShouldHold` | pkg/engine/machineconfig_coalescing.go:97-166 | without error an update is held exactly when the HCO has a namespace, MCO is present, no bypass is in effect, a pool matches and no matching pool releases; with a working store it fails exactly when the pools matter and cannot be listed |
| `Coalescing.CoalesceExact` | pkg/engine/machineconfig_coalescing.go:97-166 | verdict and staged entries for every answer of the API server: exactly when an update is held, fails or passes, which entry and owner a hold leaves, and when an entry is dropped |
| `Coalescing.CoalesceKeepsClock` | pkg/engine/machineconfig_coalescing.go:106-166 | an entry for the same hash keeps its time, a hold of another state starts at the time of the hold, entries change only with a hold, others are kept, and one goes only for a bypass or when no pool matches |
| `Coalescing.PassesIff` | pkg/controller/platform_controller.go:596-609 | a pool update passes the watch predicate exactly when it changes the last Updating or RenderDegraded condition |
| `Coalescing.ReleaseIsSeen` | pkg/controller/platform_controller.go:596-609 | any sequence of pool updates that changes whether a pool releases has one that passes the watch predicate |
| `NodeDisruptionPolicy.CheckSSHKeys` | pkg/engine/node_disruption_policy.go:493-535 | the loop decides whether the users are coverable and covered |
| `NodeDisruptionPolicy.NamedEntriesMatch` | pkg/engine/node_disruption_policy.go:580-609 | the nested loops decide whether every expected entry has its actions |
| `NodeDisruptionPolicy.KeyedEntriesMatch` | pkg/engine/node_disruption_policy.go:537-560 | the answer for files or units, errors included |
| `NodeDisruptionPolicy.EntriesMatch` | pkg/engine/node_disruption_policy.go:537-578 | the answer for the whole policy |
| `NodeDisruptionPolicy.PrepareDependent` | pkg/engine/node_disruption_policy.go:320-342 | pass with the marker, wait, or fail |
| `NodeDisruptionPolicy.CoversIff` | pkg/engine/node_disruption_policy.go:398-535 | a policy covers a MachineConfig exactly when its sections are objects, every path below spec is coverable, every file and unit is named, and there are actions where users have keys |
| `NodeDisruptionPolicy.EffectiveExact` | pkg/engine/node_disruption_policy.go:537-618 | the answer is yes exactly when everything requested is met, and no exactly when the first request not met is well formed |
| `NodeDisruptionPolicy.GateExact` | pkg/engine/node_disruption_policy.go:320-396 | a dependent passes exactly when covered and its policy is fulfilled, waits exactly when covered and it is not yet, and fails otherwise |
| `NodeDisruptionPolicy.CoveredShape` | pkg/engine/node_disruption_policy.go:398-443 | a covered MachineConfig has nothing outside the coverable paths |
| `NodeDisruptionPolicy.CoveredEntries` | pkg/engine/node_disruption_policy.go:445-491 | each of its files and units is named by the policy |
| `NodeDisruptionPolicy.GateEntriesEffective` | pkg/engine/node_disruption_policy.go:317-342 | a dependent that passes has, for each file and unit, a status entry with exactly the actions of every requested entry for it |
| `NodeDisruptionPolicy.GateSshEffective` | pkg/engine/node_disruption_policy.go:317-342 | likewise for SSH keys, if it uses any |
| `NodeDisruptionPolicy.GateShape` | pkg/engine/node_disruption_policy.go:317-342 | and it has nothing that a policy cannot cover |
| `PolicyAggregation.MergeKeyedEntries` | pkg/engine/node_disruption_policy.go:282-302 | the merged entries, or a conflict or malformed entry |
| `PolicyAggregation.MergeSSHKey` | pkg/engine/node_disruption_policy.go:271-280 | likewise the SSH key actions |
| `PolicyAggregation.AggregateEntries` | pkg/engine/node_disruption_policy.go:212-247 | the loop over assets computes the aggregate or fails |
| `PolicyAggregation.EntriesInOrder` | pkg/engine/node_disruption_policy.go:304-315 | the entries sorted by key |
| `PolicyAggregation.CandidateExact` | pkg/engine/node_disruption_policy.go:212-269 | which assets are skipped, which fail the whole, and with which policy the others take part: by policy, activity, rendering, exclusion and coverage |
| `PolicyAggregation.PairsExact` | pkg/engine/node_disruption_policy.go:271-302 | the entries of a policy are those its lists have under their identifiers, unless one is malformed |
| `PolicyAggregation.PartExact` | pkg/engine/node_disruption_policy.go:212-315 | aggregation succeeds exactly when the policies of all assets that take part are well formed and no two conflict, and holds exactly their entries |
| `PolicyAggregation.EntriesAscend` | pkg/engine/node_disruption_policy.go:304-315 | the entries applied are those of the aggregate, ascending by key |
| `PolicyAggregation.AggregationIgnoresOrder` | pkg/engine/node_disruption_policy.go:212-247 | any order of the assets fails alike or gives the same lists |
| `PolicyAggregation.AggregateCoversDependents` | pkg/engine/node_disruption_policy.go:212-269 | the aggregate has an entry for every file and unit of every dependent that takes part |
| `PolicyAggregation.AggregateIsKeyed` | pkg/engine/node_disruption_policy.go:282-302 | every entry is filed under its own identifier |
| `Patching.Patcher.ReconcileAsset` | pkg/engine/patcher.go:97-597 | result, bucket, detector and staging store of a call are those of the state machine |
| `Patching.Patcher.ReconcileUnpaused` | pkg/engine/patcher.go:238-597 | resume reset, then the rest |
| `Patching.Patcher.DetermineEffect` | pkg/engine/patcher.go:269-415 | opt-out, patch, hash before mask, mask, drift |
| `Patching.Patcher.CoalesceAndApply` | pkg/engine/patcher.go:417-597 | coalescing before the gate |
| `Patching.Patcher.ThrottleThenApply` | pkg/engine/patcher.go:457-597 | gate, pause, apply, unstaging, success |
| `Patching.Patcher.CleanupExcludedAsset` | pkg/engine/patcher.go:82-91 | an excluded asset's staging entry is dropped |
| `Patching.Patcher.ReconcileAssets` | pkg/engine/patcher.go:600-646 | the loop sweeps stale buckets, reconciles all assets in turn and counts applies and errors |
| `Patching.EveryAssetCounts` | pkg/engine/patcher.go:600-646 | every asset is counted once, as applied, failed or left |
| `AntiThrashing.CallEffects` | pkg/engine/patcher.go:457-580 | what each result of a call implies for bucket and detector |
| `AntiThrashing.PausedIff` | pkg/overrides/validation.go:160-174 | an object is paused exactly when its annotation map is readable and says so |
| `AntiThrashing.PausedIsInert` | pkg/engine/patcher.go:223-236 | over a live object read as paused a call applies nothing and changes nothing |
| `AntiThrashing.RunCounts` | pkg/throttling/thrashing_detector.go:74-146 | in every run a pause is signalled exactly from the third throttle of an episode on, and the counter rises exactly at it |
| `AntiThrashing.CounterRisesOncePerEpisode` | pkg/throttling/thrashing_detector.go:110-126 | between two rises of the counter lies a successful apply or a resume reset |
| `AntiThrashing.RunOpsEffect` | pkg/engine/patcher.go:457-526 | a run of calls is a run of the bucket, its applies are grants of it, and its resumes and restarts are the resets |
| `AntiThrashing.ApplyRateBound` | pkg/engine/patcher.go:457-526 | in any interval of any run the applies to one resource obey the bucket's bound, with one more capacity for each resume reset or restart in the interval |
| `AntiThrashing.FailedPauseLooksLikeResume` | pkg/engine/patcher.go:238-257 | after a failed pause write the next call resets the episode, and may apply, exactly when the object exists |
| `AntiThrashing.ResumesIff` | pkg/engine/patcher.go:238-257 | in every run a call resets a resource exactly when it reads the live object as unpaused after at least three throttles of the episode |
| `AssetOutcomes.NothingToChange` | pkg/engine/patcher.go:97-415 | a call that finds nothing to change: exactly when it skips and when it fails, and what it leaves alone |
| `AssetOutcomes.ChangeOutcome` | pkg/engine/patcher.go:417-597 | a call that does: exactly when it holds, fails, skips, is throttled or applies, and which object |
| `AssetOutcomes.AppliedIff` | pkg/engine/patcher.go:97-597 | an asset is applied exactly under the conditions listed above, as the object sent |
| `AssetOutcomes.SentNodes` | pkg/engine/patcher.go:293-384 | outside labels and annotations that object is the rendered or patched one with the ignored fields of the live one, node by node |
| `AssetOutcomes.PatchedAnnotations` | pkg/engine/patcher.go:293-340 | the annotations under a patch: without it where it is refused, with it where it fails |
| `AssetOutcomes.SentMarks` | pkg/engine/patcher.go:372-384 | it carries the managed-by label, and a MachineConfig the bypass of the live one |
| `AssetOutcomes.OnlyCoveredGoOn` | pkg/engine/patcher.go:153-170 | unless a call skips or fails, the policy its asset depends on was read as effective for every file, unit and SSH key of the asset |
| `AssetOutcomes.AppliedIsUnstaged` | pkg/engine/patcher.go:552-576 | once a MachineConfig is applied and the store works, no staged entry for it is left |
| `AssetOutcomes.ExcludedIsUnstaged` | pkg/engine/patcher.go:82-91 | an excluded asset loses exactly its own staged entry |
| `StagingClock.EffectIdentity` | pkg/engine/patcher.go:293-370 | the object applied is the one rendered, through patch, mask, label and bypass |
| `StagingClock.NormalizedNodes` | pkg/engine/machineconfig_coalescing.go:364-380 | what is hashed is the object without exactly the metadata that a server fills in |
| `StagingClock.HashedAsRendered` | pkg/engine/patcher.go:342-352 | a MachineConfig is hashed as rendered, whatever is masked, unless a patch disturbs its annotations |
| `StagingClock.CallKeepsEntry` | pkg/engine/patcher.go:417-576 | one call keeps hash and time of a staged entry unless the update is applied, bypassed or unmatched |
| `StagingClock.HoldStages` | pkg/engine/machineconfig_coalescing.go:142-166 | after a hold the state held is staged, since this call unless that very state was staged before |
| `StagingClock.StagedTimeSurvives` | pkg/engine/machineconfig_coalescing.go:106-185 | over every run of calls, sweeps, exclusions of others and restarts a staged entry keeps its hash and time until the update is applied, bypassed or unmatched |
| `StagingClock.StagedSinceFirstHold` | pkg/engine/machineconfig_coalescing.go:106-185 | from the first hold of a rendered state, whatever was staged before, the recorded time over such a run is that of the first hold |
| `StagingClock.RefusedPatchKeepsHashIff` | pkg/engine/patcher.go:293-352 | a refused patch leaves the object to be hashed as it was exactly when its annotations are a plain map |
| `StagingClock.PatchRestartsClockIff` | pkg/engine/patcher.go:293-352 | whatever the hash, a patch restarts the clock of a staged MachineConfig at the next hold exactly when the annotations are not a plain map and the changed object does not hash like the one rendered |
| `Tombstones.HasEffectivePolicy` | pkg/engine/tombstone.go:129-172 | the loops compute the answer, errors included |
| `Tombstones.CollectNames` | pkg/engine/tombstone.go:134-151 | the loop collects the identifiers or stops at a mistyped one |
| `Tombstones.ClearIffNoEntries` | pkg/engine/tombstone.go:129-172 | the answer is no exactly when all is well typed and the policy has no entry for any file or unit |
| `Tombstones.BlockedHasEntry` | pkg/engine/tombstone.go:129-172 | the answer is yes only for a file or unit with an entry |
| `Tombstones.WellTypedDecides` | pkg/engine/tombstone.go:129-172 | the check fails only where something is mistyped |
| `Platform.PlatformReconciler.Reconcile` | pkg/controller/platform_controller.go:146-271 | the cluster, what each call found and left and the events after a reconcile are those of the protocol; the other assets may leave anything |
| `Platform.PlatformReconciler.Check` | pkg/engine/tombstone.go:84-127 | verdict and calls of a check |
| `Platform.PlatformReconciler.ScanAll` | pkg/engine/tombstone.go:101-126 | the loop over tombstones up to the first that blocks or fails |
| `Platform.PlatformReconciler.DeleteMatching` | pkg/engine/tombstone.go:182-230 | the loop deletes labelled tombstones of one kind and goes on after errors |
| `Platform.PlatformReconciler.DeleteOne` | pkg/engine/tombstone.go:234-327 | one tombstone: absent, unlabelled, failed, gone meanwhile, or deleted |
| `Platform.PlatformReconciler.ReconcileAggregate` | pkg/engine/node_disruption_policy.go:66-108 | create, opt out, mask, apply, and whether tombstones may rely on it |
| `Platform.Planned` | pkg/engine/node_disruption_policy.go:66-107 | what the live singleton calls for: nothing, an error, or an apply that tombstones may rely on or not |
| `Platform.PlatformReconciler.ReconcileOtherAssets` | pkg/controller/platform_controller.go:448-464 | the other assets leave whatever their reconciliation makes of the cluster found |
| `Platform.PlatformReconciler.ReconcileNodeDisruptionPolicies` | pkg/engine/node_disruption_policy.go:50-56 | exclusion, aggregation, apply |
| `Platform.PlatformReconciler.GenerationObserved` | pkg/engine/node_disruption_policy.go:165-180 | whether the status has caught up with the generation read |
| `PlatformSafety.ScanMeans` | pkg/engine/tombstone.go:78-127 | a clear check found no effective entry for any live, labelled tombstoned MachineConfig at the call that read it; a blocking one found one at its last call and none before |
| `PlatformSafety.CheckFails` | pkg/engine/tombstone.go:84-127 | a check that decides made no failed call; one that fails made one last or met something mistyped |
| `PlatformSafety.ReconcileTraced` | pkg/controller/platform_controller.go:146-271 | each call finds what others made of what the call before left, every change is that of an event, and events name their calls in order |
| `PlatformSafety.ReconcileMeans` | pkg/controller/platform_controller.go:184-264 | every event means what it says of its calls, under any interference and failures: what a check found, which aggregate was applied to what and how masked, whether the generation was observed, what was deleted; and none of its calls failed, the operator is enabled, and the golden config, the other assets and the availability of the policy allow it |
| `PlatformSafety.ReconcileInOrder` | pkg/controller/platform_controller.go:223-264 | a MachineConfig deletion follows a clear last check which is the first, or comes after a blocked check, a managed apply and an observed generation |
| `PlatformSafety.ReconcilePrompted` | pkg/controller/platform_controller.go:205-222 | the policy is applied, and the other assets are reconciled, only after a first check that decided, and with no other calls between than the inputs and the live singleton call for |
| `PlatformSafety.ReconcileIsSafe` | pkg/controller/platform_controller.go:146-271 | a disabled pass changes nothing and makes no call; trace, meaning and prompting of every event of any other, and the order for every deletion of a MachineConfig |
| `PlatformSafety.RunIsSafe` | pkg/controller/platform_controller.go:146-271 | the same in every run of reconciles, each event within one of them, and the whole run traced |
| `PlatformProgress.QuietDeletions` | pkg/engine/tombstone.go:182-327 | left alone, deletion removes exactly the labelled tombstones of its kind |
| `PlatformProgress.MergedEntries` | test/node_disruption_policy_integration_test.go:56-81 | after an apply a list has exactly the aggregate's entries and those live ones that only another manager applies |
| `PlatformProgress.AppliedIsClear` | pkg/engine/node_disruption_policy.go:182-197 | then none applies to a MachineConfig nobody supplies entries for |
| `PlatformProgress.FirstReconcile` | pkg/controller/platform_controller.go:223-264 | the first reconcile cleans up, or applies the aggregate and leaves the MachineConfigs |
| `PlatformProgress.SecondReconcile` | pkg/controller/platform_controller.go:223-264 | after that and an MCO step the next one cleans up |
| `PlatformProgress.TombstonesAreCleanedUp` | pkg/controller/platform_controller.go:223-264 | of the objects with tombstones, reconcile, MCO step, reconcile leave exactly those that are not labelled |
| `PlatformProgress.QuietReconcile` | pkg/controller/platform_controller.go:146-271 | left alone, no reconcile removes a tombstoned object but a labelled one, and outside the tombstones it leaves what was there or what the other assets made of it, whatever goes wrong |
| `PolicyRace.ClearCheck` | pkg/engine/tombstone.go:84-127 | with no entry in the spec, a clear check means no effective entry then and later, while MCO moves |
| `PolicyRace.AppliedIsFree` | pkg/engine/node_disruption_policy.go:66-108 | the apply leaves no entry in the spec for a MachineConfig nobody supplies entries for |
| `PolicyRace.NothingEffectiveAtDeletion` | pkg/controller/platform_controller.go:184-264 | while MCO moves, nothing is effective for a MachineConfig when it is deleted, if the spec had no entry for it or the first check blocked |
| `PolicyRace.LateTakeover` | pkg/controller/platform_controller.go:223-264 | where the spec has an entry, an MCO step between a clear check and the deletion makes it effective then |
| `PolicyRace.ClearOnlyIfCalmClear` | pkg/engine/tombstone.go:84-127 | where the spec has an entry for a tombstoned MachineConfig, no behaviour of MCO makes a first check clear that is not clear when left alone |
| `PolicyRace.BarrierCoversSpecIff` | pkg/controller/platform_controller.go:184-264 | for any tombstones, nothing is effective at the deletion against every behaviour of MCO exactly when the spec has no entry or the first check, left alone, is not clear |
| `GateOpening.MergedFulfilsIff` | pkg/engine/node_disruption_policy.go:537-618 | the merged policy fulfils the policy of an active dependent exactly when that asks for actions |
| `GateOpening.GateOpensIff` | pkg/engine/node_disruption_policy.go:317-342 | after the apply and an MCO step an active dependent passes the gate exactly when its policy asks for actions |
| `GateOpening.PolicyOpensGate` | pkg/engine/node_disruption_policy.go:50-108 | so a reconcile of the policies and an MCO step open it, also where there was no singleton |

## Left out

- Template rendering, YAML parsing and asset loading: a rendered asset is a value, nothing, or an error.
- The Kubernetes client, watches and informer caches: a read finds the cluster as it is, except that `ReconcileAsset` has the result of its cached and of its direct read as two parameters.
- Server-side apply: keyed policy entries with the other managers that apply them; field ownership inside an entry and of the SSH key actions is not modelled.
- JSON patches (RFC 6902) and patch validation: the patched object is a parameter; MachineConfig patches are refused as in the code.
- Hashing and JSON encoding of staging entries: any digest function, and any codec that decodes what it encodes.
- Glob matching of root exclusions and label selector syntax: any predicate.
- Selection of active assets, feature conditions, CRD availability and hardware detection: boolean folds; their outcome is a parameter of `Reconcile`.
- Platform.PlatformReconciler.Reconcile: does not run the asset state machine of `Patching` inside. The write of the HCO golden configuration (pkg/controller/platform_controller.go:201) is the flag `prepared`, and the staging entries dropped by `CleanupExcludedAsset` (lines 407 and 424) are not calls of `Platform`; the trace of events and calls says nothing about these writes.
- Platform.PlatformReconciler.ReconcileOtherAssets: the other assets are one call that may leave any cluster, and an error flag, so that the safety lemmas hold whatever those assets do; what a single asset does is in `Patching`.
- `generateDynamicRules`, `scopedSensitiveRules` and the static RBAC rules: straight-line construction of lists.
- Events, logs, metrics other than the thrashing counter, HTTP handlers, command line, TLS profiles and node tuning scripts.
- Mutexes: each guarded method is one step; the CRD cache, whose server call is unguarded, has its own lemma on overlap.
- Overflow of 64-bit durations and generations: integers are unbounded. Error texts are not modelled.
- CrdCache.CacheAgreesWithServer: states TTL plus the reply time, not TTL alone, because the code stamps an entry after the reply; `FreshIffImmediate` gives the exact condition for TTL alone.
