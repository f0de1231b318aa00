# GlobalNetwork controller: verified model

The controller keeps one AWS Network Manager resource, a global network, in the state that
a Kubernetes custom resource asks for. This project models the three engines that carry its
logic and proves what they achieve over whole runs:

* **Tags.** A spec's tag list goes through a map and back three times (`EnsureTags`,
  `mirrorAWSTags`, `FilterSystemTags`), is compared by `newResourceDelta`, and is applied by
  `SyncTags` in two calls that may fail. The central results: the write-back round trip is
  exact under a condition that is also necessary; applying a plan leaves no gap whatever
  fails; every call that takes effect brings the service closer, at each point of every run;
  and reconciliation converges under arbitrary faults, from exactly the states that a caller
  can recognise beforehand. The states that no cycle ever changes are characterised too.
* **Conditions.** `updateConditions` changes a list of condition objects in place. The
  central result: what the list says is a function of the whole history of outcomes, and
  after a create, a read, an update or a cycle it is a function of the error of the call
  that failed.
* **The manager cache.** `ManagerFor` looks up and stores in two separate critical
  sections. The central results hold in every interleaving of any number of calls: who is
  served correctly, and exactly when one manager is built for a key.

Objects of the source are classes here (`Tag`, `Condition`, `ResourceMetadata`,
`GlobalNetwork`, `TagMap` for the shared Go map `acktags.Tags`, `Delta`, `Factory`), its
loops are loops, and every method is proved against a function or predicate on the values
its objects stand for (`TagsOf`, `CondsOf`, `View`). The lemmas are about those.

## Files

| file | what it holds |
|---|---|
| wrappers.dfy, errors.dfy, identity.dfy | nil-able values, errors and their classification, the resource manager |
| tag_lists.dfy | tag lists as maps; `Arranges`, the specification of `fromACKTags` |
| tag_rules.dfy | AWS-owned and system tags; the three rewrites and their composition |
| api_types.dfy | the custom resource as a graph of objects, and its deep copy |
| ack_tags.dfy | the conversions and in-place map operations of tags.go |
| backend.dfy | the service: one network, fallible calls |
| tag_sync.dfy | `SyncTags`: plan, application, what it achieves |
| delta.dfy | `newResourceDelta` |
| sdk.dfy | find, create, update |
| conditions.dfy | the condition state machine on values, histories |
| manager.dfy | conditions on objects, tag rewrites, `ReadOne`, `Create`, `Update` |
| observation.dfy | identity metadata and observation over sequences of operations |
| cycles.dfy | cycles and runs on values, distance, convergence, stuck states |
| reconcile.dfy | the code's cycles and runs, create followed by a run, the write-back |
| manager_cache.dfy | the manager cache and its interleavings |

## Assumptions about code that is not shown

* The ACK runtime's driver is not part of this model. A cycle is ReadOne (which mirrors AWS's
  tags into the desired spec), the comparison, and Update if anything differs.
* `FilterSystemTags` is applied only when the spec is written back to the cluster
  (manager.go:342-346). The comment at manager.go:322-324 asks for it after each read. Done
  between read and comparison, to the desired spec alone or to the latest one alone, it makes
  every sync of a resource with AWS-owned tags fail (`FilterDesiredOnly`, `FilterLatestOnly`);
  done to both it only drops the system tags from the plan (`FilterBoth`).
* `acktags.Merge` is a union that prefers the resource's own tags (manager.go:288-289).
  `MapStringStringEqual` is equality of maps, `HasNilDifference` difference in nilness,
  `DifferentAt` and `DifferentExcept` speak of the set of reported paths.
  `GetDefaultTags` is a parameter.
* The iteration order of a Go map is an arbitrary choice at every step.
* The service holds a tag map and a description. Any call may fail; a failed tag call may
  have taken effect on any subset of the keys it names, a failed description update may have
  taken effect or not. A tag call that names an `aws:` key is refused whole, as
  tags.go:94-99 says. A nil description is not sent (sdk.go:378-380) and changes nothing.
  Nothing else writes to the network during a run.
* An error is told apart by identity with a sentinel, by an API error in its chain, and by a
  wrapped `TerminalError`; these may overlap.

Where a comment and the code differ, the code is followed: `onError` is documented to return
nil when no condition is updated (manager.go:392-393) but returns the resource, and is proved
never to take that branch; the cache is documented to avoid creating several managers for one
key (manager_factory.go:58-60), which fails for overlapping first calls (`RaceBuildsTwo`). It
holds exactly if only one call read the key before the first store (`OneManagerExactly`), and
what is cached is final exactly if no call that missed the key is in flight (`QuietExactly`,
`StableIffQuiet`). Removing a description, and asking for an `aws:` tag that the resource
lacks, are the two kinds of wishes that reconciliation never fulfils (`Reconcilable`,
`StuckForever`); in the first it reports success each time.

## Model

| member | source | states |
|---|---|---|
| TagLists.LastEntryWins | pkg/resource/global_network/tags.go:43-52 | A key is bound iff some entry carries it, and to the value of its last entry, a nil value reading "" |
| TagLists.FirstsOrdered | pkg/resource/global_network/tags.go:64-71 | Ordered keys are listed in the order of their first occurrence |
| TagLists.ArrangementConserves | pkg/resource/global_network/tags.go:61-78 | The output of `fromACKTags` has exactly one entry per binding of the original map, for any key order and iteration order |
| TagLists.ArrangementUnique | pkg/resource/global_network/tags.go:64-78 | If every bound key is ordered, the output does not depend on the iteration order |
| TagLists.Canonicalisation | pkg/resource/global_network/tags.go:36-78 | List to map and back gives one list: keys at first occurrence, last values, same map; idempotent; the identity exactly on lists without nils and duplicates |
| TagRules.WriteBack | pkg/resource/global_network/manager.go:292-365 | EnsureTags, mirrorAWSTags and FilterSystemTags together are one rewrite: user tags and defaults less `aws:` and listed system tags, key by key, the user's values and order first, whatever AWS added |
| TagRules.WriteBackRoundTrip | pkg/resource/global_network/manager.go:292-365 | The spec comes back unchanged, order included, iff it was canonical, held no system tag, and every default tag is the user's own or filtered |
| TagRules.CleanExamples | pkg/resource/global_network/tags.go:36-92 | Specs that do not come back: a repeated tag, a tag without a value; and one that does |
| TagRules.SystemTagExamples | pkg/resource/global_network/tags.go:85-92 | An `aws:` tag and a listed system tag are taken out of a spec; a default tag that is listed leaves no trace |
| AckTags.ConvertToOrderedACKTags | pkg/resource/global_network/tags.go:36-55 | A fresh map holding what the list means, and the keys in order |
| AckTags.FromACKTags | pkg/resource/global_network/tags.go:61-78 | Fresh tags arranging the map by the key order; the map keeps only the unordered keys |
| AckTags.IgnoreSystemTags | pkg/resource/global_network/tags.go:85-92 | Deletes in place exactly the keys that start with `aws:` or are listed, and changes no value |
| AckTags.SyncAWSTags | pkg/resource/global_network/tags.go:113-119 | Copies in place exactly the bindings whose key starts with `aws:`, even when both maps are one object |
| ApiTypes.DeepCopyTags | apis/v1alpha1/zz_generated.deepcopy.go:765-775 | Entries equal field by field, nil ones included, in fresh objects |
| ApiTypes.DeepCopyConditions | apis/v1alpha1/zz_generated.deepcopy.go:796-806 | Entries equal field by field in fresh, pairwise distinct objects |
| ApiTypes.GlobalNetwork.DeepCopy | apis/v1alpha1/zz_generated.deepcopy.go:699-821 | A resource equal field by field and entry by entry that shares no object with the original |
| TagSync.MakePlan | pkg/tags/sync.go:49-77 | Dereferences a nil iff the lists are not `NilSafe`; otherwise the additions and deletions are those of the plan between the two maps |
| TagSync.NilSafeByEntry | pkg/tags/sync.go:49-82 | `NilSafe` entry by entry: no nil entry or key, and no nil value that counts, of a desired key on either side; overridden nil values and those of keys not desired do no harm |
| TagSync.AddTags | pkg/tags/sync.go:107-134 | One call that names exactly the given bindings, in any order; its error is returned |
| TagSync.RemoveTags | pkg/tags/sync.go:137-155 | One call that names exactly the given keys; its error is returned |
| TagSync.SyncTags | pkg/tags/sync.go:37-104 | Nil dereference iff not `NilSafe`, and then before any call; otherwise the service ends where the plan and the faults put it, the number of calls likewise, and the error is that of the first call that failed |
| TagSync.SyncErrorIs | pkg/tags/sync.go:79-103 | Whose error a sync ends with: refusal of an `aws:` addition, the failed addition's own, then the same for deletions |
| TagSync.SyncByKey | pkg/tags/sync.go:74-103 | Where a sync leaves each key and how many calls it makes, by the plan and the faults |
| TagSync.SyncIsGapFree | pkg/tags/sync.go:74-103 | After each call, failed and partial ones included, and even from a stale list, every key has its old or its desired binding, common keys are never missing, and the number of tags stays within the union of the keys |
| TagSync.SyncIsExact | pkg/tags/sync.go:49-103 | A successful sync leaves exactly the desired tags iff every key the plan passes over already had its desired binding |
| TagSync.NoDifferenceNoCalls | pkg/resource/global_network/delta.go:51-55 | The comparison finds the tags equal iff the plan is empty iff no call would be made |
| TagSync.MirrorSparesAws | pkg/resource/global_network/tags.go:113-119 | After mirroring no `aws:` key is deleted, one is added only if listed by the user and lacking, and the plan for all other keys is unchanged |
| TagSync.FilterDesiredOnly | pkg/resource/global_network/manager.go:316-330 | With the desired tags filtered before the comparison, every AWS-owned key of the resource is to be deleted; if there is one, the sync fails and deletes nothing |
| TagSync.FilterLatestOnly | pkg/resource/global_network/manager.go:316-330 | With the latest tags filtered, AWS's own tags are to be added; if there are any the sync is refused and changes nothing |
| TagSync.FilterBoth | pkg/resource/global_network/manager.go:316-330 | With both filtered, the plan is the unfiltered one less the system keys |
| TagSync.FilterWhenConverged | pkg/resource/global_network/manager.go:348-352 | With the desired tags filtered and nothing else to do, the plan is to delete exactly AWS's own tags |
| TagSync.ArrangedIsNilSafe | pkg/resource/global_network/tags.go:61-78 | Lists made by `fromACKTags` never make `SyncTags` dereference nil |
| Deltas.NewResourceDelta | pkg/resource/global_network/delta.go:33-58 | The empty path if one side is nil; otherwise exactly the differing fields, tags by meaning |
| Sdk.SetStatusDefaults | pkg/resource/global_network/sdk.go:424-442 | Fills in what is missing from the manager and replaces nothing, field by field |
| Sdk.MergeFound | pkg/resource/global_network/sdk.go:88-145 | The merge of a find, field by field: creation time, ID, description, state (empty is nil) and tags are the response's, the ARN too if it has one; missing metadata are the manager's; conditions and the rest are the argument's; it equals `Observe` |
| Sdk.MergeResponse | pkg/resource/global_network/sdk.go:317-366 | The merges of create and update: the same fields, and the same `Observe` |
| Sdk.CopyTags | pkg/resource/global_network/sdk.go:121-136 | A response's tags in fresh objects, nil keys and values included; a nil list stays nil |
| Sdk.SdkFind | pkg/resource/global_network/sdk.go:57-146 | Succeeds iff the resource has the ID of an existing network and the call succeeds; a missing ID, an empty answer and a ResourceNotFoundException are NotFound; any other error is returned itself |
| Sdk.CreatePayloadTags | pkg/resource/global_network/sdk.go:261-274 | The payload's tags are the spec's, nils included |
| Sdk.SdkCreate | pkg/resource/global_network/sdk.go:177-248 | One call. On success the service holds what the spec means; otherwise nothing changed and the error is the call's: refusal of an `aws:` key, else the fault |
| Sdk.SdkUpdate | pkg/resource/global_network/sdk.go:281-367 | Tags first, the description only if they succeeded and it differs; the state and the number of calls; the error, call by call, in every combination of faults and for every ARN and ID |
| Sdk.UpdateErrorIs | pkg/resource/global_network/sdk.go:292-316 | Whose error an update ends with, for any delta: the refusal or failure of the additions, of the deletions, then of the description |
| Sdk.UpdateSends | pkg/resource/global_network/sdk.go:302-316 | The description is sent iff the tags are done and a path other than the tags differs, and changes iff it is not nil and the call takes effect; the number of calls |
| Conditions.StepMeaning | pkg/resource/global_network/sdk.go:470-512 | One outcome: Terminal is True iff it is a terminal error; Recoverable follows other outcomes and ignores terminal ones |
| Conditions.NextRecords | pkg/resource/global_network/sdk.go:470-539 | The step equals an independent definition, on every list and outcome: terminal errors and messages by the error's own fields, each entry's status and message, every other entry unchanged, the appended entry |
| Conditions.ConditionsAreHistory | pkg/resource/global_network/sdk.go:446-519 | From any list, the status of both conditions after any history, as a function of the history and of hidden duplicates |
| Conditions.ConditionsOnUniqueLists | pkg/resource/global_network/sdk.go:446-519 | With at most one entry of each type: Terminal iff the last outcome was terminal; Recoverable iff the last non-terminal outcome was an error; uniqueness is kept |
| Conditions.HiddenTerminalSurvives | pkg/resource/global_network/sdk.go:458-468 | With a duplicate True Terminal entry, Terminal survives a success |
| Conditions.TerminalMessage | pkg/resource/global_network/sdk.go:477-491 | The Terminal entry has a message exactly while it is True: that of the last error |
| Conditions.ListGrowth | pkg/resource/global_network/sdk.go:458-517 | No entry is lost, reordered or retyped; only status and message of two entries change; the exact length after any history |
| Conditions.ReportedIsTerminal | pkg/resource/global_network/manager.go:394-414 | The caller sees the Terminal sentinel iff the error is terminal or a hidden duplicate is True, otherwise its own error |
| Conditions.ReportedByFields | pkg/resource/global_network/manager.go:394-414 | The sentinel iff the error has the code ValidationException, wraps a TerminalError or is one of the two secret errors, or a True Terminal entry is followed by another; otherwise the error itself |
| Manager.FindConditions | pkg/resource/global_network/sdk.go:454-468 | The last condition object of each of the three types, or nil |
| Manager.RecordOutcome | pkg/resource/global_network/sdk.go:454-517 | Condition objects are changed in place, at most one is appended; entry by entry as the error's own fields demand |
| Manager.UpdateConditions | pkg/resource/global_network/sdk.go:446-519 | The outcome recorded, entry by entry, in a fresh copy whose other fields are the same; nothing that existed before is modified; "not updated" iff there is no error and no entry of the three types |
| Manager.OnError | pkg/resource/global_network/manager.go:394-414 | Never takes the "not updated" branch on a resource; by the error's own fields, answers with the sentinel or the error and leaves a True Terminal or Recoverable entry with a message; on nil returns the error |
| Manager.OnSuccess | pkg/resource/global_network/manager.go:418-429 | Clears the two conditions entry by entry in a copy; returns the resource itself iff it has no entry of the three types |
| Manager.EnsureTags | pkg/resource/global_network/manager.go:292-309 | Every default tag is added key by key without overriding the resource's own, which keep their order |
| Manager.FilterSystemTags | pkg/resource/global_network/manager.go:330-340 | Exactly the tags whose key neither starts with `aws:` nor is listed remain, with their values and in order; a nil resource is left alone |
| Manager.MirrorAWSTags | pkg/resource/global_network/manager.go:353-365 | The desired list with the `aws:` tags of the latest one, key by key; nothing happens if either is nil |
| Manager.ReadOne | pkg/resource/global_network/manager.go:97-115 | Success iff the network is found; then the observation, and AWS's tags mirrored into the argument; on failure the argument is untouched |
| Manager.FailureIsClassified | pkg/resource/global_network/manager.go:394-414 | After a failure with a given error, on any condition list: the answer is Terminal, to the caller and in its conditions, iff that error is terminal or a hidden entry was True; otherwise the caller gets that error; and when Recoverable is True |
| Manager.Create | pkg/resource/global_network/manager.go:120-137 | Success iff the call succeeds, and then the network reflects the spec and the answer the observation; otherwise nothing is created and the call's own error is recorded and reported |
| Manager.Update | pkg/resource/global_network/manager.go:147-167 | The calls of `SdkUpdate`; the resource the answer is built from in each outcome; on failure the latest one, with the error of the call that failed recorded and reported |
| Observation.IdentityIsStable | pkg/resource/global_network/sdk.go:424-442 | Over any sequence of operations owner, region and partition never change once set, and the ARN is the last one reported, never unset |
| Observation.FirstManagerOwns | pkg/resource/global_network/sdk.go:430-438 | The first manager to record anything determines owner, region and partition for good |
| Observation.FindAfterResponseIsFixed | pkg/resource/global_network/sdk.go:88-145 | A find that reports what an earlier find, create or update reported leaves the whole resource as it was |
| Reconcile.ReconcileOnce | pkg/resource/global_network/manager.go:139-146 | One cycle of the code takes the service where `Cycle` says, for every listing and iteration order; the number of calls, the error the runtime is told, and the conditions of the answer, as functions of the spec, the service and the faults |
| Reconcile.ReconcileRun | pkg/resource/global_network/manager.go:139-146 | Any number of cycles over one desired object, under any schedule of faults, is `Run`, and makes `RunCalls` changing calls |
| Cycles.CycleApproaches | pkg/resource/global_network/sdk.go:281-316 | At each point of a cycle, a call that takes effect costs at least one unit of distance, whatever fails and however partially; a cycle changes nothing iff none of its calls took effect |
| Cycles.EffectiveCallsAre | pkg/tags/sync.go:74-103 | Which calls of a cycle take effect: a tag call that is not refused and reaches one of its keys, an update that sends a description; each only after success of the earlier ones |
| Cycles.AwsTagsUntouched | pkg/resource/global_network/tags.go:94-99 | No cycle touches an AWS-owned tag |
| Cycles.CycleErrorIs | pkg/resource/global_network/sdk.go:292-316 | Whose error a cycle ends with, by the spec, the service and the faults: the read's (NotFound for a ResourceNotFoundException), else that of the first call that is needed and fails |
| Cycles.RefusedCycle | pkg/resource/global_network/tags.go:94-99 | A spec with an `aws:` tag that the resource lacks: every cycle makes one call, is refused with a terminal error and changes nothing, not even the other tags |
| Cycles.CleanCycle | pkg/resource/global_network/sdk.go:281-367 | Where a fault-free cycle ends and with which error, from any state; it reaches the desired state iff the state is `Reconcilable` |
| Cycles.QuietIffConverged | pkg/resource/global_network/delta.go:44-55 | Empty delta iff no call iff distance zero |
| Cycles.StuckExactly | pkg/resource/global_network/sdk.go:281-383 | The states that no cycle changes under any faults: the desired one, those that lack an `aws:` tag of the spec, and those where only a description is to be removed |
| Cycles.StuckCycle | pkg/resource/global_network/sdk.go:378-380 | What a cycle does in them: no call in the desired state, one call in vain in any other, which is refused or, with a nil description, counts as success |
| Cycles.StuckExamples | pkg/resource/global_network/sdk.go:378-380 | A nil description against a set one, and an `aws:` tag that the resource lacks, are stuck and not `Reconcilable` |
| Cycles.RunApproaches | pkg/resource/global_network/sdk.go:281-367 | Over every run, distance plus the number of calls that took effect never exceeds the initial distance; AWS's tags and `Reconcilable` are kept |
| Cycles.Convergence | pkg/resource/global_network/sdk.go:281-367 | A run with one fault-free cycle ends converged iff it began reconcilable; from any other state no run ever does |
| Cycles.StuckForever | pkg/resource/global_network/sdk.go:281-383 | From a stuck state no run changes anything; in the desired state it makes no call, in any other one for every cycle that can read |
| Cycles.CycleConditions | pkg/resource/global_network/sdk.go:446-519 | The conditions a cycle leaves, from any list: Terminal iff its error is terminal or a hidden entry was True; Recoverable likewise for other errors, unchanged by a terminal failure to read |
| Reconcile.CreateConverges | pkg/resource/global_network/sdk.go:177-274 | What a successful create answers with names the new network, and its spec is the service's state |
| Reconcile.CreateThenRun | pkg/resource/global_network/manager.go:120-167 | A create and any run of cycles on its answer: the create's own call is the only changing call, and the service stays as the spec asked, whatever the environment does |
| Reconcile.WriteBackTags | pkg/resource/global_network/manager.go:292-365 | The three methods on one object: the composed rewrite, key by key, and unchanged iff `Clean` |
| ManagerCache.Factory.Lookup | pkg/resource/global_network/manager_factory.go:61-68 | The read step of the interleaving model |
| ManagerCache.Factory.BuildAndStore | pkg/resource/global_network/manager_factory.go:70-78 | The write step, which does not look again: a new manager for the account, region and partition asked for, stored under account, region and role joined by slashes |
| ManagerCache.Factory.ManagerFor | pkg/resource/global_network/manager_factory.go:48-79 | An undisturbed call is its two steps; a cached manager is returned and nothing is built |
| ManagerCache.SafeIffDistinguished | pkg/resource/global_network/manager_factory.go:61-78 | In every interleaving every call gets a manager for its account and region, iff requests with one key agree on both |
| ManagerCache.KeyIsInjective | pkg/resource/global_network/manager_factory.go:61 | The key determines account, region and role if account and region have no slash |
| ManagerCache.SlashFreeIsSafe | pkg/resource/global_network/manager_factory.go:61-78 | Without slashes in account and region every interleaving is safe |
| ManagerCache.SlashesCollide | pkg/resource/global_network/manager_factory.go:61 | Two requests with slashes that share a key |
| ManagerCache.EarlyReadersAre | pkg/resource/global_network/manager_factory.go:62-68 | The early readers of a key: the calls whose read of it came before the first store |
| ManagerCache.Accounting | pkg/resource/global_network/manager_factory.go:62-78 | Over any run from any state, the calls that stored under a key and those that still will are the calls that were about to and the early readers; none stores twice |
| ManagerCache.OneManagerExactly | pkg/resource/global_network/manager_factory.go:58-78 | In every interleaving from the start, stores plus pending calls equal early readers; with none pending exactly one manager was stored iff there was exactly one early reader, and none iff the key was never asked for |
| ManagerCache.StoresUsePending | pkg/resource/global_network/manager_factory.go:62-78 | Once a key is stored, every call that stores under it again had missed before, and leaves the pending ones; no call that starts later can add one |
| ManagerCache.QuietExactly | pkg/resource/global_network/manager_factory.go:62-78 | A stored key is never stored again in any continuation iff no call that missed it is in flight |
| ManagerCache.StableIffQuiet | pkg/resource/global_network/manager_factory.go:62-78 | In every reachable state the manager cached for a key stays the same in all continuations iff no such call is in flight |
| ManagerCache.ReturnsAreFinal | pkg/resource/global_network/manager_factory.go:66-78 | What a call returned never changes |
| ManagerCache.QuiescentKeysAreStable | pkg/resource/global_network/manager_factory.go:62-78 | Once no such call is in flight the cached manager never changes and every later call returns it |
| ManagerCache.RaceBuildsTwo | pkg/resource/global_network/manager_factory.go:58-78 | Two overlapping first calls build and return two managers |
| ManagerCache.OneManagerPerKey | pkg/resource/global_network/manager_factory.go:58-78 | Calls that do not overlap build exactly one manager per key and return the cached one |

## Left out

- Sdk.SdkCreate: a failed create is taken not to have taken effect, because the model has room for one network and a second one would be a different resource.
- ApiTypes.GlobalNetwork.DeepCopy: strings, timestamps and `ObjectMeta` are values, so sharing of the pointers to them (such as `&rm.awsRegion` in sdk.go:431) is not seen.
- Manager.ReadOne: the branch for an error that comes with an observed resource, which `sdkFind` never produces; likewise in Manager.Create and Manager.Update.
- The `resource` wrapper and its nil `ko`: a `*resource` is a possibly null `GlobalNetwork`.
- Nil entries in `Spec.Tags` and `Status.Conditions` outside the deep copy and `SyncTags`: the code dereferences every entry, so the methods require them to be non-nil.
- `newResourceManager` failing: it always returns a nil error.
- `sdkDelete`, `IsSynced`, `ARNFromName`, `LateInitialize`: each settled by one branch.
- The ACK runtime's reconciler, requeueing, finalizers, adoption and references.
- Logging, tracing, metrics; the debug log matters only for the nil values it dereferences.
- apis/v1alpha1 beyond `GlobalNetwork` and `Tag`, cmd/controller, Helm, CRDs and RBAC: declarations and wiring.
