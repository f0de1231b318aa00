/** The API operations on one resource (pkg/resource/global_network/sdk.go): what a
    response makes of the resource, and the order of the calls of an update. */
module Sdk {
  import opened Wrappers
  import opened Errors
  import opened TagLists
  import opened TagRules
  import opened ApiTypes
  import opened Backend
  import opened TagSync
  import opened Deltas
  import opened Identity

  // ---- What a response makes of a resource ----

  const EMPTY_META := Meta(None, None, None, None)

  function Default(o: Option<string>, d: string): Option<string> {
    if o.Some? then o else Some(d)
  }

  /** `setStatusDefaults`: what is missing is filled in, nothing is replaced. */
  function WithDefaults(rm: ResourceManager, v: NetworkV): NetworkV {
    v.(meta := Some(Filled(rm, v.meta.GetOr(EMPTY_META))), conditions := Some(Slice(v.conditions)))
  }

  function Filled(rm: ResourceManager, m: MetaV): MetaV {
    Meta(m.arn, Default(m.owner, rm.awsAccountID), Default(m.region, rm.awsRegion),
         Default(m.partition, rm.awsPartition))
  }

  /** A reported ARN is recorded; a missing one replaces nothing. */
  function WithARN(v: NetworkV, arn: Option<string>): NetworkV {
    var m := v.meta.GetOr(EMPTY_META);
    v.(meta := Some(m.(arn := if arn.Some? then arn else m.arn)))
  }

  /** The fields that every response replaces. */
  function WithFields(v: NetworkV, g: SdkNetwork): NetworkV {
    v.(createdAt := g.createdAt, description := g.description, id := g.id,
       state := if g.state != "" then Some(g.state) else None, tags := g.tags)
  }

  /** The one observation function behind find, create and update. */
  function Observe(rm: ResourceManager, v: NetworkV, g: SdkNetwork): NetworkV {
    WithDefaults(rm, WithARN(WithFields(v, g), g.arn))
  }

  lemma ObservedTags(rm: ResourceManager, v: NetworkV, g: SdkNetwork)
    ensures Observe(rm, v, g).tags == g.tags
  {
  }

  method FillMetadata(rm: ResourceManager, m: ResourceMetadata)
    modifies m
    ensures MetaOf(m) == Some(Filled(rm, old(MetaOf(m)).value))
    ensures && m.arn == old(m.arn)
            && m.region == (if old(m.region).Some? then old(m.region) else Some(rm.awsRegion))
            && m.partition == (if old(m.partition).Some? then old(m.partition) else Some(rm.awsPartition))
            && m.ownerAccountID
               == (if old(m.ownerAccountID).Some? then old(m.ownerAccountID) else Some(rm.awsAccountID))
  {
    if m.region.None? {
      m.region := Some(rm.awsRegion);
    }
    if m.partition.None? {
      m.partition := Some(rm.awsPartition);
    }
    if m.ownerAccountID.None? {
      m.ownerAccountID := Some(rm.awsAccountID);
    }
  }

  method SetStatusDefaults(rm: ResourceManager, ko: GlobalNetwork)
    modifies ko`meta, ko`conditions, ko.meta
    ensures ko.View() == WithDefaults(rm, old(ko.View()))
    ensures ko.conditions == Some(old(Slice(ko.conditions)))
    ensures ko.meta == old(ko.meta) || fresh(ko.meta)
    ensures ko.meta != null
  {
    hide TagsOf, CondsOf, Filled;
    if ko.meta == null {
      ko.meta := new ResourceMetadata();
    }
    FillMetadata(rm, ko.meta);
    if ko.conditions.None? {
      ko.conditions := Some([]);
    }
  }

  /** The loop that copies a response's tags; a nil list stays nil. */
  method CopyTags(tags: Option<seq<SdkTag>>) returns (out: Option<seq<Tag?>>)
    ensures out.Some? <==> tags.Some?
    ensures out.Some? ==> TagsOf(out.value) == tags.value && forall t :: t in out.value ==> t != null && fresh(t)
  {
    if tags.None? {
      return None;
    }
    var f5: seq<Tag?> := [];
    for i := 0 to |tags.value|
      invariant |f5| == i && forall j :: 0 <= j < i ==> f5[j] != null && fresh(f5[j]) && TagOf(f5[j]) == tags.value[j]
    {
      var elem := new Tag(None, None);
      var iter := tags.value[i];
      if iter.key.Some? {
        elem.key := iter.key;
      }
      if iter.value.Some? {
        elem.value := iter.value;
      }
      f5 := f5 + [elem];
    }
    return Some(f5);
  }

  method SetFields(ko: GlobalNetwork, g: SdkNetwork, tags: Option<seq<Tag?>>)
    requires tags.Some? <==> g.tags.Some?
    requires tags.Some? ==> TagsOf(tags.value) == g.tags.value
    modifies ko`createdAt, ko`description, ko`globalNetworkID, ko`state, ko`tags
    ensures ko.View() == WithFields(old(ko.View()), g) && ko.tags == tags
  {
    hide TagsOf, CondsOf;
    ko.createdAt := g.createdAt;
    ko.description := g.description;
    ko.globalNetworkID := g.id;
    if g.state != "" {
      ko.state := Some(g.state);
    } else {
      ko.state := None;
    }
    ko.tags := tags;
  }

  /** The copy that a response is merged into. */
  method CopyAndSet(r: GlobalNetwork, g: SdkNetwork) returns (ko: GlobalNetwork)
    ensures fresh(ko) && (ko.meta != null ==> fresh(ko.meta))
    ensures ko.View() == WithFields(old(r.View()), g)
    ensures null !in Slice(ko.tags) && (null !in Slice(old(r.conditions)) ==> null !in Slice(ko.conditions))
  {
    hide TagsOf, CondsOf, WithFields;
    var f5 := CopyTags(g.tags);
    ko := r.DeepCopy();
    SetFields(ko, g, f5);
  }

  /** `sdkFind` creates the metadata only when there is an ARN to record. */
  method RecordFoundARN(ko: GlobalNetwork, arn: Option<string>)
    modifies ko`meta, ko.meta
    ensures ko.View() == if arn.Some? then WithARN(old(ko.View()), arn) else old(ko.View())
    ensures ko.meta == old(ko.meta) || fresh(ko.meta)
  {
    hide TagsOf, CondsOf;
    if arn.Some? {
      if ko.meta == null {
        ko.meta := new ResourceMetadata();
      }
      ko.meta.arn := arn;
    }
  }

  /** `sdkCreate` and `sdkUpdate` create the metadata first. */
  method RecordARN(ko: GlobalNetwork, arn: Option<string>)
    modifies ko`meta, ko.meta
    ensures ko.View() == WithARN(old(ko.View()), arn)
    ensures ko.meta == old(ko.meta) || fresh(ko.meta)
  {
    hide TagsOf, CondsOf;
    if ko.meta == null {
      ko.meta := new ResourceMetadata();
    }
    if arn.Some? {
      ko.meta.arn := arn;
    }
  }

  /** What a response makes of a resource, field by field. */
  lemma ObservedFields(rm: ResourceManager, v: NetworkV, g: SdkNetwork, ko: GlobalNetwork)
    requires ko.View() == Observe(rm, v, g)
    ensures && ko.createdAt == g.createdAt && ko.globalNetworkID == g.id && ko.description == g.description
            && ko.state == (if g.state == "" then None else Some(g.state))
            && (ko.tags.Some? <==> g.tags.Some?) && TagsOf(Slice(ko.tags)) == Slice(g.tags)
            && ko.objectMeta == v.objectMeta
            && ko.conditions.Some? && CondsOf(ko.conditions.value) == Slice(v.conditions)
    ensures var m := v.meta.GetOr(Meta(None, None, None, None));
            && ko.meta != null
            && ko.meta.arn == (if g.arn.Some? then g.arn else m.arn)
            && ko.meta.ownerAccountID == (if m.owner.Some? then m.owner else Some(rm.awsAccountID))
            && ko.meta.region == (if m.region.Some? then m.region else Some(rm.awsRegion))
            && ko.meta.partition == (if m.partition.Some? then m.partition else Some(rm.awsPartition))
  {
    hide TagsOf, CondsOf;
  }

  lemma ViewOf(r: GlobalNetwork)
    ensures r.View().objectMeta == r.objectMeta && r.View().meta == MetaOf(r.meta)
    ensures Slice(r.View().conditions) == CondsOf(Slice(r.conditions))
  {
  }

  lemma NoARN(rm: ResourceManager, v: NetworkV)
    ensures WithDefaults(rm, WithARN(v, None)) == WithDefaults(rm, v)
  {
  }

  /** The merge of `sdkFind`. */
  method MergeFound(rm: ResourceManager, r: GlobalNetwork, g: SdkNetwork) returns (ko: GlobalNetwork)
    ensures fresh(ko) && ko.View() == Observe(rm, old(r.View()), g)
    ensures null !in Slice(ko.tags) && (null !in Slice(old(r.conditions)) ==> null !in Slice(ko.conditions))
    ensures && ko.createdAt == g.createdAt && ko.globalNetworkID == g.id && ko.description == g.description
            && ko.state == (if g.state == "" then None else Some(g.state))
            && (ko.tags.Some? <==> g.tags.Some?) && TagsOf(Slice(ko.tags)) == Slice(g.tags)
            && ko.objectMeta == r.objectMeta
            && ko.conditions.Some? && CondsOf(ko.conditions.value) == old(CondsOf(Slice(r.conditions)))
    ensures && ko.meta != null
            && ko.meta.arn == (if g.arn.Some? then g.arn else if r.meta == null then None else r.meta.arn)
            && ko.meta.ownerAccountID == (if r.meta != null && r.meta.ownerAccountID.Some? then r.meta.ownerAccountID
                                          else Some(rm.awsAccountID))
            && ko.meta.region == (if r.meta != null && r.meta.region.Some? then r.meta.region else Some(rm.awsRegion))
            && ko.meta.partition == (if r.meta != null && r.meta.partition.Some? then r.meta.partition
                                     else Some(rm.awsPartition))
  {
    hide GlobalNetwork.View, WithFields, WithARN, WithDefaults, TagsOf, CondsOf;
    ghost var v := r.View();
    ViewOf(r);
    ko := CopyAndSet(r, g);
    NoARN(rm, ko.View());
    RecordFoundARN(ko, g.arn);
    SetStatusDefaults(rm, ko);
    ObservedFields(rm, v, g, ko);
  }

  /** The merge of `sdkCreate` and `sdkUpdate`. */
  method MergeResponse(rm: ResourceManager, r: GlobalNetwork, g: SdkNetwork) returns (ko: GlobalNetwork)
    ensures fresh(ko) && ko.View() == Observe(rm, old(r.View()), g)
    ensures null !in Slice(ko.tags) && (null !in Slice(old(r.conditions)) ==> null !in Slice(ko.conditions))
    ensures && ko.createdAt == g.createdAt && ko.globalNetworkID == g.id && ko.description == g.description
            && ko.state == (if g.state == "" then None else Some(g.state))
            && (ko.tags.Some? <==> g.tags.Some?) && TagsOf(Slice(ko.tags)) == Slice(g.tags)
            && ko.objectMeta == r.objectMeta
            && ko.conditions.Some? && CondsOf(ko.conditions.value) == old(CondsOf(Slice(r.conditions)))
    ensures && ko.meta != null
            && ko.meta.arn == (if g.arn.Some? then g.arn else if r.meta == null then None else r.meta.arn)
            && ko.meta.ownerAccountID == (if r.meta != null && r.meta.ownerAccountID.Some? then r.meta.ownerAccountID
                                          else Some(rm.awsAccountID))
            && ko.meta.region == (if r.meta != null && r.meta.region.Some? then r.meta.region else Some(rm.awsRegion))
            && ko.meta.partition == (if r.meta != null && r.meta.partition.Some? then r.meta.partition
                                     else Some(rm.awsPartition))
  {
    hide GlobalNetwork.View, WithFields, WithARN, WithDefaults, TagsOf, CondsOf;
    ghost var v := r.View();
    ViewOf(r);
    ko := CopyAndSet(r, g);
    RecordARN(ko, g.arn);
    SetStatusDefaults(rm, ko);
    ObservedFields(rm, v, g, ko);
  }

  // ---- Find ----

  /** `sdkFind` finds the network: the resource carries its ID and the call succeeds. */
  predicate Findable(client: Client, id: Option<string>)
    reads client
  {
    id.Some? && client.created && id.value == client.networkID && client.faults.describe.None?
  }

  /** What `sdkFind` makes of the service's error: its own "not found" becomes NotFound,
      any other is passed on. */
  function ReadError(e: Error): Error {
    if e.api.Some? && e.api.value.code == "ResourceNotFoundException" then NOT_FOUND else e
  }

  /** Why it does not: a missing ID and an empty answer are NotFound too. */
  function FindError(client: Client, id: Option<string>): Error
    reads client
  {
    if id.Some? && client.faults.describe.Some? then ReadError(client.faults.describe.value) else NOT_FOUND
  }

  method SdkFind(rm: ResourceManager, client: Client, r: GlobalNetwork)
    returns (latest: GlobalNetwork?, err: Option<Error>, ghost g: SdkNetwork)
    ensures latest != null <==> Findable(client, r.globalNetworkID)
    ensures err == if Findable(client, r.globalNetworkID) then None else Some(FindError(client, r.globalNetworkID))
    ensures latest != null ==> fresh(latest) && client.Reports(g) && latest.View() == Observe(rm, old(r.View()), g)
    ensures latest != null <==> err.None?
    ensures err == match r.globalNetworkID
                   case None => Some(NOT_FOUND)
                   case Some(id) =>
                     match client.faults.describe
                     case Some(e) =>
                       if e.api.Some? && e.api.value.code == "ResourceNotFoundException" then Some(NOT_FOUND)
                       else Some(e)
                     case None => if client.created && id == client.networkID then None else Some(NOT_FOUND)
    ensures latest != null ==> null !in Slice(latest.tags)
    ensures latest != null && null !in Slice(r.conditions) ==> null !in Slice(latest.conditions)
  {
    g := SdkNetwork(None, None, None, None, "", None);
    if r.globalNetworkID.None? {
      return null, Some(NOT_FOUND), g;
    }
    var resp := client.DescribeGlobalNetworks([r.globalNetworkID.value]);
    if resp.Err? {
      if resp.error.api.Some? && resp.error.api.value.code == "ResourceNotFoundException" {
        return null, Some(NOT_FOUND), g;
      }
      return null, Some(resp.error), g;
    }
    if |resp.value| == 0 {
      return null, Some(NOT_FOUND), g;
    }
    g := resp.value[0];
    latest := MergeFound(rm, r, resp.value[0]);
    err := None;
  }

  // ---- Create ----

  /** The tags of a create payload are the spec's, nil keys and values included. */
  method CreatePayloadTags(tags: Option<seq<Tag?>>) returns (out: Option<seq<SdkTag>>)
    requires null !in Slice(tags)
    ensures out.Some? <==> tags.Some?
    ensures tags.Some? ==> out.value == TagsOf(tags.value)
  {
    if tags.None? {
      return None;
    }
    var f1: seq<SdkTag> := [];
    for i := 0 to |tags.value|
      invariant |f1| == i && forall j :: 0 <= j < i ==> f1[j] == TagOf(tags.value[j])
    {
      var iter := tags.value[i];
      var elem := TagV.Tag(None, None);
      if iter.key.Some? {
        elem := elem.(key := iter.key);
      }
      if iter.value.Some? {
        elem := elem.(value := iter.value);
      }
      f1 := f1 + [elem];
    }
    return Some(f1);
  }

  method SdkCreate(rm: ResourceManager, client: Client, desired: GlobalNetwork, fault: Option<Error>)
    returns (created: GlobalNetwork?, err: Option<Error>, ghost g: SdkNetwork)
    requires null !in Slice(desired.tags)
    modifies client`created, client`state, client`tags, client`description, client`calls
    ensures created != null <==> err.None?
    ensures client.calls == old(client.calls) + 1
    ensures err == CreateAnswer(ToMap(old(TagsOf(Slice(desired.tags)))).Keys, fault)
    ensures err == if exists k :: k in ToMap(old(TagsOf(Slice(desired.tags)))) && "aws:" <= k
                   then Some(REFUSED) else fault
    ensures created == null ==> client.Current() == old(client.Current()) && client.created == old(client.created)
    ensures created != null ==>
              && client.created
              && client.Current() == Store(ToMap(old(TagsOf(Slice(desired.tags)))), old(desired.description))
              && (null !in Slice(desired.conditions) ==> null !in Slice(created.conditions))
              && fresh(created) && client.Reports(g) && created.View() == Observe(rm, old(desired.View()), g)
  {
    hide TagsOf, CondsOf, ToMap, GlobalNetwork.View, Observe, Arranges, Client.Reports;
    g := SdkNetwork(None, None, None, None, "", None);
    var tags := CreatePayloadTags(desired.tags);
    var resp := client.CreateGlobalNetwork(desired.description, tags, fault);
    if resp.Err? {
      return null, Some(resp.error), g;
    }
    g := resp.value;
    created := MergeResponse(rm, desired, resp.value);
    err := None;
  }

  // ---- Update ----

  /** The resource names the network behind the client. */
  predicate Targets(client: Client, r: GlobalNetwork)
    reads r`globalNetworkID, r`meta, r.meta
  {
    r.globalNetworkID == Some(client.networkID) && r.meta != null && r.meta.arn == Some(client.arn)
  }

  /** What an update does to the service: the tags first, then the description, the latter
      only if the former succeeded. */
  function AfterUpdateCalls(b: Store, plan: Plan, paths: seq<FieldPath>, sent: Option<string>, faults: Faults): Store {
    var tags := if SpecTags in paths then AfterSync(b.tags, plan, faults) else b.tags;
    if UpdatesRest(plan, paths, faults) then Store(tags, AfterUpdate(b.description, sent, faults.update))
    else Store(tags, b.description)
  }

  predicate UpdatesRest(plan: Plan, paths: seq<FieldPath>, faults: Faults) {
    && (SpecTags in paths ==> SyncSucceeds(plan, faults))
    && exists p :: p in paths && p != SpecTags
  }

  /** The error of the first call of an update that fails. */
  function UpdateOutcome(plan: Plan, paths: seq<FieldPath>, faults: Faults): Option<Error> {
    if SpecTags in paths && !SyncSucceeds(plan, faults) then SyncAnswer(plan, faults)
    else if UpdatesRest(plan, paths, faults) then UpdateAnswer(faults.update)
    else None
  }

  /** Whose error an update ends with, call by call. */
  lemma UpdateErrorIs(plan: Plan, paths: seq<FieldPath>, faults: Faults)
    ensures var tagging := SpecTags in paths;
            UpdateOutcome(plan, paths, faults)
            == if tagging && exists k :: k in plan.add && "aws:" <= k then Some(REFUSED)
               else if tagging && plan.add != map[] && faults.tag.Failing? then Some(faults.tag.error)
               else if tagging && exists k :: k in plan.delete && "aws:" <= k then Some(REFUSED)
               else if tagging && plan.delete != {} && faults.untag.Failing? then Some(faults.untag.error)
               else if (exists p :: p in paths && p != SpecTags) && faults.update.UpdateFailing?
               then Some(faults.update.error) else None
  {
  }

  /** When an update sends the description, and what becomes of it. */
  lemma UpdateSends(b: Store, plan: Plan, paths: seq<FieldPath>, sent: Option<string>, faults: Faults)
    ensures var tagsAreDone := SpecTags !in paths || SyncAnswer(plan, faults).None?;
            var sends := tagsAreDone && exists p :: p in paths && p != SpecTags;
            var after := AfterUpdateCalls(b, plan, paths, sent, faults);
            && after.tags == (if SpecTags in paths then AfterSync(b.tags, plan, faults) else b.tags)
            && after.description == (if sends && sent.Some? && (faults.update.NoUpdateFault? || faults.update.applied)
                                     then sent else b.description)
            && UpdateCalls(plan, paths, faults)
               == (if SpecTags in paths then SyncCalls(plan, faults) else 0) + if sends then 1 else 0
  {
  }

  function UpdateCalls(plan: Plan, paths: seq<FieldPath>, faults: Faults): nat {
    (if SpecTags in paths then SyncCalls(plan, faults) else 0) + if UpdatesRest(plan, paths, faults) then 1 else 0
  }

  /** The faults that calls on behalf of a resource meet. */
  function Facing(client: Client, r: GlobalNetwork): Faults
    reads client`faults, r`globalNetworkID, r`meta, r.meta
  {
    client.Addressed(if r.meta == null then None else r.meta.arn, r.globalNetworkID)
  }

  /** A sync looks at the faults of the tag calls only. */
  lemma SyncFaults(tags: map<string, string>, plan: Plan, f: Faults, g: Faults)
    requires f.tag == g.tag && f.untag == g.untag
    ensures AfterSync(tags, plan, f) == AfterSync(tags, plan, g) && SyncAnswer(plan, f) == SyncAnswer(plan, g)
    ensures SyncCalls(plan, f) == SyncCalls(plan, g)
  {
  }

  /** The plan of an update. */
  function PlanOf(desired: GlobalNetwork, latest: GlobalNetwork): Plan
    reads desired`tags, Slice(desired.tags), latest`tags, Slice(latest.tags)
  {
    PlanFor(ToMap(TagsOf(Slice(desired.tags))), ToMap(TagsOf(Slice(latest.tags))))
  }

  /** The second half of an update: the description is sent and the response merged in. */
  method SendUpdate(rm: ResourceManager, client: Client, desired: GlobalNetwork)
    returns (updated: GlobalNetwork?, err: Option<Error>, ghost g: SdkNetwork)
    modifies client`description, client`calls
    ensures client.calls == old(client.calls) + 1
    ensures client.description
            == AfterUpdate(old(client.description), desired.description, old(Facing(client, desired)).update)
    ensures err == UpdateAnswer(old(Facing(client, desired)).update)
    ensures updated != null <==> err.None?
    ensures updated != null ==>
              fresh(updated) && client.Reports(g) && updated.View() == Observe(rm, old(desired.View()), g)
    ensures updated != null && null !in Slice(desired.conditions) ==> null !in Slice(updated.conditions)
  {
    hide TagsOf, CondsOf, Observe;
    g := SdkNetwork(None, None, None, None, "", None);
    var resp := client.UpdateGlobalNetwork(desired.globalNetworkID, desired.description);
    if resp.Err? {
      return null, Some(resp.error), g;
    }
    g := resp.value;
    updated := MergeResponse(rm, desired, resp.value);
    err := None;
  }

  method SdkUpdate(rm: ResourceManager, client: Client, desired: GlobalNetwork, latest: GlobalNetwork, delta: Delta)
    returns (updated: GlobalNetwork?, err: Option<Error>, ghost g: SdkNetwork)
    requires SpecTags in delta.paths ==> desired.meta != null && desired.meta.arn.Some?
    requires SpecTags in delta.paths ==> NilSafe(TagsOf(Slice(desired.tags)), TagsOf(Slice(latest.tags)))
    modifies client`tags, client`description, client`calls
    ensures var plan, faults := old(PlanOf(desired, latest)), old(Facing(client, desired));
            && client.Current()
               == AfterUpdateCalls(old(client.Current()), plan, delta.paths, old(desired.description), faults)
            && client.calls == old(client.calls) + UpdateCalls(plan, delta.paths, faults)
            && err == UpdateOutcome(plan, delta.paths, faults)
            && (err.None? && !UpdatesRest(plan, delta.paths, faults) ==> updated == desired)
            && (err.None? && UpdatesRest(plan, delta.paths, faults) ==>
                  updated != null && fresh(updated) && client.Reports(g)
                  && updated.View() == Observe(rm, old(desired.View()), g))
    ensures var plan, faults := old(PlanOf(desired, latest)), old(Facing(client, desired));
            var tagging := SpecTags in delta.paths;
            err == if tagging && exists k :: k in plan.add && "aws:" <= k then Some(REFUSED)
                   else if tagging && plan.add != map[] && faults.tag.Failing? then Some(faults.tag.error)
                   else if tagging && exists k :: k in plan.delete && "aws:" <= k then Some(REFUSED)
                   else if tagging && plan.delete != {} && faults.untag.Failing? then Some(faults.untag.error)
                   else if (exists p :: p in delta.paths && p != SpecTags) && faults.update.UpdateFailing?
                   then Some(faults.update.error) else None
    ensures updated != null <==> err.None?
    ensures updated != null && null !in Slice(desired.conditions) ==> null !in Slice(updated.conditions)
  {
    hide TagsOf, CondsOf, GlobalNetwork.View, Observe, PlanFor, AfterSync, SyncAnswer, SyncCalls, NilSafe, ToMap;
    ghost var plan, faults, b := PlanOf(desired, latest), Facing(client, desired), client.Current();
    UpdateErrorIs(plan, delta.paths, faults);
    g := SdkNetwork(None, None, None, None, "", None);
    if delta.DifferentAt(SpecTags) {
      SyncFaults(client.tags, plan, faults, client.Addressed(Some(desired.meta.arn.value), None));
      var res := SyncTags(client, desired.meta.arn.value, Slice(desired.tags), Slice(latest.tags));
      if res.Failed? {
        return null, Some(res.error), g;
      }
    }
    if !delta.DifferentExcept(SpecTags) {
      return desired, None, g;
    }
    updated, err, g := SendUpdate(rm, client, desired);
  }
}
