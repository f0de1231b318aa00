/** The code's own cycle and runs of it, proved to be those of `Cycles`; a create followed by
    a run; and the spec's tags between two writes to the cluster. */
module Reconcile {
  import opened Wrappers
  import opened Errors
  import opened TagLists
  import opened TagRules
  import opened ApiTypes
  import opened Backend
  import opened TagSync
  import opened Deltas
  import opened Conditions
  import opened Identity
  import opened Sdk
  import opened Manager
  import opened Cycles

  /** The spec of a resource as its tags and description are compared. */
  function SpecOf(r: GlobalNetwork): Store
    reads r`tags, r`description, Slice(r.tags)
  {
    Store(ToMap(TagsOf(Slice(r.tags))), r.description)
  }

  /** A resource whose view has the SDK's tags has no nil tags. */
  lemma SdkTagsOf(r: GlobalNetwork, g: SdkNetwork)
    requires r.View().tags == g.tags
    ensures TagsOf(Slice(r.tags)) == Slice(g.tags) && null !in Slice(r.tags)
  {
  }

  function CondsIn(r: GlobalNetwork): seq<CondV>
    reads r`conditions, Slice(r.conditions)
  {
    CondsOf(Slice(r.conditions))
  }

  lemma CondsInView(r: GlobalNetwork)
    ensures Slice(r.View().conditions) == CondsIn(r)
  {
  }

  /** The conditions of every answer are one step on from those it is built from, whether
      or not there was an entry to record a success in. */
  lemma ConditionsRecorded(rm: ResourceManager, v: NetworkV, g: SdkNetwork, err: Option<Error>)
    ensures Slice(Recorded(rm, v, err).conditions) == Next(Slice(v.conditions), err)
    ensures Slice(Succeeded(rm, v).conditions) == Next(Slice(v.conditions), None)
    ensures Slice(Succeeded(rm, Observe(rm, v, g)).conditions) == Next(Slice(v.conditions), None)
  {
  }

  /** The read of a cycle: on success the latest spec is the service's state. */
  method ReadLatest(rm: ResourceManager, client: Client, desired: GlobalNetwork)
    returns (latest: GlobalNetwork, err: Option<Error>)
    requires null !in Slice(desired.tags) && null !in Slice(desired.conditions)
    requires client.created && Targets(client, desired)
    modifies desired`tags
    ensures fresh(latest) && null !in Slice(latest.conditions)
    ensures match client.faults.describe
            case Some(e) =>
              && desired.tags == old(desired.tags)
              && err == Some(Reported(old(CondsIn(desired)), ReadError(e)))
              && CondsIn(latest) == Next(old(CondsIn(desired)), Some(ReadError(e)))
            case None =>
              && err == None && null !in Slice(desired.tags) && null !in Slice(latest.tags)
              && SpecOf(latest) == client.Current()
              && SpecOf(desired)
                 == old(SpecOf(desired)).(tags := Mirror(old(SpecOf(desired)).tags, client.Current().tags))
              && NilSafe(TagsOf(Slice(desired.tags)), TagsOf(Slice(latest.tags)))
              && CondsIn(latest) == Next(old(CondsIn(desired)), None)
  {
    hide TagsOf, CondsOf, NilSafe, ToMap, Next, Reported;
    ghost var v := desired.View();
    ghost var g;
    latest, err, g := ReadOne(rm, client, desired);
    if err.None? {
      SdkTagsOf(latest, g);
      ConditionsRecorded(rm, v, g, None);
      ArrangedIsNilSafe(TagsOf(Slice(desired.tags)), TagsOf(Slice(latest.tags)));
    }
  }

  /** Without differences the runtime does not call `Update`; had it done so, nothing
      would have been called. */
  lemma EmptyDelta(b: Store, plan: Plan, sent: Option<string>, faults: Faults)
    ensures AfterUpdateCalls(b, plan, [], sent, faults) == b
    ensures UpdateCalls(plan, [], faults) == 0 && UpdateOutcome(plan, [], faults) == None
  {
  }

  /** The rest of a cycle: compare, and update if anything differs. */
  method CompareAndUpdate(rm: ResourceManager, client: Client, desired: GlobalNetwork, latest: GlobalNetwork)
    returns (res: GlobalNetwork, err: Option<Error>)
    requires null !in Slice(desired.tags) && null !in Slice(desired.conditions)
    requires null !in Slice(latest.tags) && null !in Slice(latest.conditions)
    requires Targets(client, desired) && NilSafe(TagsOf(Slice(desired.tags)), TagsOf(Slice(latest.tags)))
    requires CondsIn(latest) == Next(CondsIn(desired), None)
    modifies client`tags, client`description, client`calls
    ensures var want, have, cs := old(SpecOf(desired)), old(SpecOf(latest)), old(CondsIn(latest));
            var plan := PlanFor(want.tags, have.tags);
            var paths := Differences(want.description, want.tags, have.description, have.tags);
            var answer := UpdateOutcome(plan, paths, client.faults);
            && client.Current() == AfterUpdateCalls(old(client.Current()), plan, paths, want.description, client.faults)
            && client.calls == old(client.calls) + UpdateCalls(plan, paths, client.faults)
            && err == (if answer.None? then None else Some(Reported(cs, answer.value)))
            && CondsIn(res) == if answer.None? then cs else Next(cs, answer)
  {
    hide TagsOf, CondsOf, NilSafe, ToMap, GlobalNetwork.View, CondsIn, AfterUpdateCalls,
         UpdateCalls, UpdateOutcome, UpdatesRest, PlanFor, Differences, Next, Reported, Succeeded, Observe, Recorded;
    ghost var plan := PlanFor(SpecOf(desired).tags, SpecOf(latest).tags);
    var delta := NewResourceDelta(desired, latest);
    if delta.paths == [] {
      EmptyDelta(client.Current(), plan, desired.description, client.faults);
      return latest, None;
    }
    CondsInView(desired);
    CondsInView(latest);
    ghost var v, w := desired.View(), latest.View();
    ghost var g;
    res, err, g := Update(rm, client, desired, latest, delta);
    CondsInView(res);
    ConditionsRecorded(rm, v, g, None);
    if err.Some? {
      ConditionsRecorded(rm, w, g, UpdateOutcome(plan, delta.paths, client.faults));
    }
  }

  /** One cycle of the runtime: read the resource (which mirrors AWS's tags into its spec),
      compare, and update if anything differs. */
  method ReconcileOnce(rm: ResourceManager, client: Client, desired: GlobalNetwork)
    returns (res: GlobalNetwork, err: Option<Error>)
    requires null !in Slice(desired.tags) && null !in Slice(desired.conditions)
    requires client.created && Targets(client, desired)
    modifies desired`tags, client`tags, client`description, client`calls
    ensures var want, b, cs := old(SpecOf(desired)), old(client.Current()), old(CondsIn(desired));
            && client.Current() == Cycle(want, b, client.faults)
            && client.calls == old(client.calls) + CycleCalls(want, b, client.faults)
            && err == Told(cs, CycleAnswer(want, b, client.faults))
            && CondsIn(res) == After(cs, Outcomes(want, b, client.faults))
            && SpecOf(desired) == if client.faults.describe.Some? then want
                                  else Store(Mirror(want.tags, b.tags), want.description)
    ensures null !in Slice(desired.tags)
  {
    hide TagsOf, CondsOf, CondsIn, SpecOf, Targets, Client.Current, NilSafe, GlobalNetwork.View;
    hide Mirror, PlanFor, Differences, AfterUpdateCalls, UpdateCalls, UpdateOutcome, ReadError, Next, Reported;
    hide Cycle, CycleCalls, CycleAnswer, Told, Outcomes, After, ToMap;
    CycleHalves(CondsIn(desired), SpecOf(desired), client.Current(), client.faults);
    var latest;
    latest, err := ReadLatest(rm, client, desired);
    if err.Some? {
      return latest, err;
    }
    res, err := CompareAndUpdate(rm, client, desired, latest);
  }

  /** A run of cycles over one and the same desired object, which keeps what earlier cycles
      mirrored into it; the schedule says what the environment does in each. */
  method ReconcileRun(rm: ResourceManager, client: Client, desired: GlobalNetwork, schedule: seq<Faults>)
    requires null !in Slice(desired.tags) && null !in Slice(desired.conditions)
    requires client.created && Targets(client, desired)
    modifies desired`tags, client`tags, client`description, client`calls, client`faults
    ensures client.Current() == Run(old(SpecOf(desired)), old(client.Current()), schedule)
    ensures client.calls == old(client.calls) + RunCalls(old(SpecOf(desired)), old(client.Current()), schedule)
  {
    hide TagsOf, CondsOf, CondsIn, NilSafe, ToMap, GlobalNetwork.View, Targets, Client.Current, AwsPart;
    hide Cycle, CycleCalls, CycleAnswer, Outcomes, Told, After, Distance, EffectiveRunCalls, Reconcilable;
    ghost var spec, b := SpecOf(desired), client.Current();
    for i := 0 to |schedule|
      invariant null !in Slice(desired.tags) && null !in Slice(desired.conditions)
      invariant client.created && Targets(client, desired)
      invariant client.Current() == Run(spec, b, schedule[..i])
      invariant client.calls == old(client.calls) + RunCalls(spec, b, schedule[..i])
      invariant SpecOf(desired).description == spec.description
      invariant SpecOf(desired).tags == spec.tags || SpecOf(desired).tags == Mirror(spec.tags, b.tags)
    {
      ghost var now, again := client.Current(), SpecOf(desired);
      RunApproaches(spec, b, schedule[..i]);
      MirroredSpecCyclesAlike(spec, again, now, schedule[i]);
      client.faults := schedule[i];
      var _, _ := ReconcileOnce(rm, client, desired);
      assert schedule[..i + 1][..i] == schedule[..i];
    }
    assert schedule[..|schedule|] == schedule;
  }

  /** What a create answers with names the new network, and its spec is the service's
      state: there is nothing left to reconcile. */
  method CreateConverges(rm: ResourceManager, client: Client, r: GlobalNetwork, fault: Option<Error>)
    returns (res: GlobalNetwork, err: Option<Error>)
    requires null !in Slice(r.tags) && null !in Slice(r.conditions)
    modifies client`created, client`state, client`tags, client`description, client`calls
    ensures err.None? <==> CreateAnswer(old(SpecOf(r)).tags.Keys, fault).None?
    ensures fresh(res) && client.calls == old(client.calls) + 1
    ensures err.None? ==> client.created && Targets(client, res) && client.Current() == old(SpecOf(r)) == SpecOf(res)
                          && null !in Slice(res.tags) && null !in Slice(res.conditions)
    ensures err.None? ==> Distance(SpecOf(res), client.Current()) == 0
  {
    hide TagsOf, CondsOf, ToMap, Next, Reported;
    ghost var g;
    res, err, g := Create(rm, client, r, fault);
    if err.None? {
      SdkTagsOf(res, g);
    }
  }

  /** A create and then any run of cycles on its answer: after the create's own call no
      call that could change anything is made, whatever the environment does. */
  method CreateThenRun(rm: ResourceManager, client: Client, r: GlobalNetwork, fault: Option<Error>,
                       schedule: seq<Faults>)
    returns (res: GlobalNetwork, err: Option<Error>)
    requires null !in Slice(r.tags) && null !in Slice(r.conditions)
    modifies client`created, client`state, client`tags, client`description, client`calls, client`faults
    ensures err.None? <==> CreateAnswer(old(SpecOf(r)).tags.Keys, fault).None?
    ensures client.calls == old(client.calls) + 1
    ensures err.None? ==> client.created && client.Current() == old(SpecOf(r))
  {
    hide TagsOf, CondsOf, ToMap, Distance, Run, RunCalls;
    res, err := CreateConverges(rm, client, r, fault);
    if err.None? {
      StuckForever(SpecOf(res), client.Current(), schedule);
      ReconcileRun(rm, client, res, schedule);
    }
  }

  /** The life of a spec's tags between two writes to the cluster: the controller's tags
      are added, a read mirrors AWS's, and the system tags are filtered out of what is
      written back. That the filter comes only then is an assumption about the runtime. */
  method WriteBackTags(r: GlobalNetwork, latest: GlobalNetwork, defaultTags: map<string, string>,
                       systemTags: seq<string>)
    requires r != latest && null !in Slice(r.tags) && null !in Slice(latest.tags)
    modifies r`tags
    ensures null !in Slice(r.tags)
    ensures TagsOf(Slice(r.tags)) == old(TagsOf(Slice(r.tags)))
            <==> Clean(old(TagsOf(Slice(r.tags))), defaultTags, systemTags)
    ensures Arranges(TagsOf(Slice(r.tags)),
                     WithoutSystem(Merge(ToMap(old(TagsOf(Slice(r.tags)))), defaultTags), systemTags),
                     KeyOrder(old(TagsOf(Slice(r.tags)))))
    ensures var own, now := ToMap(old(TagsOf(Slice(r.tags)))), ToMap(TagsOf(Slice(r.tags)));
            && (forall k :: k in now <==> (k in own || k in defaultTags) && !("aws:" <= k) && k !in systemTags)
            && forall k :: k in now ==> now[k] == if k in own then own[k] else defaultTags[k]
  {
    hide TagsOf, Ensured, Mirrored, Filtered, Clean, Arranges, ToMap, KeyOrder;
    ghost var ts, from := TagsOf(Slice(r.tags)), TagsOf(Slice(latest.tags));
    EnsureTags(r, defaultTags);
    ghost var o1 := TagsOf(Slice(r.tags));
    MirrorAWSTags(r, latest);
    ghost var o2 := TagsOf(Slice(r.tags));
    FilterSystemTags(r, systemTags);
    WriteBack(ts, defaultTags, from, systemTags, o1, o2, TagsOf(Slice(r.tags)));
    WriteBackRoundTrip(ts, defaultTags, from, systemTags, o1, o2, TagsOf(Slice(r.tags)));
  }
}
