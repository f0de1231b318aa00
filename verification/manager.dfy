/** The resource manager (pkg/resource/global_network/manager.go), with the condition
    update of sdk.go that every one of its operations ends in. */
module Manager {
  import opened Wrappers
  import opened Errors
  import opened TagLists
  import opened TagRules
  import opened ApiTypes
  import opened AckTags
  import opened Backend
  import opened TagSync
  import opened Conditions
  import opened Deltas
  import opened Identity
  import opened Sdk

  // ---- Conditions ----

  /** A resource after an outcome has been recorded in it. */
  function Recorded(rm: ResourceManager, v: NetworkV, err: Option<Error>): NetworkV {
    WithDefaults(rm, v).(conditions := Some(Next(Slice(v.conditions), err)))
  }

  /** `onSuccess`: the resource itself when there is no condition to update. */
  function Succeeded(rm: ResourceManager, v: NetworkV): NetworkV {
    if Tracked(Slice(v.conditions), None) then Recorded(rm, v, None) else v
  }

  /** The last condition object of each of the three types. */
  method FindConditions(cs: seq<Condition?>)
    returns (terminal: Condition?, recoverable: Condition?, synced: Condition?)
    requires null !in cs
    ensures terminal == EntryAt(cs, ConditionType.Terminal)
    ensures recoverable == EntryAt(cs, Recoverable)
    ensures synced == EntryAt(cs, ResourceSynced)
  {
    terminal, recoverable, synced := null, null, null;
    ghost var view := CondsOf(cs);
    hide CondsOf;
    for i := 0 to |cs|
      invariant terminal == EntryIn(cs, view[..i], ConditionType.Terminal)
      invariant recoverable == EntryIn(cs, view[..i], Recoverable)
      invariant synced == EntryIn(cs, view[..i], ResourceSynced)
    {
      EntryStep(cs, view, i, ConditionType.Terminal);
      EntryStep(cs, view, i, Recoverable);
      EntryStep(cs, view, i, ResourceSynced);
      var condition := cs[i];
      if condition.ctype == ConditionType.Terminal {
        terminal := condition;
      }
      if condition.ctype == Recoverable {
        recoverable := condition;
      }
      if condition.ctype == ResourceSynced {
        synced := condition;
      }
    }
    assert view[..|cs|] == view;
  }

  function EntryAt(cs: seq<Condition?>, ty: ConditionType): Condition?
    reads cs
  {
    EntryIn(cs, CondsOf(cs), ty)
  }

  /** The object behind the last entry of a type in a view of the first objects. */
  function EntryIn(cs: seq<Condition?>, view: seq<CondV>, ty: ConditionType): Condition?
    requires |view| <= |cs|
  {
    var i := LastOf(view, ty);
    if i < 0 then null else cs[i]
  }

  lemma EntryStep(cs: seq<Condition?>, view: seq<CondV>, i: nat, ty: ConditionType)
    requires i < |view| <= |cs|
    ensures EntryIn(cs, view[..i + 1], ty)
            == if view[i].Cond? && view[i].ctype == ty then cs[i] else EntryIn(cs, view[..i], ty)
  {
    assert view[..i + 1][..i] == view[..i];
  }

  /** Change one condition object of a list of distinct ones. */
  method SetCondition(cs: seq<Condition?>, c: Condition, ghost i: nat, status: ConditionStatus,
                      message: Option<string>)
    requires Separate(cs) && i < |cs| && cs[i] == c
    modifies c
    ensures CondsOf(cs) == old(CondsOf(cs))[i := old(CondOf(c)).(status := status, message := message)]
  {
    c.status := status;
    c.message := message;
  }

  /** Set the entry of a type, appending a new object if the list has none. */
  method MarkEntry(cs: seq<Condition?>, entry: Condition?, ty: ConditionType, message: string)
    returns (out: seq<Condition?>, marked: Condition)
    requires Separate(cs) && entry == EntryAt(cs, ty)
    modifies entry
    ensures CondsOf(out) == Mark(old(CondsOf(cs)), ty, message)
    ensures Separate(out) && cs <= out && forall c :: c in out && c !in cs ==> fresh(c)
  {
    ghost var v := CondsOf(cs);
    if entry == null {
      marked := new Condition(ty);
      out := cs + [marked];
      assert CondsOf(out) == v + [Cond(ty, Unset, None, None, None)];
      SetCondition(out, marked, |cs|, True, Some(message));
    } else {
      out, marked := cs, entry;
      SetCondition(out, marked, LastOf(v, ty), True, Some(message));
    }
  }

  method ClearEntry(cs: seq<Condition?>, entry: Condition?, ty: ConditionType)
    requires Separate(cs) && entry == EntryAt(cs, ty)
    modifies entry
    ensures CondsOf(cs) == Clear(old(CondsOf(cs)), ty)
  {
    if entry != null {
      SetCondition(cs, entry, LastOf(CondsOf(cs), ty), False, None);
    }
  }

  /** The objects of `cs` are changed in place and at most one is added. */
  method RecordOutcome(cs: seq<Condition?>, err: Option<Error>) returns (out: seq<Condition?>, tracked: bool)
    requires Separate(cs)
    modifies cs
    ensures CondsOf(out) == Next(old(CondsOf(cs)), err)
    ensures Records(old(CondsOf(cs)), err, CondsOf(out))
    ensures tracked <==> Tracked(old(CondsOf(cs)), err)
    ensures null !in out && forall c :: c in out && c !in cs ==> fresh(c)
  {
    hide CondsOf, Records;
    ghost var v := CondsOf(cs);
    NextRecords(v, err);
    var terminal, recoverable, synced := FindConditions(cs);
    out := cs;
    if IsTerminal(err) {
      out, terminal := MarkEntry(cs, terminal, ConditionType.Terminal, MessageOf(err));
    } else {
      ClearEntry(cs, terminal, ConditionType.Terminal);
      ClearMeaning(v, ConditionType.Terminal, Recoverable);
      if err.Some? {
        out, recoverable := MarkEntry(cs, recoverable, Recoverable, MessageOf(err));
      } else {
        ClearEntry(cs, recoverable, Recoverable);
      }
    }
    tracked := terminal != null || recoverable != null || synced != null;
  }

  /** The copy that an update works on: nothing in it is shared with the original. */
  method CopyWithDefaults(rm: ResourceManager, r: GlobalNetwork) returns (ko: GlobalNetwork, cs: seq<Condition?>)
    requires null !in Slice(r.conditions)
    ensures fresh(ko) && ko.View() == WithDefaults(rm, old(r.View()))
    ensures ko.conditions == Some(cs) && Separate(cs) && forall i :: 0 <= i < |cs| ==> cs[i] in cs && fresh(cs[i])
  {
    hide CondsOf, TagsOf;
    ko := r.DeepCopy();
    cs := Slice(ko.conditions);
    forall i | 0 <= i < |cs| ensures cs[i] in cs && fresh(cs[i]) {
      assert cs[i] in Slice(ko.conditions) && cs[i] != null;
    }
    SetStatusDefaults(rm, ko);
  }

  lemma TrackedObjects(cs: seq<Condition?>, err: Option<Error>)
    requires null !in cs
    ensures Tracked(CondsOf(cs), err)
            <==> err.Some? || exists c :: c in cs && c.ctype in {ConditionType.Terminal, Recoverable, ResourceSynced}
  {
    var v := CondsOf(cs);
    TrackedIs(v, err);
    forall ty ensures Has(v, ty) <==> exists c :: c in cs && c.ctype == ty {
      if c :| c in cs && c.ctype == ty {
        var i :| 0 <= i < |cs| && cs[i] == c;
        assert v[i].Cond? && v[i].ctype == ty;
      }
      if Has(v, ty) {
        var i :| 0 <= i < |v| && v[i].Cond? && v[i].ctype == ty;
        assert cs[i] in cs && cs[i].ctype == ty;
      }
    }
  }

  /** The update works on a deep copy and may modify nothing that already existed; null
      stands for "nothing updated". */
  method UpdateConditions(rm: ResourceManager, r: GlobalNetwork, onSuccess: bool, err: Option<Error>)
    returns (updated: GlobalNetwork?)
    requires null !in Slice(r.conditions)
    ensures updated != null <==> Tracked(old(CondsOf(Slice(r.conditions))), err)
    ensures updated != null ==> fresh(updated) && updated.View() == Recorded(rm, old(r.View()), err)
    ensures updated != null ==> null !in Slice(updated.conditions)
    ensures updated == null <==>
            err.None? && forall c :: c in Slice(r.conditions) ==>
                                       old(c.ctype) !in {ConditionType.Terminal, Recoverable, ResourceSynced}
    ensures updated != null ==>
              && CondsOf(Slice(updated.conditions)) == Next(old(CondsOf(Slice(r.conditions))), err)
              && Records(old(CondsOf(Slice(r.conditions))), err, CondsOf(Slice(updated.conditions)))
              && updated.objectMeta == r.objectMeta && updated.description == r.description
              && updated.createdAt == r.createdAt && updated.globalNetworkID == r.globalNetworkID
              && updated.state == r.state
              && (updated.tags.Some? <==> r.tags.Some?) && TagsOf(Slice(updated.tags)) == old(TagsOf(Slice(r.tags)))
  {
    hide CondsOf, TagsOf, Next, Tracked, Records, Has;
    TrackedObjects(Slice(r.conditions), err);
    var ko, cs := CopyWithDefaults(rm, r);
    ghost var v := ko.View();
    var conditions, tracked := RecordOutcome(cs, err);
    ko.conditions := Some(conditions);
    assert MetaOf(ko.meta) == v.meta;
    assert ko.tags.Some? ==> TagsOf(ko.tags.value) == v.tags.value;
    updated := if tracked then ko else null;
  }

  /** An error is told by a True entry with a message. */
  lemma NewsIsRecorded(before: seq<CondV>, err: Error, cs: seq<Condition?>)
    requires null !in cs && Records(before, Some(err), CondsOf(cs))
    ensures var terminal := (err.api.Some? && err.api.value.code == "ValidationException") || err.wrapsTerminal
                            || err.sentinel in {SecretTypeNotSupported, SecretNotFound};
            exists c :: c in cs && c.status == True && c.message.Some?
                        && c.ctype == if terminal then ConditionType.Terminal else Recoverable
  {
    var after := CondsOf(cs);
    var ty := if IsTerminal(Some(err)) then ConditionType.Terminal else Recoverable;
    LastOfIs(before, ty);
    var i := if Has(before, ty) then LastOf(before, ty) else |before|;
    assert after[i] == CondOf(cs[i]);
    assert cs[i] in cs && cs[i].ctype == ty && cs[i].status == True && cs[i].message.Some?;
  }

  lemma ReportedIs(before: seq<CondV>, err: Error, after: seq<CondV>)
    requires after == Next(before, Some(err))
    ensures Reported(before, err) == if HasTrue(after, ConditionType.Terminal) then TERMINAL else err
  {
  }

  /** The loop of `onError` over the updated conditions. */
  method InTerminalCondition(cs: seq<Condition?>) returns (terminal: bool)
    requires null !in cs
    ensures terminal <==> HasTrue(CondsOf(cs), ConditionType.Terminal)
  {
    ghost var view := CondsOf(cs);
    for i := 0 to |cs|
      invariant forall j :: 0 <= j < i ==> !TrueAt(view, j, ConditionType.Terminal)
    {
      if cs[i].ctype == ConditionType.Terminal && cs[i].status == True {
        assert TrueAt(view, i, ConditionType.Terminal);
        return true;
      }
    }
    return false;
  }

  /** On a resource: the conditions record the error and the caller is told "terminal" when
      a Terminal condition holds. The branch for "not updated" is never taken. */
  method OnError(rm: ResourceManager, r: GlobalNetwork?, err: Error) returns (res: GlobalNetwork?, out: Error)
    requires r != null ==> null !in Slice(r.conditions)
    ensures r == null ==> res == null && out == err
    ensures r != null ==> res != null && fresh(res) && res.View() == Recorded(rm, old(r.View()), Some(err))
    ensures r != null ==> out == Reported(old(CondsOf(Slice(r.conditions))), err)
    ensures r != null ==> null !in Slice(res.conditions)
    ensures r != null ==>
              var terminal := (err.api.Some? && err.api.value.code == "ValidationException") || err.wrapsTerminal
                              || err.sentinel in {SecretTypeNotSupported, SecretNotFound};
              var hidden := Hidden(old(CondsOf(Slice(r.conditions))), ConditionType.Terminal);
              && out == (if terminal || hidden then TERMINAL else err)
              && exists c :: c in Slice(res.conditions) && c.status == True && c.message.Some?
                             && c.ctype == if terminal then ConditionType.Terminal else Recoverable
    ensures r != null ==> Records(old(CondsOf(Slice(r.conditions))), Some(err), CondsOf(Slice(res.conditions)))
  {
    if r == null {
      return null, err;
    }
    hide Next, TagsOf, CondsOf, Records, Hidden, Reported, HasTrue, Recorded, GlobalNetwork.View;
    ghost var before := CondsOf(Slice(r.conditions));
    ReportedByFields(before, err);
    var updated := UpdateConditions(rm, r, false, Some(err));
    if updated == null {
      return r, err;
    }
    NewsIsRecorded(before, err, Slice(updated.conditions));
    ReportedIs(before, err, CondsOf(Slice(updated.conditions)));
    var terminal := InTerminalCondition(Slice(updated.conditions));
    res, out := updated, if terminal then TERMINAL else err;
  }

  lemma UntrackedRecords(cs: seq<Condition?>)
    requires null !in cs
    ensures (forall c :: c in cs ==> c.ctype !in {ConditionType.Terminal, Recoverable, ResourceSynced}) ==>
              Records(CondsOf(cs), None, CondsOf(cs))
  {
  }

  method OnSuccess(rm: ResourceManager, r: GlobalNetwork?) returns (res: GlobalNetwork?)
    requires r != null ==> null !in Slice(r.conditions)
    ensures r == null ==> res == null
    ensures r != null ==> res != null && res.View() == Succeeded(rm, old(r.View())) && (res == r || fresh(res))
    ensures r != null ==> null !in Slice(res.conditions)
    ensures r != null ==>
              && (res == r <==> forall c :: c in Slice(r.conditions) ==>
                                              c.ctype !in {ConditionType.Terminal, Recoverable, ResourceSynced})
              && Records(old(CondsOf(Slice(r.conditions))), None, CondsOf(Slice(res.conditions)))
  {
    if r == null {
      return null;
    }
    hide Next, TagsOf, CondsOf, Records;
    UntrackedRecords(Slice(r.conditions));
    var updated := UpdateConditions(rm, r, true, None);
    res := if updated == null then r else updated;
  }

  // ---- The three rewrites of Spec.Tags ----

  method EnsureTags(r: GlobalNetwork, defaultTags: map<string, string>)
    requires null !in Slice(r.tags)
    modifies r`tags
    ensures r.tags.Some? && null !in r.tags.value
    ensures Ensured(TagsOf(r.tags.value), old(TagsOf(Slice(r.tags))), defaultTags)
    ensures var own, now := ToMap(old(TagsOf(Slice(r.tags)))), ToMap(TagsOf(r.tags.value));
            && (forall k :: k in now <==> k in own || k in defaultTags)
            && forall k :: k in now ==> now[k] == if k in own then own[k] else defaultTags[k]
  {
    hide TagsOf, ToMap, KeyOrder, Canonical, Firsts;
    var resourceTags, keyOrder := ConvertToOrderedACKTags(Slice(r.tags));
    var tags := new TagMap();
    tags.m := Merge(resourceTags.m, defaultTags);
    var list := FromACKTags(tags, keyOrder);
    r.tags := Some(list);
  }

  /** A nil resource is left alone. */
  method FilterSystemTags(r: GlobalNetwork?, systemTags: seq<string>)
    requires r != null ==> null !in Slice(r.tags)
    modifies if r == null then {} else {r}`tags
    ensures r != null ==> r.tags.Some? && null !in r.tags.value
    ensures r != null ==> Filtered(TagsOf(r.tags.value), old(TagsOf(Slice(r.tags))), systemTags)
    ensures r != null ==>
              var was, now := ToMap(old(TagsOf(Slice(r.tags)))), ToMap(TagsOf(r.tags.value));
              && (forall k :: k in now <==> k in was && !("aws:" <= k) && k !in systemTags)
              && forall k :: k in now ==> now[k] == was[k]
  {
    if r == null {
      return;
    }
    hide TagsOf, ToMap, KeyOrder, Canonical, Firsts, WithoutSystem;
    var resourceTags, keyOrder := ConvertToOrderedACKTags(Slice(r.tags));
    IgnoreSystemTags(resourceTags, systemTags);
    var list := FromACKTags(resourceTags, keyOrder);
    r.tags := Some(list);
  }

  method MirroredList(desired: seq<Tag?>, latest: seq<Tag?>) returns (list: seq<Tag>)
    requires null !in desired && null !in latest
    ensures Mirrored(TagsOf(list), old(TagsOf(desired)), old(TagsOf(latest)))
  {
    ghost var from := TagsOf(latest);
    var desiredTags, desiredTagKeyOrder := ConvertToOrderedACKTags(desired);
    var latestTags, _ := ConvertToOrderedACKTags(latest);
    assert latestTags.m == ToMap(from);
    SyncAWSTags(desiredTags, latestTags);
    list := FromACKTags(desiredTags, desiredTagKeyOrder);
  }

  /** The AWS-owned tags of `b` are copied into `a`; if either is nil nothing happens. */
  method MirrorAWSTags(a: GlobalNetwork?, b: GlobalNetwork?)
    requires a != null && b != null ==> null !in Slice(a.tags) && null !in Slice(b.tags)
    modifies if a == null || b == null then {} else {a}`tags
    ensures a != null && b != null ==> a.tags.Some? && null !in a.tags.value
    ensures a != null && b != null ==>
              Mirrored(TagsOf(a.tags.value), old(TagsOf(Slice(a.tags))), old(TagsOf(Slice(b.tags))))
    ensures a != null && b != null ==>
              var want, have := ToMap(old(TagsOf(Slice(a.tags)))), ToMap(old(TagsOf(Slice(b.tags))));
              var now := ToMap(TagsOf(a.tags.value));
              && (forall k :: k in now <==> k in want || (k in have && "aws:" <= k))
              && forall k :: k in now ==> now[k] == if k in have && "aws:" <= k then have[k] else want[k]
  {
    if a == null || b == null {
      return;
    }
    hide TagsOf, ToMap, KeyOrder, Canonical, Firsts, Mirror;
    MirrorByKey(ToMap(TagsOf(Slice(a.tags))), ToMap(TagsOf(Slice(b.tags))));
    var list := MirroredList(Slice(a.tags), Slice(b.tags));
    a.tags := Some(list);
  }

  // ---- Operations ----

  /** A read succeeds exactly when the network can be found. Then the answer is what was
      observed, and the resource passed in has had AWS's tags mirrored into its spec; on
      failure it is untouched and the answer is it with the error recorded. */
  method ReadOne(rm: ResourceManager, client: Client, r: GlobalNetwork)
    returns (res: GlobalNetwork, err: Option<Error>, ghost g: SdkNetwork)
    requires null !in Slice(r.conditions)
    requires Findable(client, r.globalNetworkID) ==> null !in Slice(r.tags)
    modifies r`tags
    ensures err.None? <==> Findable(client, r.globalNetworkID)
    ensures fresh(res) && null !in Slice(res.conditions)
    ensures err.None? ==> client.Reports(g) && res.View() == Succeeded(rm, Observe(rm, old(r.View()), g))
    ensures err.None? ==> r.tags.Some? && null !in r.tags.value
                          && Mirrored(TagsOf(r.tags.value), old(TagsOf(Slice(r.tags))), Slice(g.tags))
    ensures err.Some? ==> r.tags == old(r.tags)
                          && var e := FindError(client, r.globalNetworkID);
                             res.View() == Recorded(rm, old(r.View()), Some(e))
                             && err == Some(Reported(old(CondsOf(Slice(r.conditions))), e))
  {
    hide CondsOf, TagsOf, Next, Mirrored, Observe, Succeeded, Recorded, Reported, FindError, WithDefaults;
    hide Client.Reports, Arranges, Records, Hidden;
    var observed, e;
    observed, e, g := SdkFind(rm, client, r);
    ghost var v := if observed != null then observed.View() else r.View();
    ObservedTags(rm, r.View(), g);
    MirrorAWSTags(r, observed);
    if e.Some? {
      var failed, reported := OnError(rm, r, e.value);
      return failed, Some(reported), g;
    }
    assert observed.View() == v;
    res := OnSuccess(rm, observed);
    err := None;
  }

  /** What a failure of any operation comes to, on any condition list: the answer is
      Terminal, to the caller and in its conditions, iff the error is terminal or a hidden
      entry was True; otherwise the caller gets the error itself. */
  lemma FailureIsClassified(rm: ResourceManager, v: NetworkV, e: Error)
    ensures var cs, after := Slice(v.conditions), Slice(Recorded(rm, v, Some(e)).conditions);
            var terminal := IsTerminal(Some(e)) || Shadowed(cs, ConditionType.Terminal);
            && (HasTrue(after, ConditionType.Terminal) <==> terminal)
            && Reported(cs, e) == (if terminal then TERMINAL else e)
            && (HasTrue(after, Recoverable)
                <==> Shadowed(cs, Recoverable) || !IsTerminal(Some(e)) || Effective(cs, Recoverable))
  {
    var cs := Slice(v.conditions);
    StepMeaning(cs, Some(e));
    TrueIsShadowedOrEffective(Next(cs, Some(e)), ConditionType.Terminal);
    TrueIsShadowedOrEffective(Next(cs, Some(e)), Recoverable);
  }

  /** A create succeeds exactly when the call does, and sends the spec as it stands; when
      it fails nothing is created, and the service's error is recorded and reported. */
  method Create(rm: ResourceManager, client: Client, r: GlobalNetwork, fault: Option<Error>)
    returns (res: GlobalNetwork, err: Option<Error>, ghost g: SdkNetwork)
    requires null !in Slice(r.tags) && null !in Slice(r.conditions)
    modifies client`created, client`state, client`tags, client`description, client`calls
    ensures fresh(res) && null !in Slice(res.conditions) && client.calls == old(client.calls) + 1
    ensures var v, sent := old(r.View()), ToMap(old(TagsOf(Slice(r.tags))));
            match CreateAnswer(sent.Keys, fault)
            case None =>
              && err == None && client.created && client.Current() == Store(sent, v.description)
              && client.Reports(g) && res.View() == Succeeded(rm, Observe(rm, v, g))
            case Some(e) =>
              && client.Current() == old(client.Current()) && client.created == old(client.created)
              && res.View() == Recorded(rm, v, Some(e)) && err == Some(Reported(Slice(v.conditions), e))
  {
    hide CondsOf, TagsOf, ToMap, Next;
    var created, e;
    created, e, g := SdkCreate(rm, client, r, fault);
    if e.Some? {
      var failed, reported := OnError(rm, r, e.value);
      return failed, Some(reported), g;
    }
    res := OnSuccess(rm, created);
    err := None;
  }

  /** An update makes the calls the delta asks for. Its answer carries the outcome in its
      conditions: on success it is the desired resource, or what the service reported of
      it; on failure the latest one, with the error of the call that failed. */
  method Update(rm: ResourceManager, client: Client, desired: GlobalNetwork, latest: GlobalNetwork, delta: Delta)
    returns (res: GlobalNetwork, err: Option<Error>, ghost g: SdkNetwork)
    requires null !in Slice(desired.conditions) && null !in Slice(latest.conditions)
    requires SpecTags in delta.paths ==> desired.meta != null && desired.meta.arn.Some?
    requires SpecTags in delta.paths ==> NilSafe(TagsOf(Slice(desired.tags)), TagsOf(Slice(latest.tags)))
    modifies client`tags, client`description, client`calls
    ensures null !in Slice(res.conditions)
    ensures var plan, faults := old(PlanOf(desired, latest)), old(Facing(client, desired));
            && client.Current()
               == AfterUpdateCalls(old(client.Current()), plan, delta.paths, old(desired.description), faults)
            && client.calls == old(client.calls) + UpdateCalls(plan, delta.paths, faults)
            && match UpdateOutcome(plan, delta.paths, faults)
               case None =>
                 && err == None
                 && (UpdatesRest(plan, delta.paths, faults) ==>
                       client.Reports(g) && res.View() == Succeeded(rm, Observe(rm, old(desired.View()), g)))
                 && (!UpdatesRest(plan, delta.paths, faults) ==> res.View() == Succeeded(rm, old(desired.View())))
               case Some(e) =>
                 && res.View() == Recorded(rm, old(latest.View()), Some(e))
                 && err == Some(Reported(Slice(old(latest.View()).conditions), e))
  {
    hide CondsOf, TagsOf, NilSafe, Next, Observe, Succeeded, Recorded, Reported;
    hide PlanOf, Facing, AfterUpdateCalls, UpdateCalls, UpdateOutcome, UpdatesRest, Records, Hidden, Client.Reports;
    var updated, e;
    updated, e, g := SdkUpdate(rm, client, desired, latest, delta);
    if e.Some? {
      var failed, reported := OnError(rm, latest, e.value);
      return failed, Some(reported), g;
    }
    res := OnSuccess(rm, updated);
    err := None;
  }
}
