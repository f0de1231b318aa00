/** `SyncTags` (pkg/tags/sync.go): the plan that turns the existing tags into the desired
    ones, and its application in two calls that may each fail. */
module TagSync {
  import opened Wrappers
  import opened Errors
  import opened TagLists
  import opened TagRules
  import opened ApiTypes
  import opened Backend

  // ---- Specification ----

  /** The map `SyncTags` itself builds: values keep their nils. */
  function RawMap(ts: seq<TagV>): map<string, Option<string>> {
    if ts == [] then map[]
    else
      var m, t := RawMap(ts[..|ts| - 1]), ts[|ts| - 1];
      if Keyed(t) then m[t.key.value := t.value] else m
  }

  predicate AllKeyed(ts: seq<TagV>) {
    forall i :: 0 <= i < |ts| ==> Keyed(ts[i])
  }

  /** No nil pointer is dereferenced: keys are never nil, nor the effective value of a
      desired key, nor the effective existing value it is compared with. */
  predicate NilSafe(desired: seq<TagV>, existing: seq<TagV>) {
    && AllKeyed(desired) && AllKeyed(existing)
    && forall k :: k in RawMap(desired) ==>
                     RawMap(desired)[k].Some? && (k in RawMap(existing) ==> RawMap(existing)[k].Some?)
  }

  /** Entry `i` is the last one with key `k`: the one that counts. */
  ghost predicate Counts(ts: seq<TagV>, i: int, k: string) {
    && 0 <= i < |ts| && ts[i].Tag? && ts[i].key == Some(k)
    && forall j :: i < j < |ts| && ts[j].Tag? ==> ts[j].key != Some(k)
  }

  lemma {:induction false} RawMapCounts(ts: seq<TagV>, k: string)
    ensures forall i :: Counts(ts, i, k) ==> k in RawMap(ts) && RawMap(ts)[k] == ts[i].value
    ensures k in RawMap(ts) ==> exists i :: Counts(ts, i, k)
  {
    if ts != [] {
      var init, t := ts[..|ts| - 1], ts[|ts| - 1];
      RawMapCounts(init, k);
      if Keyed(t) && t.key.value == k {
        assert Counts(ts, |ts| - 1, k);
      } else {
        forall i ensures Counts(ts, i, k) <==> Counts(init, i, k) {
          assert forall j :: 0 <= j < |init| ==> ts[j] == init[j];
        }
      }
    }
  }

  /** `NilSafe` entry by entry: no entry and no key is nil, and neither is the value that
      counts of a desired key, on either side. A nil value that another entry overrides, or
      of a key that is not desired, does no harm. */
  lemma NilSafeByEntry(desired: seq<TagV>, existing: seq<TagV>)
    ensures NilSafe(desired, existing) <==>
            && (forall i :: 0 <= i < |desired| ==> desired[i].Tag? && desired[i].key.Some?)
            && (forall i :: 0 <= i < |existing| ==> existing[i].Tag? && existing[i].key.Some?)
            && (forall i, k :: Counts(desired, i, k) ==> desired[i].value.Some?)
            && (forall i, j, k :: Counts(desired, i, k) && Counts(existing, j, k) ==> existing[j].value.Some?)
  {
    hide RawMap;
    forall i, k | Counts(desired, i, k)
      ensures k in RawMap(desired) && RawMap(desired)[k] == desired[i].value
      ensures forall j :: Counts(existing, j, k) ==> k in RawMap(existing) && RawMap(existing)[k] == existing[j].value
    {
      RawMapCounts(desired, k);
      RawMapCounts(existing, k);
    }
    forall k | k in RawMap(desired)
      ensures exists i :: Counts(desired, i, k)
      ensures k in RawMap(existing) ==> exists j :: Counts(existing, j, k)
    {
      RawMapCounts(desired, k);
      RawMapCounts(existing, k);
    }
  }

  datatype Plan = Plan(add: map<string, string>, delete: set<string>)

  function PlanFor(desired: map<string, string>, existing: map<string, string>): Plan {
    Plan(map k | k in desired && (k !in existing || existing[k] != desired[k]) :: desired[k],
         existing.Keys - desired.Keys)
  }

  function AfterAdd(tags: map<string, string>, plan: Plan, faults: Faults): map<string, string> {
    if plan.add == map[] then tags else AfterTag(tags, plan.add, faults.tag)
  }

  function AddAnswer(plan: Plan, faults: Faults): Option<Error> {
    if plan.add == map[] then None else TagAnswer(plan.add.Keys, faults.tag)
  }

  predicate AddSucceeds(plan: Plan, faults: Faults) {
    AddAnswer(plan, faults).None?
  }

  /** The backend's tags once the plan has been applied, as far as it got. */
  function AfterSync(tags: map<string, string>, plan: Plan, faults: Faults): map<string, string> {
    var added := AfterAdd(tags, plan, faults);
    if AddSucceeds(plan, faults) && plan.delete != {} then AfterUntag(added, plan.delete, faults.untag) else added
  }

  /** The error of the first call that fails; None if the plan is applied. */
  function SyncAnswer(plan: Plan, faults: Faults): Option<Error> {
    if !AddSucceeds(plan, faults) then AddAnswer(plan, faults)
    else if plan.delete == {} then None
    else TagAnswer(plan.delete, faults.untag)
  }

  predicate SyncSucceeds(plan: Plan, faults: Faults) {
    SyncAnswer(plan, faults).None?
  }

  /** Whose error a sync ends with, call by call. */
  lemma SyncErrorIs(plan: Plan, faults: Faults)
    ensures SyncAnswer(plan, faults)
            == if exists k :: k in plan.add && "aws:" <= k then Some(REFUSED)
               else if plan.add != map[] && faults.tag.Failing? then Some(faults.tag.error)
               else if exists k :: k in plan.delete && "aws:" <= k then Some(REFUSED)
               else if plan.delete != {} && faults.untag.Failing? then Some(faults.untag.error)
               else None
  {
  }

  function SyncCalls(plan: Plan, faults: Faults): nat {
    (if plan.add == map[] then 0 else 1) + if AddSucceeds(plan, faults) && plan.delete != {} then 1 else 0
  }

  // ---- The code ----

  datatype SyncResult = Synced | Failed(error: Error) | NilDereference

  lemma RawMapAppend(ts: seq<TagV>, t: TagV)
    ensures RawMap(ts + [t]) == if Keyed(t) then RawMap(ts)[t.key.value := t.value] else RawMap(ts)
  {
  }

  lemma {:induction false} RawMapReads(ts: seq<TagV>)
    ensures RawMap(ts).Keys == ToMap(ts).Keys
    ensures forall k :: k in RawMap(ts) ==> ToMap(ts)[k] == RawMap(ts)[k].GetOr("")
  {
    if ts != [] {
      RawMapReads(ts[..|ts| - 1]);
    }
  }

  /** The loop that fills a map from a list; `ok` is false if a nil is dereferenced. */
  method Collect(tags: seq<Tag?>) returns (m: map<string, Option<string>>, ok: bool)
    ensures ok <==> AllKeyed(TagsOf(tags))
    ensures ok ==> m == RawMap(TagsOf(tags))
  {
    m, ok := map[], true;
    var view := TagsOf(tags);
    for i := 0 to |tags|
      invariant forall j :: 0 <= j < i ==> Keyed(view[j])
      invariant m == RawMap(view[..i])
    {
      if tags[i] == null || tags[i].key.None? {
        assert !Keyed(view[i]);
        ok := false;
        return;
      }
      RawMapAppend(view[..i], view[i]);
      assert view[..i] + [view[i]] == view[..i + 1];
      m := m[tags[i].key.value := tags[i].value];
    }
    assert view[..|tags|] == view;
  }

  /** The desired keys to add, compared through their pointers. */
  method PlanAdditions(desired: map<string, Option<string>>, existing: map<string, Option<string>>)
    returns (toAdd: map<string, Option<string>>, ok: bool)
    ensures ok <==> forall k :: k in desired && k in existing ==> desired[k].Some? && existing[k].Some?
    ensures ok ==> toAdd == map k | k in desired && (k !in existing || existing[k] != desired[k]) :: desired[k]
  {
    toAdd, ok := map[], true;
    var todo := desired.Keys;
    while todo != {}
      invariant todo <= desired.Keys
      invariant forall k :: k in desired && k !in todo && k in existing ==> desired[k].Some? && existing[k].Some?
      invariant toAdd
                == map k | k in desired && k !in todo && (k !in existing || existing[k] != desired[k]) :: desired[k]
    {
      var k :| k in todo;
      todo := todo - {k};
      if k in existing && (existing[k].None? || desired[k].None?) {
        ok := false;
        return;
      }
      if k !in existing || existing[k].value != desired[k].value {
        toAdd := toAdd[k := desired[k]];
      }
    }
  }

  method PlanDeletions(desired: map<string, Option<string>>, existing: map<string, Option<string>>)
    returns (toDelete: seq<string>)
    ensures Elems(toDelete) == existing.Keys - desired.Keys && NoDup(toDelete)
  {
    toDelete := [];
    var todo := existing.Keys;
    while todo != {}
      invariant todo <= existing.Keys
      invariant Elems(toDelete) == existing.Keys - desired.Keys - todo && NoDup(toDelete)
    {
      var k :| k in todo;
      todo := todo - {k};
      if k !in desired {
        assert k !in Elems(toDelete) && Elems(toDelete + [k]) == Elems(toDelete) + {k};
        toDelete := toDelete + [k];
      }
    }
  }

  /** The bindings whose value is not nil. */
  function NonNil(m: map<string, Option<string>>): map<string, string> {
    map k | k in m && m[k].Some? :: m[k].value
  }

  method ListTags(tags: map<string, Option<string>>) returns (sdkTags: seq<SdkTag>)
    requires forall k :: k in tags ==> tags[k].Some?
    ensures ToMap(sdkTags) == NonNil(tags)
  {
    sdkTags := [];
    var todo := tags.Keys;
    while todo != {}
      invariant todo <= tags.Keys
      invariant ToMap(sdkTags) == map k | k in tags && k !in todo :: tags[k].value
    {
      var k :| k in todo;
      todo := todo - {k};
      var t: SdkTag := TagV.Tag(Some(k), tags[k]);
      ToMapAppend(sdkTags, t);
      sdkTags := sdkTags + [t];
    }
  }

  method AddTags(client: Client, resourceARN: string, tags: map<string, Option<string>>) returns (err: Option<Error>)
    requires forall k :: k in tags ==> tags[k].Some?
    modifies client`tags, client`calls
    ensures client.calls == old(client.calls) + 1
    ensures client.tags == AfterTag(old(client.tags), NonNil(tags), client.Addressed(Some(resourceARN), None).tag)
    ensures err == TagAnswer(tags.Keys, client.Addressed(Some(resourceARN), None).tag)
  {
    var sdkTags := ListTags(tags);
    assert NonNil(tags).Keys == tags.Keys;
    err := client.TagResource(resourceARN, sdkTags);
  }

  method RemoveTags(client: Client, resourceARN: string, tagKeys: seq<string>) returns (err: Option<Error>)
    modifies client`tags, client`calls
    ensures client.calls == old(client.calls) + 1
    ensures client.tags == AfterUntag(old(client.tags), Elems(tagKeys), client.Addressed(Some(resourceARN), None).untag)
    ensures err == TagAnswer(Elems(tagKeys), client.Addressed(Some(resourceARN), None).untag)
  {
    err := client.UntagResource(resourceARN, tagKeys);
  }

  /** The additions computed through pointers are those of the plan, once no pointer is nil. */
  lemma PlanMeaning(a: seq<TagV>, b: seq<TagV>, toAdd: map<string, Option<string>>)
    requires AllKeyed(a) && AllKeyed(b)
    requires forall k :: k in RawMap(a) && k in RawMap(b) ==> RawMap(a)[k].Some? && RawMap(b)[k].Some?
    requires toAdd == map k | k in RawMap(a) && (k !in RawMap(b) || RawMap(b)[k] != RawMap(a)[k]) :: RawMap(a)[k]
    ensures NilSafe(a, b) <==> forall k :: k in toAdd ==> toAdd[k].Some?
    ensures NilSafe(a, b) ==> NonNil(toAdd) == PlanFor(ToMap(a), ToMap(b)).add
    ensures RawMap(b).Keys - RawMap(a).Keys == PlanFor(ToMap(a), ToMap(b)).delete
  {
    RawMapReads(a);
    RawMapReads(b);
    assert forall k :: k in RawMap(a) && k !in RawMap(b) ==> k in toAdd && toAdd[k] == RawMap(a)[k];
  }

  /** Everything `SyncTags` does before its first call: `ok` is false if a nil is
      dereferenced, in building the maps, comparing values or logging the additions. */
  method MakePlan(aTags: seq<Tag?>, bTags: seq<Tag?>)
    returns (toAdd: map<string, Option<string>>, toDelete: seq<string>, ok: bool)
    ensures ok <==> NilSafe(TagsOf(aTags), TagsOf(bTags))
    ensures ok ==> forall k :: k in toAdd ==> toAdd[k].Some?
    ensures ok ==> Plan(NonNil(toAdd), Elems(toDelete)) == PlanFor(ToMap(TagsOf(aTags)), ToMap(TagsOf(bTags)))
  {
    toAdd, toDelete := map[], [];
    var desiredTags, existingTags;
    desiredTags, ok := Collect(aTags);
    if !ok {
      return;
    }
    existingTags, ok := Collect(bTags);
    if !ok {
      return;
    }
    toAdd, ok := PlanAdditions(desiredTags, existingTags);
    if !ok {
      return;
    }
    toDelete := PlanDeletions(desiredTags, existingTags);
    PlanMeaning(TagsOf(aTags), TagsOf(bTags), toAdd);
    ok := forall k :: k in toAdd ==> toAdd[k].Some?;  // the debug log dereferences each value
  }

  lemma NonNilKeys(m: map<string, Option<string>>)
    requires forall k :: k in m ==> m[k].Some?
    ensures NonNil(m).Keys == m.Keys && (NonNil(m) == map[] <==> |m| == 0)
  {
    assert NonNil(m).Keys == m.Keys;
    if |m| == 0 {
      assert m == map[];
    } else {
      var k :| k in m;
      assert k in NonNil(m);
    }
  }

  method ApplyPlan(client: Client, resourceARN: string, toAdd: map<string, Option<string>>, toDelete: seq<string>)
    returns (err: Option<Error>)
    requires forall k :: k in toAdd ==> toAdd[k].Some?
    modifies client`tags, client`calls
    ensures var plan, faults := Plan(NonNil(toAdd), Elems(toDelete)), client.Addressed(Some(resourceARN), None);
            && client.tags == AfterSync(old(client.tags), plan, faults)
            && err == SyncAnswer(plan, faults)
            && client.calls == old(client.calls) + SyncCalls(plan, faults)
  {
    hide AfterTag, AfterUntag, TagAnswer, NonNil, Elems, Client.Addressed;
    NoElems(toDelete);
    NonNilKeys(toAdd);
    err := None;
    if |toAdd| > 0 {
      err := AddTags(client, resourceARN, toAdd);
      if err.Some? {
        return;
      }
    }
    if |toDelete| > 0 {
      err := RemoveTags(client, resourceARN, toDelete);
    }
  }

  /** A nil is dereferenced exactly on the lists `NilSafe` excludes, and then before any
      call; otherwise the plan is applied, the additions first. */
  method SyncTags(client: Client, resourceARN: string, aTags: seq<Tag?>, bTags: seq<Tag?>) returns (res: SyncResult)
    modifies client`tags, client`calls
    ensures res.NilDereference? <==> !NilSafe(TagsOf(aTags), TagsOf(bTags))
    ensures res.NilDereference? ==> client.tags == old(client.tags) && client.calls == old(client.calls)
    ensures !res.NilDereference? ==>
              var plan := PlanFor(ToMap(TagsOf(aTags)), ToMap(TagsOf(bTags)));
              var faults := client.Addressed(Some(resourceARN), None);
              && client.tags == AfterSync(old(client.tags), plan, faults)
              && res == (if SyncSucceeds(plan, faults) then Synced else Failed(SyncAnswer(plan, faults).value))
              && client.calls == old(client.calls) + SyncCalls(plan, faults)
    ensures !res.NilDereference? ==>
              var plan := PlanFor(ToMap(TagsOf(aTags)), ToMap(TagsOf(bTags)));
              var faults := client.Addressed(Some(resourceARN), None);
              res == if exists k :: k in plan.add && "aws:" <= k then Failed(REFUSED)
                     else if plan.add != map[] && faults.tag.Failing? then Failed(faults.tag.error)
                     else if exists k :: k in plan.delete && "aws:" <= k then Failed(REFUSED)
                     else if plan.delete != {} && faults.untag.Failing? then Failed(faults.untag.error)
                     else Synced
  {
    hide TagsOf, ToMap, PlanFor, AfterSync, SyncAnswer, SyncCalls, NilSafe;
    SyncErrorIs(PlanFor(ToMap(TagsOf(aTags)), ToMap(TagsOf(bTags))), client.Addressed(Some(resourceARN), None));
    var toAdd, toDelete, ok := MakePlan(aTags, bTags);
    if !ok {
      return NilDereference;
    }
    var err := ApplyPlan(client, resourceARN, toAdd, toDelete);
    res := if err.Some? then Failed(err.value) else Synced;
  }

  // ---- What the plan achieves ----

  function Lookup(m: map<string, string>, k: string): Option<string> {
    if k in m then Some(m[k]) else None
  }

  /** Every key of `now` is bound as in `old` or as in `new`. */
  ghost predicate Between(now: map<string, string>, before: map<string, string>, after: map<string, string>) {
    forall k :: Lookup(now, k) == Lookup(before, k) || Lookup(now, k) == Lookup(after, k)
  }

  lemma BetweenBounds(now: map<string, string>, before: map<string, string>, after: map<string, string>)
    requires Between(now, before, after)
    ensures before.Keys * after.Keys <= now.Keys <= before.Keys + after.Keys
    ensures |now| <= |before.Keys + after.Keys|
  {
    forall k | k in now.Keys ensures k in before.Keys + after.Keys {
      assert Lookup(now, k).Some?;
    }
    forall k | k in before.Keys * after.Keys ensures k in now.Keys {
      assert Lookup(now, k).Some?;
    }
    SubsetSize(now.Keys, before.Keys + after.Keys);
    assert |now| == |now.Keys|;
  }

  lemma SubsetSize<T>(a: set<T>, b: set<T>)
    requires a <= b
    ensures |a| <= |b| && (a != b ==> |a| < |b|)
  {
    assert b == a + (b - a);
    assert |a + (b - a)| == |a| + |b - a|;
  }

  lemma AddLookup(tags: map<string, string>, plan: Plan, faults: Faults, k: string)
    ensures var now := Lookup(AfterAdd(tags, plan, faults), k);
            now == Lookup(tags, k) || now == Lookup(plan.add, k)
    ensures AddSucceeds(plan, faults) ==>
              Lookup(AfterAdd(tags, plan, faults), k) == if k in plan.add then Some(plan.add[k]) else Lookup(tags, k)
    ensures k !in plan.add || NamesAws(plan.add.Keys) ==> Lookup(AfterAdd(tags, plan, faults), k) == Lookup(tags, k)
  {
  }

  /** What the second call does after the first. */
  lemma UntagLookup(tags: map<string, string>, plan: Plan, faults: Faults, k: string)
    ensures var mid, now := Lookup(AfterAdd(tags, plan, faults), k), Lookup(AfterSync(tags, plan, faults), k);
            now == mid || (k in plan.delete && now == None)
  {
  }

  lemma SyncLookup(tags: map<string, string>, plan: Plan, faults: Faults, k: string)
    requires k !in plan.add || k !in plan.delete
    ensures var now := Lookup(AfterSync(tags, plan, faults), k);
            now == Lookup(tags, k) || now == Lookup(plan.add, k) || (k in plan.delete && now == None)
    ensures k !in plan.add && k !in plan.delete ==> Lookup(AfterSync(tags, plan, faults), k) == Lookup(tags, k)
    ensures SyncSucceeds(plan, faults) ==>
              Lookup(AfterSync(tags, plan, faults), k)
              == if k in plan.add then Some(plan.add[k]) else if k in plan.delete then None else Lookup(tags, k)
  {
  }

  /** Where a sync leaves one key, and how many calls it makes, by the plan and the faults:
      an addition takes effect unless its call is refused or fails before reaching the key; a
      deletion likewise, and only if there was nothing to add or the additions succeeded. */
  lemma SyncByKey(tags: map<string, string>, plan: Plan, faults: Faults, k: string)
    requires k !in plan.add || k !in plan.delete
    ensures var addRefused := exists a :: a in plan.add && "aws:" <= a;
            var deleteRefused := exists d :: d in plan.delete && "aws:" <= d;
            var goesOn := plan.add == map[] || (!addRefused && faults.tag.NoFault?);
            var added := k in plan.add && !addRefused && (faults.tag.NoFault? || k in faults.tag.applied);
            var deleted := k in plan.delete && goesOn && !deleteRefused
                           && (faults.untag.NoFault? || k in faults.untag.applied);
            && Lookup(AfterSync(tags, plan, faults), k)
               == (if added then Some(plan.add[k]) else if deleted then None else Lookup(tags, k))
            && SyncCalls(plan, faults)
               == (if plan.add == map[] then 0 else 1) + if goesOn && plan.delete != {} then 1 else 0
  {
    assert NamesAws(plan.add.Keys) <==> exists a :: a in plan.add && "aws:" <= a;
    assert NamesAws(plan.delete) <==> exists d :: d in plan.delete && "aws:" <= d;
  }

  /** No gap and no surplus, whatever fails and however partially, and even if the plan
      was made from a stale list: after each call every key has its old or its desired
      binding, keys common to both are never missing, and there are never more tags than
      the two maps have keys together. */
  lemma SyncIsGapFree(tags: map<string, string>, desired: map<string, string>, existing: map<string, string>,
                      faults: Faults)
    ensures Between(AfterAdd(tags, PlanFor(desired, existing), faults), tags, desired)
    ensures Between(AfterSync(tags, PlanFor(desired, existing), faults), tags, desired)
    ensures |AfterAdd(tags, PlanFor(desired, existing), faults)| <= |tags.Keys + desired.Keys|
    ensures |AfterSync(tags, PlanFor(desired, existing), faults)| <= |tags.Keys + desired.Keys|
    ensures tags.Keys * desired.Keys <= AfterAdd(tags, PlanFor(desired, existing), faults).Keys
    ensures tags.Keys * desired.Keys <= AfterSync(tags, PlanFor(desired, existing), faults).Keys
  {
    var plan := PlanFor(desired, existing);
    forall k
      ensures Lookup(AfterAdd(tags, plan, faults), k) in {Lookup(tags, k), Lookup(desired, k)}
      ensures Lookup(AfterSync(tags, plan, faults), k) in {Lookup(tags, k), Lookup(desired, k)}
    {
      AddLookup(tags, plan, faults, k);
      SyncLookup(tags, plan, faults, k);
    }
    BetweenBounds(AfterAdd(tags, plan, faults), tags, desired);
    BetweenBounds(AfterSync(tags, plan, faults), tags, desired);
  }

  /** A successful sync leaves exactly the desired tags iff the list it planned from was
      fresh wherever that matters: a key the plan passes over already had its desired
      binding. In particular it does when `existing` is the backend's own map. */
  lemma SyncIsExact(tags: map<string, string>, desired: map<string, string>, existing: map<string, string>,
                    faults: Faults)
    requires SyncSucceeds(PlanFor(desired, existing), faults)
    ensures AfterSync(tags, PlanFor(desired, existing), faults) == desired <==>
            forall k :: Lookup(existing, k) == Lookup(desired, k) ==> Lookup(tags, k) == Lookup(desired, k)
  {
    var plan := PlanFor(desired, existing);
    var after := AfterSync(tags, plan, faults);
    forall k
      ensures Lookup(after, k)
              == if Lookup(existing, k) == Lookup(desired, k) then Lookup(tags, k) else Lookup(desired, k)
    {
      SyncLookup(tags, plan, faults, k);
    }
    if forall k :: Lookup(after, k) == Lookup(desired, k) {
      SameLookups(after, desired);
    }
  }

  lemma SameLookups(a: map<string, string>, b: map<string, string>)
    requires forall k :: Lookup(a, k) == Lookup(b, k)
    ensures a == b
  {
    assert forall k :: k in a <==> Lookup(a, k).Some?;
    assert forall k :: k in b <==> Lookup(b, k).Some?;
  }

  /** The delta's comparison and the plan agree: lists of equal meaning are exactly those
      for which no call is made, provided `SyncTags` survives them. */
  lemma NoDifferenceNoCalls(desired: map<string, string>, existing: map<string, string>, faults: Faults)
    ensures desired == existing <==> SyncCalls(PlanFor(desired, existing), faults) == 0
    ensures desired == existing <==> PlanFor(desired, existing) == Plan(map[], {})
  {
    var plan := PlanFor(desired, existing);
    if plan.add == map[] && plan.delete == {} {
      forall k ensures Lookup(desired, k) == Lookup(existing, k) {
        assert k !in plan.add && k !in plan.delete;
      }
      SameLookups(desired, existing);
    }
  }

  /** What mirroring does to the plan: AWS's own tags are never deleted; one is added
      only if the user listed it and the resource lacks it; all else is planned as if
      nothing had been mirrored. */
  lemma MirrorSparesAws(desired: map<string, string>, existing: map<string, string>)
    ensures var plain, plan := PlanFor(desired, existing), PlanFor(Mirror(desired, existing), existing);
            && plan.delete == (set k | k in plain.delete && !IsAws(k))
            && plan.add == (map k | k in plain.add && (!IsAws(k) || k !in existing) :: plain.add[k])
  {
  }

  // Why the system tags must not be filtered between the read and the comparison.

  /** From the desired spec alone: every AWS-owned tag of the resource is to be deleted, so
      the sync fails and deletes nothing. */
  lemma FilterDesiredOnly(desired: map<string, string>, existing: map<string, string>, systemTags: seq<string>,
                          faults: Faults)
    ensures var plan := PlanFor(WithoutSystem(Mirror(desired, existing), systemTags), existing);
            && (set k | k in plan.delete && IsAws(k)) == AwsPart(existing).Keys
            && (AwsPart(existing) != map[] ==>
                  && SyncAnswer(plan, faults) == (if AddSucceeds(plan, faults) then Some(REFUSED)
                                                  else AddAnswer(plan, faults))
                  && AfterSync(existing, plan, faults) == AfterAdd(existing, plan, faults))
  {
    if AwsPart(existing) != map[] {
      var k :| k in AwsPart(existing);
      assert k in PlanFor(WithoutSystem(Mirror(desired, existing), systemTags), existing).delete;
    }
  }

  /** From the latest one alone: every such tag is to be added, so the sync fails and
      changes nothing. */
  lemma FilterLatestOnly(desired: map<string, string>, existing: map<string, string>, systemTags: seq<string>,
                         faults: Faults)
    ensures var plan := PlanFor(Mirror(desired, existing), WithoutSystem(existing, systemTags));
            && AwsPart(existing).Keys <= plan.add.Keys
            && (AwsPart(existing) != map[] ==>
                  SyncAnswer(plan, faults) == Some(REFUSED) && AfterSync(existing, plan, faults) == existing)
  {
    if AwsPart(existing) != map[] {
      var k :| k in AwsPart(existing);
      assert k in PlanFor(Mirror(desired, existing), WithoutSystem(existing, systemTags)).add;
    }
  }

  /** From both: the plan loses its system tags and is otherwise the same. */
  lemma FilterBoth(desired: map<string, string>, existing: map<string, string>, systemTags: seq<string>)
    ensures var plan := PlanFor(desired, existing);
            PlanFor(WithoutSystem(desired, systemTags), WithoutSystem(existing, systemTags))
            == Plan(WithoutSystem(plan.add, systemTags), set k | k in plan.delete && !IsSystem(k, systemTags))
  {
  }

  /** With nothing else to do and no tags of the controller's, exactly AWS's are to be deleted. */
  lemma FilterWhenConverged(desired: map<string, string>, existing: map<string, string>)
    requires existing == Mirror(desired, existing)
    ensures PlanFor(WithoutSystem(Mirror(desired, existing), []), existing) == Plan(map[], AwsPart(existing).Keys)
  {
  }

  /** Lists made by `fromACKTags` are always safe to synchronise. */
  lemma ArrangedIsNilSafe(a: seq<TagV>, b: seq<TagV>)
    requires Canonical(a) && Canonical(b)
    ensures NilSafe(a, b)
  {
    RawValues(a);
    RawValues(b);
  }

  lemma {:induction false} RawValues(ts: seq<TagV>)
    requires forall i :: 0 <= i < |ts| ==> Keyed(ts[i]) && ts[i].value.Some?
    ensures forall k :: k in RawMap(ts) ==> RawMap(ts)[k].Some?
  {
    if ts != [] {
      RawValues(ts[..|ts| - 1]);
    }
  }
}
