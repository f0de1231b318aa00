/** What any sequence of operations does to one resource: identity metadata, and the
    agreement of the three ways of observing a response. */
module Observation {
  import opened Wrappers
  import opened Errors
  import opened ApiTypes
  import opened Backend
  import opened Conditions
  import opened Identity
  import opened Sdk
  import opened Manager

  /** How an operation of a manager ends: a response was merged in (find, create, full
      update), nothing but the success was recorded (a tags-only update), or it failed. */
  datatype Event = Responded(rm: ResourceManager, g: SdkNetwork)
                 | Unchanged(rm: ResourceManager)
                 | Failed(rm: ResourceManager, error: Error)

  function Apply(v: NetworkV, e: Event): NetworkV {
    match e
    case Responded(rm, g) => Succeeded(rm, Observe(rm, v, g))
    case Unchanged(rm) => Succeeded(rm, v)
    case Failed(rm, error) => Recorded(rm, v, Some(error))
  }

  function Replay(v: NetworkV, events: seq<Event>): NetworkV {
    if events == [] then v else Apply(Replay(v, events[..|events| - 1]), events[|events| - 1])
  }

  /** The last ARN that a response reported; None if none did. */
  function LastARN(events: seq<Event>): Option<string> {
    if events == [] then None
    else
      var e := events[|events| - 1];
      if e.Responded? && e.g.arn.Some? then e.g.arn else LastARN(events[..|events| - 1])
  }

  function MetaV(v: NetworkV): MetaV {
    v.meta.GetOr(EMPTY_META)
  }

  ghost predicate Keeps(before: Option<string>, after: Option<string>) {
    before.Some? ==> after == before
  }

  /** What one operation does to the metadata. */
  lemma ApplyMeta(v: NetworkV, e: Event)
    ensures var m, after := MetaV(v), MetaV(Apply(v, e));
            && after.arn == (if e.Responded? && e.g.arn.Some? then e.g.arn else m.arn)
            && Keeps(m.owner, after.owner) && Keeps(m.region, after.region) && Keeps(m.partition, after.partition)
            && (!e.Unchanged? ==> after.owner == Default(m.owner, e.rm.awsAccountID)
                                  && after.region == Default(m.region, e.rm.awsRegion)
                                  && after.partition == Default(m.partition, e.rm.awsPartition))
  {
    hide Next, Tracked;
  }

  /** Identity metadata are stable over every sequence of operations, even by different
      managers: owner account, region and partition never change once set, they are set
      together, and the ARN is the last one reported -- never unset. */
  lemma {:induction false} IdentityIsStable(v: NetworkV, events: seq<Event>)
    ensures var before, after := MetaV(v), MetaV(Replay(v, events));
            && Keeps(before.owner, after.owner) && Keeps(before.region, after.region)
            && Keeps(before.partition, after.partition)
            && after.arn == (if LastARN(events).Some? then LastARN(events) else before.arn)
            && ((exists i :: 0 <= i < |events| && !events[i].Unchanged?) ==>
                  after.owner.Some? && after.region.Some? && after.partition.Some?)
  {
    hide Apply;
    if events != [] {
      var init := events[..|events| - 1];
      IdentityIsStable(v, init);
      ApplyMeta(Replay(v, init), events[|events| - 1]);
      if exists i :: 0 <= i < |events| && !events[i].Unchanged? {
        var i :| 0 <= i < |events| && !events[i].Unchanged?;
        assert i < |init| ==> init[i] == events[i];
      }
    }
  }

  /** A manager other than the first cannot take a resource over. */
  lemma FirstManagerOwns(v: NetworkV, first: Event, rest: seq<Event>)
    requires MetaV(v).owner.None? && MetaV(v).region.None? && MetaV(v).partition.None? && !first.Unchanged?
    ensures var m := MetaV(Replay(Apply(v, first), rest));
            && m.owner == Some(first.rm.awsAccountID) && m.region == Some(first.rm.awsRegion)
            && m.partition == Some(first.rm.awsPartition)
  {
    ApplyMeta(v, first);
    IdentityIsStable(Apply(v, first), rest);
  }

  lemma {:induction false} ClearTwice(cs: seq<CondV>)
    ensures Next(Next(cs, None), None) == Next(cs, None)
    ensures Tracked(Next(cs, None), None) == Tracked(cs, None)
  {
    hide LastOf, Shadowed;
    var once := Clear(cs, ConditionType.Terminal);
    ClearMeaning(cs, ConditionType.Terminal, Recoverable);
    ClearMeaning(cs, ConditionType.Terminal, ResourceSynced);
    ClearMeaning(once, Recoverable, ConditionType.Terminal);
    ClearMeaning(once, Recoverable, ResourceSynced);
    StepLast(cs, None);
    var next := Next(cs, None);
    var t, r := LastOf(cs, ConditionType.Terminal), LastOf(cs, Recoverable);
    assert t >= 0 ==> next[t].status == False && next[t].message == None;
    assert r >= 0 ==> next[r].status == False && next[r].message == None;
    assert Clear(next, ConditionType.Terminal) == next;
    assert Clear(next, Recoverable) == next;
  }

  /** A find that reports what a create, an update or an earlier find reported leaves the
      resource exactly as it was, whichever manager makes it. */
  lemma FindAfterResponseIsFixed(rm: ResourceManager, other: ResourceManager, v: NetworkV, g: SdkNetwork)
    ensures Apply(Apply(v, Responded(rm, g)), Responded(other, g)) == Apply(v, Responded(rm, g))
  {
    ClearTwice(Slice(v.conditions));
  }
}
