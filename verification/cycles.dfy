/** Whole reconciliations: read, compare, update, over and over, against a service whose
    every call may fail. The driver is the ACK runtime, which is not part of this model;
    its cycle is taken to be ReadOne, newResourceDelta, Update. */
module Cycles {
  import opened Wrappers
  import opened Errors
  import opened TagLists
  import opened TagRules
  import opened ApiTypes
  import opened Backend
  import opened TagSync
  import opened Deltas
  import opened Conditions
  import opened Sdk

  // ---- One cycle ----

  /** What the comparison of a cycle reports once AWS's tags have been mirrored. */
  function Paths(desired: Store, b: Store): seq<FieldPath> {
    Differences(desired.description, Mirror(desired.tags, b.tags), b.description, b.tags)
  }

  function CyclePlan(desired: Store, b: Store): Plan {
    PlanFor(Mirror(desired.tags, b.tags), b.tags)
  }

  /** The service after one cycle. */
  function Cycle(desired: Store, b: Store, faults: Faults): Store {
    if faults.describe.Some? then b
    else AfterUpdateCalls(b, CyclePlan(desired, b), Paths(desired, b), desired.description, faults)
  }

  /** The error a cycle ends with: that of the read, or of the first call that fails. */
  function CycleAnswer(desired: Store, b: Store, faults: Faults): Option<Error> {
    if faults.describe.Some? then Some(ReadError(faults.describe.value))
    else UpdateOutcome(CyclePlan(desired, b), Paths(desired, b), faults)
  }

  function CycleCalls(desired: Store, b: Store, faults: Faults): nat {
    if faults.describe.Some? then 0 else UpdateCalls(CyclePlan(desired, b), Paths(desired, b), faults)
  }

  /** Whose error a cycle ends with, in terms of the spec, the service and the faults: the
      first call that is needed and fails, each made only if those before it succeeded. */
  lemma CycleErrorIs(desired: Store, b: Store, faults: Faults)
    ensures CycleAnswer(desired, b, faults)
            == if faults.describe.Some? then
                 var e := faults.describe.value;
                 if e.api.Some? && e.api.value.code == "ResourceNotFoundException" then Some(NOT_FOUND) else Some(e)
               else if exists k :: k in desired.tags && "aws:" <= k && k !in b.tags then Some(REFUSED)
               else if faults.tag.Failing?
                       && exists k :: k in desired.tags && !("aws:" <= k)
                                      && (k !in b.tags || b.tags[k] != desired.tags[k])
               then Some(faults.tag.error)
               else if faults.untag.Failing?
                       && exists k :: k in b.tags && !("aws:" <= k) && k !in desired.tags
               then Some(faults.untag.error)
               else if faults.update.UpdateFailing? && desired.description != b.description
               then Some(faults.update.error)
               else None
  {
    var plan, paths := CyclePlan(desired, b), Paths(desired, b);
    hide CyclePlan, Paths, UpdateOutcome;
    PlanByKey(desired, b);
    PathsAre(desired, b);
    UpdateErrorIs(plan, paths, faults);
  }

  lemma PathsAre(desired: Store, b: Store)
    ensures var plan, paths := CyclePlan(desired, b), Paths(desired, b);
            && (SpecTags in paths <==> (exists k :: k in plan.add) || exists k :: k in plan.delete)
            && ((exists p :: p in paths && p != SpecTags) <==> desired.description != b.description)
  {
    NoDifferenceNoCalls(Mirror(desired.tags, b.tags), b.tags, Faults(None, NoFault, NoFault, NoUpdateFault));
    hide Mirror, PlanFor;
    if desired.description != b.description {
      assert Paths(desired, b)[0] == SpecDescription;
      assert SpecDescription in Paths(desired, b);
    }
  }

  /** What a cycle has to add and to delete. */
  lemma PlanByKey(desired: Store, b: Store)
    ensures forall k :: k in CyclePlan(desired, b).add
                        <==> k in desired.tags && (k !in b.tags || (!("aws:" <= k) && b.tags[k] != desired.tags[k]))
    ensures forall k :: k in CyclePlan(desired, b).delete
                        <==> k in b.tags && !("aws:" <= k) && k !in desired.tags
  {
  }

  // ---- Distance ----

  /** The tag keys on which the service and the mirrored spec disagree. */
  function Disagreement(desired: Store, b: Store): set<string> {
    var want := Mirror(desired.tags, b.tags);
    set k | k in want.Keys + b.tags.Keys && Lookup(want, k) != Lookup(b.tags, k)
  }

  function Distance(desired: Store, b: Store): nat {
    |Disagreement(desired, b)| + if desired.description != b.description then 1 else 0
  }

  /** The spec names an AWS-owned tag that the resource lacks. */
  predicate LacksAws(desired: Store, b: Store) {
    exists k :: k in desired.tags && IsAws(k) && k !in b.tags
  }

  /** The spec has no description but the network does: a nil one is never sent. */
  predicate KeepsDescription(desired: Store, b: Store) {
    desired.description.None? && b.description.Some?
  }

  predicate Reconcilable(desired: Store, b: Store) {
    !LacksAws(desired, b) && !KeepsDescription(desired, b)
  }

  predicate FaultFree(faults: Faults) {
    faults.describe.None? && faults.tag.NoFault? && faults.untag.NoFault? && faults.update.NoUpdateFault?
  }

  /** Distance zero is being in the desired state. */
  lemma ZeroDistance(desired: Store, b: Store)
    ensures Distance(desired, b) == 0 <==> b == Store(Mirror(desired.tags, b.tags), desired.description)
    ensures Distance(desired, b) == 0 ==> Reconcilable(desired, b)
  {
    var want := Mirror(desired.tags, b.tags);
    if Disagreement(desired, b) == {} {
      forall k ensures Lookup(want, k) == Lookup(b.tags, k) {
        assert k !in Disagreement(desired, b);
      }
      SameLookups(want, b.tags);
    } else {
      var k :| k in Disagreement(desired, b);
      assert want != b.tags;
    }
  }

  // ---- Steps towards the desired state ----

  /** `s` lies between `b` and the desired state: each key and the description are bound
      as in one of the two, and AWS's own tags as in `b`. */
  ghost predicate OnTheWay(desired: Store, b: Store, s: Store) {
    && (forall k :: Lookup(s.tags, k) in {Lookup(b.tags, k), Lookup(Mirror(desired.tags, b.tags), k)})
    && (forall k :: IsAws(k) ==> Lookup(s.tags, k) == Lookup(b.tags, k))
    && s.description in {b.description, desired.description}
  }

  function Changed(a: Store, b: Store): nat {
    if a == b then 0 else 1
  }

  lemma OnTheWaySparesAws(desired: Store, b: Store, s: Store)
    requires OnTheWay(desired, b, s)
    ensures AwsPart(s.tags) == AwsPart(b.tags) && Mirror(desired.tags, s.tags) == Mirror(desired.tags, b.tags)
  {
    forall k ensures Lookup(AwsPart(s.tags), k) == Lookup(AwsPart(b.tags), k) {
      assert k in s.tags <==> Lookup(s.tags, k).Some?;
      assert k in b.tags <==> Lookup(b.tags, k).Some?;
    }
    SameLookups(AwsPart(s.tags), AwsPart(b.tags));
  }

  /** A step that changes anything is paid for by a unit of distance. */
  lemma StepApproaches(desired: Store, b: Store, s: Store)
    requires OnTheWay(desired, b, s)
    ensures Distance(desired, s) + Changed(b, s) <= Distance(desired, b)
  {
    OnTheWaySparesAws(desired, b, s);
    var before, now := Disagreement(desired, b), Disagreement(desired, s);
    forall k | k in now ensures k in before {
      assert k in b.tags <==> Lookup(b.tags, k).Some?;
    }
    SubsetSize(now, before);
    if s.tags != b.tags {
      if forall k :: Lookup(s.tags, k) == Lookup(b.tags, k) {
        SameLookups(s.tags, b.tags);
      }
      var k :| Lookup(s.tags, k) != Lookup(b.tags, k);
      assert k in before && k !in now;
    }
  }

  /** The service after the first tag call of a cycle, and after the second; a call that is
      not made changes nothing. */
  function Tagged(desired: Store, b: Store, faults: Faults): Store {
    if faults.describe.None? && SpecTags in Paths(desired, b)
    then b.(tags := AfterAdd(b.tags, CyclePlan(desired, b), faults)) else b
  }

  function Untagged(desired: Store, b: Store, faults: Faults): Store {
    if faults.describe.None? && SpecTags in Paths(desired, b)
    then b.(tags := AfterSync(b.tags, CyclePlan(desired, b), faults)) else b
  }

  /** How many of the at most three calls of a cycle took effect. */
  function EffectiveCalls(desired: Store, b: Store, faults: Faults): nat {
    var s1, s2 := Tagged(desired, b, faults), Untagged(desired, b, faults);
    Changed(b, s1) + Changed(s1, s2) + Changed(s2, Cycle(desired, b, faults))
  }

  lemma PlanLookup(desired: Store, b: Store, k: string)
    ensures var plan, want := CyclePlan(desired, b), Mirror(desired.tags, b.tags);
            && (k in plan.add ==> k !in plan.delete && Lookup(want, k) == Some(plan.add[k]) != Lookup(b.tags, k))
            && (k in plan.delete ==> Lookup(want, k) == None != Lookup(b.tags, k) && !IsAws(k))
            && (k in plan.add && IsAws(k) ==> NamesAws(plan.add.Keys))
  {
  }

  /** Each call of a cycle is a step towards the desired state. */
  lemma CallsAreSteps(desired: Store, b: Store, faults: Faults)
    ensures var s1, s2 := Tagged(desired, b, faults), Untagged(desired, b, faults);
            && OnTheWay(desired, b, s1) && OnTheWay(desired, s1, s2)
            && OnTheWay(desired, s2, Cycle(desired, b, faults))
  {
    hide AfterAdd, AfterSync, Mirror, PlanFor;
    var plan, s1, s2 := CyclePlan(desired, b), Tagged(desired, b, faults), Untagged(desired, b, faults);
    forall k
      ensures Lookup(s1.tags, k) in {Lookup(b.tags, k), Lookup(Mirror(desired.tags, b.tags), k)}
      ensures Lookup(s2.tags, k) in {Lookup(s1.tags, k), Lookup(Mirror(desired.tags, b.tags), k)}
      ensures IsAws(k) ==> Lookup(s1.tags, k) == Lookup(b.tags, k) == Lookup(s2.tags, k)
    {
      PlanLookup(desired, b, k);
      AddLookup(b.tags, plan, faults, k);
      UntagLookup(b.tags, plan, faults, k);
    }
    OnTheWaySparesAws(desired, b, s1);
  }

  /** Whatever fails and however partially, every call that takes effect brings the service
      closer by at least one unit, at each point of the cycle. */
  lemma CycleApproaches(desired: Store, b: Store, faults: Faults)
    ensures var s1, s2, after := Tagged(desired, b, faults), Untagged(desired, b, faults), Cycle(desired, b, faults);
            && Distance(desired, s1) + Changed(b, s1) <= Distance(desired, b)
            && Distance(desired, s2) + Changed(s1, s2) <= Distance(desired, s1)
            && Distance(desired, after) + Changed(s2, after) <= Distance(desired, s2)
            && Distance(desired, after) + EffectiveCalls(desired, b, faults) <= Distance(desired, b)
            && (after == b <==> EffectiveCalls(desired, b, faults) == 0)
  {
    var s1, s2, after := Tagged(desired, b, faults), Untagged(desired, b, faults), Cycle(desired, b, faults);
    CallsAreSteps(desired, b, faults);
    StepApproaches(desired, b, s1);
    StepApproaches(desired, s1, s2);
    StepApproaches(desired, s2, after);
  }

  /** The keys of a tag call on which it takes effect. */
  function Affected(keys: set<string>, fault: TagFault): set<string> {
    if NamesAws(keys) then {} else if fault.NoFault? then keys else keys * fault.applied
  }

  /** Which calls are effective: the tag calls on at least one key, and the update of the
      description unless the one desired is nil -- each only if what comes before it succeeded. */
  lemma EffectiveCallsAre(desired: Store, b: Store, faults: Faults)
    requires faults.describe.None?
    ensures var plan, s1, s2 := CyclePlan(desired, b), Tagged(desired, b, faults), Untagged(desired, b, faults);
            && (s1 != b <==> Affected(plan.add.Keys, faults.tag) != {})
            && (s2 != s1 <==> AddSucceeds(plan, faults) && Affected(plan.delete, faults.untag) != {})
            && (Cycle(desired, b, faults) != s2 <==>
                  && SyncSucceeds(plan, faults) && desired.description.Some? && desired.description != b.description
                  && (faults.update.NoUpdateFault? || faults.update.applied))
    ensures EffectiveCalls(desired, b, faults) <= CycleCalls(desired, b, faults)
  {
    hide CyclePlan, Paths, Tagged, Untagged, Cycle, Affected, AddSucceeds, SyncSucceeds;
    TagCallsAre(desired, b, faults);
    UpdateCallIs(desired, b, faults);
  }

  lemma TagCallsAre(desired: Store, b: Store, faults: Faults)
    requires faults.describe.None?
    ensures var plan, s1, s2 := CyclePlan(desired, b), Tagged(desired, b, faults), Untagged(desired, b, faults);
            && (s1 != b <==> Affected(plan.add.Keys, faults.tag) != {})
            && (s2 != s1 <==> AddSucceeds(plan, faults) && Affected(plan.delete, faults.untag) != {})
            && Changed(b, s1) + Changed(s1, s2) <= SyncCalls(plan, faults)
  {
    var plan, s1 := CyclePlan(desired, b), Tagged(desired, b, faults);
    NoDifferenceNoCalls(Mirror(desired.tags, b.tags), b.tags, faults);
    TagTakesEffect(b.tags, plan.add, faults.tag);
    assert forall k :: k in plan.delete ==> k in s1.tags;
    UntagTakesEffect(s1.tags, plan.delete, faults.untag);
  }

  lemma UpdateCallIs(desired: Store, b: Store, faults: Faults)
    requires faults.describe.None?
    ensures var plan := CyclePlan(desired, b);
            && (Cycle(desired, b, faults) != Untagged(desired, b, faults) <==>
                  && SyncSucceeds(plan, faults) && desired.description.Some? && desired.description != b.description
                  && (faults.update.NoUpdateFault? || faults.update.applied))
            && CycleCalls(desired, b, faults)
               == SyncCalls(plan, faults)
                  + if SyncSucceeds(plan, faults) && desired.description != b.description then 1 else 0
  {
    NoDifferenceNoCalls(Mirror(desired.tags, b.tags), b.tags, faults);
    hide PlanFor, Mirror, AfterTag, AfterUntag, TagAnswer, AfterSync;
    assert desired.description != b.description <==> SpecDescription in Paths(desired, b) by {
      if desired.description != b.description {
        assert Paths(desired, b)[0] == SpecDescription;
      }
    }
  }

  lemma TagTakesEffect(tags: map<string, string>, add: map<string, string>, fault: TagFault)
    requires forall k :: k in add ==> k !in tags || tags[k] != add[k]
    ensures AfterTag(tags, add, fault) != tags <==> Affected(add.Keys, fault) != {}
  {
    var after := AfterTag(tags, add, fault);
    if k :| k in Affected(add.Keys, fault) {
      assert k in after && after[k] == add[k];
    } else {
      assert forall k :: k in add ==> k !in Affected(add.Keys, fault);
      assert after == tags;
    }
  }

  lemma UntagTakesEffect(tags: map<string, string>, keys: set<string>, fault: TagFault)
    requires keys <= tags.Keys
    ensures AfterUntag(tags, keys, fault) != tags <==> Affected(keys, fault) != {}
  {
    if k :| k in Affected(keys, fault) {
      assert k !in AfterUntag(tags, keys, fault);
    } else {
      assert forall k :: k in keys ==> k !in Affected(keys, fault);
      assert AfterUntag(tags, keys, fault) == tags;
    }
  }

  lemma AwsTagsUntouched(desired: Store, b: Store, faults: Faults)
    ensures AwsPart(Cycle(desired, b, faults).tags) == AwsPart(b.tags)
    ensures Mirror(desired.tags, Cycle(desired, b, faults).tags) == Mirror(desired.tags, b.tags)
  {
    CallsAreSteps(desired, b, faults);
    OnTheWaySparesAws(desired, b, Tagged(desired, b, faults));
    OnTheWaySparesAws(desired, Tagged(desired, b, faults), Untagged(desired, b, faults));
    OnTheWaySparesAws(desired, Untagged(desired, b, faults), Cycle(desired, b, faults));
  }

  lemma ReconcilableStays(desired: Store, b: Store, faults: Faults)
    ensures LacksAws(desired, Cycle(desired, b, faults)) <==> LacksAws(desired, b)
    ensures KeepsDescription(desired, Cycle(desired, b, faults)) <==> KeepsDescription(desired, b)
  {
    var after := Cycle(desired, b, faults);
    AwsTagsUntouched(desired, b, faults);
    forall k | IsAws(k) ensures k in after.tags <==> k in b.tags {
      assert k in after.tags <==> k in AwsPart(after.tags);
      assert k in b.tags <==> k in AwsPart(b.tags);
    }
  }

  /** With an AWS-owned tag in the spec that the resource lacks, no cycle gets past the
      first call: it is refused whole, whatever else the environment does. */
  lemma RefusedCycle(desired: Store, b: Store, faults: Faults)
    requires LacksAws(desired, b) && faults.describe.None?
    ensures Cycle(desired, b, faults) == b && CycleCalls(desired, b, faults) == 1
    ensures CycleAnswer(desired, b, faults) == Some(REFUSED) && IsTerminal(Some(REFUSED))
  {
    var k :| k in desired.tags && IsAws(k) && k !in b.tags;
    assert k in CyclePlan(desired, b).add;
    NoDifferenceNoCalls(Mirror(desired.tags, b.tags), b.tags, faults);
  }

  /** One fault-free cycle, from any state: it reaches the desired state exactly from the
      reconcilable ones. */
  lemma CleanCycle(desired: Store, b: Store, faults: Faults)
    requires FaultFree(faults)
    ensures Cycle(desired, b, faults) ==
            if LacksAws(desired, b) then b
            else Store(Mirror(desired.tags, b.tags),
                       if KeepsDescription(desired, b) then b.description else desired.description)
    ensures CycleAnswer(desired, b, faults) == if LacksAws(desired, b) then Some(REFUSED) else None
    ensures Distance(desired, Cycle(desired, b, faults)) == 0 <==> Reconcilable(desired, b)
  {
    hide Cycle, CycleAnswer, Mirror, LacksAws, AwsPart, Distance;
    if LacksAws(desired, b) {
      RefusedCycle(desired, b, faults);
      ZeroDistance(desired, b);
    } else {
      CleanState(desired, b, faults);
      AwsTagsUntouched(desired, b, faults);
      ReconcilableStays(desired, b, faults);
      ZeroDistance(desired, Cycle(desired, b, faults));
    }
  }

  lemma CleanState(desired: Store, b: Store, faults: Faults)
    requires FaultFree(faults) && !LacksAws(desired, b)
    ensures Cycle(desired, b, faults)
            == Store(Mirror(desired.tags, b.tags),
                     if KeepsDescription(desired, b) then b.description else desired.description)
    ensures CycleAnswer(desired, b, faults) == None
  {
    hide LacksAws, AfterSync, SyncAnswer, Mirror, PlanFor;
    CleanSync(desired, b, faults);
    if desired.description != b.description {
      assert Paths(desired, b)[0] == SpecDescription;
      assert SpecDescription in Paths(desired, b);
    }
  }

  lemma CleanSync(desired: Store, b: Store, faults: Faults)
    requires FaultFree(faults) && !LacksAws(desired, b)
    ensures var plan := CyclePlan(desired, b);
            SyncSucceeds(plan, faults) && AfterSync(b.tags, plan, faults) == Mirror(desired.tags, b.tags)
  {
    var plan := CyclePlan(desired, b);
    MirrorSparesAws(desired.tags, b.tags);
    assert !NamesAws(plan.add.Keys) && !NamesAws(plan.delete);
    SyncIsExact(b.tags, Mirror(desired.tags, b.tags), b.tags, faults);
  }

  /** The zero-delta state is the no-call state: a cycle that can read makes no changing
      call iff there is nothing left to change. */
  lemma QuietIffConverged(desired: Store, b: Store, faults: Faults)
    requires faults.describe.None?
    ensures CycleCalls(desired, b, faults) == 0 <==> Distance(desired, b) == 0
    ensures Paths(desired, b) == [] <==> Distance(desired, b) == 0
  {
    ZeroDistance(desired, b);
    NoDifferenceNoCalls(Mirror(desired.tags, b.tags), b.tags, faults);
    if Paths(desired, b) != [] && SpecTags !in Paths(desired, b) {
      assert SpecDescription in Paths(desired, b);
    }
  }

  // ---- States that no cycle changes ----

  /** There is nothing to do, or nothing that can be done. */
  predicate Stuck(desired: Store, b: Store) {
    || Distance(desired, b) == 0
    || LacksAws(desired, b)
    || (KeepsDescription(desired, b) && b.tags == Mirror(desired.tags, b.tags))
  }

  lemma StuckExactly(desired: Store, b: Store)
    ensures Stuck(desired, b) <==> forall faults :: Cycle(desired, b, faults) == b
  {
    if Stuck(desired, b) {
      forall faults ensures Cycle(desired, b, faults) == b {
        StuckCycle(desired, b, faults);
      }
    } else {
      var clean := Faults(None, NoFault, NoFault, NoUpdateFault);
      ZeroDistance(desired, b);
      CleanCycle(desired, b, clean);
      assert Cycle(desired, b, clean) != b;
    }
  }

  /** A stuck cycle that can read ends without a call only in the desired state. Otherwise
      it makes one call in vain: a refused one, or an update that sends no description and
      whose success is taken for the cycle's. */
  lemma StuckCycle(desired: Store, b: Store, faults: Faults)
    requires Stuck(desired, b)
    ensures Cycle(desired, b, faults) == b
    ensures faults.describe.None? ==>
              && CycleCalls(desired, b, faults) == (if Distance(desired, b) == 0 then 0 else 1)
              && CycleAnswer(desired, b, faults) == if Distance(desired, b) == 0 then None
                                                    else if LacksAws(desired, b) then Some(REFUSED)
                                                    else UpdateAnswer(faults.update)
  {
    ZeroDistance(desired, b);
    if LacksAws(desired, b) && faults.describe.None? {
      RefusedCycle(desired, b, faults);
    } else if faults.describe.None? {
      QuietIffConverged(desired, b, faults);
      assert SpecTags !in Paths(desired, b);
      if Distance(desired, b) != 0 {
        assert Paths(desired, b) == [SpecDescription];
        assert SpecDescription in Paths(desired, b);
      }
    }
  }

  /** Two states that no run leaves and none of whose runs is quiet: the user removed the
      description, and the user asked for an AWS-owned tag. */
  lemma StuckExamples()
    ensures var b, described := Store(map[], None), Store(map[], Some("d"));
            && Stuck(b, described) && !Reconcilable(b, described) && KeepsDescription(b, described)
            && Stuck(Store(map["aws:x" := "1"], None), b) && !Reconcilable(Store(map["aws:x" := "1"], None), b)
  {
    assert IsAws("aws:x");
    assert "aws:x" in map["aws:x" := "1"];
  }

  // ---- Runs ----

  /** The service after a run of cycles, one for each entry of the environment's schedule. */
  function Run(desired: Store, b: Store, schedule: seq<Faults>): Store {
    if schedule == [] then b
    else Cycle(desired, Run(desired, b, schedule[..|schedule| - 1]), schedule[|schedule| - 1])
  }

  /** The changing calls of a run. */
  function RunCalls(desired: Store, b: Store, schedule: seq<Faults>): nat {
    if schedule == [] then 0
    else
      var init, last := schedule[..|schedule| - 1], schedule[|schedule| - 1];
      RunCalls(desired, b, init) + CycleCalls(desired, Run(desired, b, init), last)
  }

  /** Those among them that took effect. */
  function EffectiveRunCalls(desired: Store, b: Store, schedule: seq<Faults>): nat {
    if schedule == [] then 0
    else
      var init, last := schedule[..|schedule| - 1], schedule[|schedule| - 1];
      EffectiveRunCalls(desired, b, init) + EffectiveCalls(desired, Run(desired, b, init), last)
  }

  /** Over every run each effective call is paid for by a unit of distance, and AWS's own
      tags stay as they were. */
  lemma {:induction false} RunApproaches(desired: Store, b: Store, schedule: seq<Faults>)
    ensures Distance(desired, Run(desired, b, schedule)) + EffectiveRunCalls(desired, b, schedule)
            <= Distance(desired, b)
    ensures Reconcilable(desired, Run(desired, b, schedule)) <==> Reconcilable(desired, b)
    ensures AwsPart(Run(desired, b, schedule).tags) == AwsPart(b.tags)
  {
    hide Distance, Cycle, EffectiveCalls, AwsPart;
    if schedule != [] {
      var init, last := schedule[..|schedule| - 1], schedule[|schedule| - 1];
      var mid := Run(desired, b, init);
      RunApproaches(desired, b, init);
      CycleApproaches(desired, mid, last);
      ReconcilableStays(desired, mid, last);
      AwsTagsUntouched(desired, mid, last);
    }
  }

  /** Convergence under faults. A run with a single fault-free cycle in it ends in the
      desired state exactly if it began in a reconcilable one; from any other state no run
      ever gets there. */
  lemma {:induction false} Convergence(desired: Store, b: Store, schedule: seq<Faults>)
    ensures (exists i :: 0 <= i < |schedule| && FaultFree(schedule[i])) ==>
              (Distance(desired, Run(desired, b, schedule)) == 0 <==> Reconcilable(desired, b))
    ensures Distance(desired, Run(desired, b, schedule)) == 0 ==> Reconcilable(desired, b)
  {
    hide Distance, Cycle, EffectiveCalls;
    RunApproaches(desired, b, schedule);
    ZeroDistance(desired, Run(desired, b, schedule));
    if schedule != [] && exists i :: 0 <= i < |schedule| && FaultFree(schedule[i]) {
      var init, last := schedule[..|schedule| - 1], schedule[|schedule| - 1];
      var mid := Run(desired, b, init);
      RunApproaches(desired, b, init);
      if FaultFree(last) {
        CleanCycle(desired, mid, last);
      } else {
        var i :| 0 <= i < |schedule| && FaultFree(schedule[i]);
        assert init[i] == schedule[i];
        Convergence(desired, b, init);
        CycleApproaches(desired, mid, last);
      }
    }
  }

  /** The cycles of a schedule that can read. */
  function Readable(schedule: seq<Faults>): nat {
    if schedule == [] then 0
    else Readable(schedule[..|schedule| - 1]) + if schedule[|schedule| - 1].describe.None? then 1 else 0
  }

  /** From a stuck state a run goes nowhere: in the desired state it makes no call at all,
      in any other one for every cycle that can read, for ever. */
  lemma {:induction false} StuckForever(desired: Store, b: Store, schedule: seq<Faults>)
    requires Stuck(desired, b)
    ensures Run(desired, b, schedule) == b
    ensures RunCalls(desired, b, schedule) == if Distance(desired, b) == 0 then 0 else Readable(schedule)
  {
    hide Distance, Cycle, Stuck;
    if schedule != [] {
      var init, last := schedule[..|schedule| - 1], schedule[|schedule| - 1];
      StuckForever(desired, b, init);
      StuckCycle(desired, b, last);
    }
  }

  /** A cycle sees the spec only through the mirrored map and the description, so it does
      not matter that the spec passed in keeps what was mirrored into it earlier. */
  lemma MirroredSpecCyclesAlike(desired: Store, again: Store, b: Store, faults: Faults)
    requires again.description == desired.description
    requires again.tags == desired.tags
             || exists l :: again.tags == Mirror(desired.tags, l) && AwsPart(l) == AwsPart(b.tags)
    ensures Mirror(again.tags, b.tags) == Mirror(desired.tags, b.tags)
    ensures Cycle(again, b, faults) == Cycle(desired, b, faults)
    ensures CycleCalls(again, b, faults) == CycleCalls(desired, b, faults)
    ensures CycleAnswer(again, b, faults) == CycleAnswer(desired, b, faults)
  {
  }

  // ---- The conditions a cycle leaves ----

  /** The outcomes that a cycle records in what it answers: an update that fails does so in
      the answer of the read. */
  function Outcomes(desired: Store, b: Store, faults: Faults): seq<Option<Error>> {
    var answer := CycleAnswer(desired, b, faults);
    if faults.describe.None? && answer.Some? then [None, answer] else [answer]
  }

  /** What the runtime is told. */
  function Told(cs: seq<CondV>, answer: Option<Error>): Option<Error> {
    if answer.Some? && (IsTerminal(answer) || Shadowed(cs, ConditionType.Terminal)) then Some(TERMINAL) else answer
  }

  /** An error is reported alike whether or not a success was recorded before it. */
  lemma ToldIsReported(cs: seq<CondV>, answer: Option<Error>)
    ensures answer.None? ==> Told(cs, answer) == None
    ensures answer.Some? ==> Told(cs, answer) == Some(Reported(cs, answer.value))
                             && Reported(Next(cs, None), answer.value) == Reported(cs, answer.value)
  {
    if answer.Some? {
      StepMeaning(cs, None);
      StepMeaning(cs, answer);
      StepMeaning(Next(cs, None), answer);
      TrueIsShadowedOrEffective(Next(cs, answer), ConditionType.Terminal);
      TrueIsShadowedOrEffective(Next(Next(cs, None), answer), ConditionType.Terminal);
    }
  }

  lemma AfterShort(cs: seq<CondV>, a: Option<Error>, b: Option<Error>)
    ensures After(cs, [a]) == Next(cs, a) && After(cs, [a, b]) == Next(Next(cs, a), b)
  {
    hide Next;
    assert [a][..0] == [] && [a, b][..1] == [a];
  }

  /** A cycle in terms of its two halves. */
  lemma CycleHalves(cs: seq<CondV>, desired: Store, b: Store, faults: Faults)
    ensures var told, after := Told(cs, CycleAnswer(desired, b, faults)), After(cs, Outcomes(desired, b, faults));
            match faults.describe
            case Some(e) =>
              && Cycle(desired, b, faults) == b && CycleCalls(desired, b, faults) == 0
              && told == Some(Reported(cs, ReadError(e))) && after == Next(cs, Some(ReadError(e)))
            case None =>
              var want, read := Mirror(desired.tags, b.tags), Next(cs, None);
              var plan, paths := PlanFor(want, b.tags), Differences(desired.description, want, b.description, b.tags);
              var answer := UpdateOutcome(plan, paths, faults);
              && Cycle(desired, b, faults) == AfterUpdateCalls(b, plan, paths, desired.description, faults)
              && CycleCalls(desired, b, faults) == UpdateCalls(plan, paths, faults)
              && told == (if answer.None? then None else Some(Reported(read, answer.value)))
              && after == if answer.None? then read else Next(read, answer)
  {
    var answer := CycleAnswer(desired, b, faults);
    AfterShort(cs, answer, None);
    AfterShort(cs, None, answer);
    ToldIsReported(cs, answer);
  }

  /** The conditions a cycle leaves behind say how it ended, whatever they said before and
      whatever the environment did: Terminal iff its answer is a terminal error or a hidden
      entry was True; Recoverable iff it ended in any other error or a hidden entry was
      True, except that a terminal failure to read leaves it as it was. */
  lemma CycleConditions(cs: seq<CondV>, desired: Store, b: Store, faults: Faults)
    ensures var after, answer := After(cs, Outcomes(desired, b, faults)), CycleAnswer(desired, b, faults);
            && (HasTrue(after, ConditionType.Terminal) <==> IsTerminal(answer) || Shadowed(cs, ConditionType.Terminal))
            && (HasTrue(after, Recoverable) <==>
                  || Shadowed(cs, Recoverable)
                  || (answer.Some? && !IsTerminal(answer))
                  || (faults.describe.Some? && IsTerminal(answer) && Effective(cs, Recoverable)))
  {
    hide Effective, Shadowed, HasTrue, CycleAnswer, After;
    var outcomes := Outcomes(desired, b, faults);
    ConditionsAreHistory(cs, outcomes);
  }
}
