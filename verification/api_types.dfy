/** The `GlobalNetwork` custom resource (apis/v1alpha1): a graph of heap objects, the
    value each object stands for, and the generated deep copy. */
module ApiTypes {
  import opened Wrappers
  import opened TagLists

  datatype ConditionType = Terminal | Recoverable | ResourceSynced | OtherType(name: string)

  datatype ConditionStatus = Unset | True | False | Unknown

  // ---- Values ----

  datatype CondV = NilCond
                 | Cond(ctype: ConditionType, status: ConditionStatus, message: Option<string>,
                        reason: Option<string>, lastTransition: Option<int>)

  datatype MetaV = Meta(arn: Option<string>, owner: Option<string>, region: Option<string>, partition: Option<string>)

  datatype NetworkV = Network(objectMeta: string, description: Option<string>, tags: Option<seq<TagV>>,
                              meta: Option<MetaV>, conditions: Option<seq<CondV>>, createdAt: Option<int>,
                              id: Option<string>, state: Option<string>)

  // ---- Objects ----

  class Tag {
    var key: Option<string>
    var value: Option<string>

    constructor (key: Option<string>, value: Option<string>)
      ensures this.key == key && this.value == value
    {
      this.key, this.value := key, value;
    }

    method DeepCopy() returns (out: Tag)
      ensures fresh(out) && out.key == key && out.value == value
    {
      out := new Tag(key, value);
    }
  }

  class Condition {
    var ctype: ConditionType
    var status: ConditionStatus
    var message: Option<string>
    var reason: Option<string>
    var lastTransition: Option<int>

    constructor (ctype: ConditionType)
      ensures CondOf(this) == Cond(ctype, Unset, None, None, None)
    {
      this.ctype, status, message, reason, lastTransition := ctype, Unset, None, None, None;
    }

    method DeepCopy() returns (out: Condition)
      ensures fresh(out) && CondOf(out) == CondOf(this)
      ensures out.ctype == ctype && out.status == status && out.message == message
      ensures out.reason == reason && out.lastTransition == lastTransition
    {
      out := new Condition(ctype);
      out.status, out.message, out.reason, out.lastTransition := status, message, reason, lastTransition;
    }
  }

  class ResourceMetadata {
    var arn: Option<string>
    var ownerAccountID: Option<string>
    var region: Option<string>
    var partition: Option<string>

    constructor ()
      ensures MetaOf(this) == Some(Meta(None, None, None, None))
    {
      arn, ownerAccountID, region, partition := None, None, None, None;
    }

    method DeepCopy() returns (out: ResourceMetadata)
      ensures fresh(out) && MetaOf(out) == MetaOf(this)
      ensures out.arn == arn && out.ownerAccountID == ownerAccountID
      ensures out.region == region && out.partition == partition
    {
      out := new ResourceMetadata();
      out.arn, out.ownerAccountID, out.region, out.partition := arn, ownerAccountID, region, partition;
    }
  }

  // ---- What objects stand for ----

  function TagOf(t: Tag?): TagV
    reads t
  {
    if t == null then NilTag else TagV.Tag(t.key, t.value)
  }

  function TagsOf(ts: seq<Tag?>): (vs: seq<TagV>)
    reads ts
    ensures |vs| == |ts| && forall i :: 0 <= i < |ts| ==> vs[i] == TagOf(ts[i])
  {
    seq(|ts|, i requires 0 <= i < |ts| reads ts => TagOf(ts[i]))
  }

  function CondOf(c: Condition?): CondV
    reads c
  {
    if c == null then NilCond else Cond(c.ctype, c.status, c.message, c.reason, c.lastTransition)
  }

  function CondsOf(cs: seq<Condition?>): (vs: seq<CondV>)
    reads cs
    ensures |vs| == |cs| && forall i :: 0 <= i < |cs| ==> vs[i] == CondOf(cs[i])
  {
    seq(|cs|, i requires 0 <= i < |cs| reads cs => CondOf(cs[i]))
  }

  function MetaOf(m: ResourceMetadata?): Option<MetaV>
    reads m
  {
    if m == null then None else Some(Meta(m.arn, m.ownerAccountID, m.region, m.partition))
  }

  /** The entries of a slice; a nil slice has none. */
  function Slice<T>(s: Option<seq<T>>): seq<T> {
    s.GetOr([])
  }

  /** The entries are distinct, non-nil objects. */
  ghost predicate Separate(cs: seq<Condition?>) {
    && (forall i :: 0 <= i < |cs| ==> cs[i] != null)
    && (forall i, j :: 0 <= i < j < |cs| ==> cs[i] != cs[j])
  }

  /** Equal field by field, or both nil. */
  predicate SameTag(a: Tag?, b: Tag?)
    reads a, b
  {
    (a == null <==> b == null) && (a != null ==> a.key == b.key && a.value == b.value)
  }

  predicate SameCondition(a: Condition?, b: Condition?)
    reads a, b
  {
    && (a == null <==> b == null)
    && (a != null ==>
          && a.ctype == b.ctype && a.status == b.status && a.message == b.message && a.reason == b.reason
          && a.lastTransition == b.lastTransition)
  }

  method DeepCopyTags(ts: seq<Tag?>) returns (out: seq<Tag?>)
    ensures TagsOf(out) == old(TagsOf(ts))
    ensures forall t :: t in out && t != null ==> fresh(t)
    ensures |out| == |ts|
    ensures forall i :: 0 <= i < |ts| ==> SameTag(out[i], ts[i])
  {
    out := [];
    for i := 0 to |ts|
      invariant |out| == i
      invariant forall j :: 0 <= j < i ==> TagOf(out[j]) == TagOf(ts[j])
      invariant forall j :: 0 <= j < i && out[j] != null ==> fresh(out[j])
    {
      var copy: Tag? := null;
      if ts[i] != null {
        copy := ts[i].DeepCopy();
      }
      out := out + [copy];
    }
  }

  method DeepCopyConditions(cs: seq<Condition?>) returns (out: seq<Condition?>)
    ensures CondsOf(out) == old(CondsOf(cs))
    ensures forall c :: c in out && c != null ==> fresh(c)
    ensures null !in cs ==> Separate(out)
    ensures |out| == |cs|
    ensures forall i :: 0 <= i < |cs| ==> SameCondition(out[i], cs[i])
  {
    out := [];
    for i := 0 to |cs|
      invariant |out| == i
      invariant forall j :: 0 <= j < i ==> CondOf(out[j]) == CondOf(cs[j])
      invariant forall j :: 0 <= j < i && out[j] != null ==> fresh(out[j])
      invariant forall j, k :: 0 <= j < k < i && out[j] != null ==> out[j] != out[k]
    {
      var copy: Condition? := null;
      if cs[i] != null {
        copy := cs[i].DeepCopy();
      }
      out := out + [copy];
    }
    forall i | 0 <= i < |cs| && null !in cs ensures out[i] != null {
      assert CondOf(out[i]) == CondOf(cs[i]);
    }
  }

  /** A nil slice stays nil. */
  method CopyTagSlice(ts: Option<seq<Tag?>>) returns (out: Option<seq<Tag?>>)
    ensures (out.Some? <==> ts.Some?) && TagsOf(Slice(out)) == old(TagsOf(Slice(ts)))
    ensures forall t :: t in Slice(out) && t != null ==> fresh(t)
    ensures |Slice(out)| == |Slice(ts)| && forall i :: 0 <= i < |Slice(ts)| ==> SameTag(Slice(out)[i], Slice(ts)[i])
  {
    out := None;
    if ts.Some? {
      var copies := DeepCopyTags(ts.value);
      out := Some(copies);
    }
  }

  method CopyConditionSlice(cs: Option<seq<Condition?>>) returns (out: Option<seq<Condition?>>)
    ensures (out.Some? <==> cs.Some?) && CondsOf(Slice(out)) == old(CondsOf(Slice(cs)))
    ensures forall c :: c in Slice(out) && c != null ==> fresh(c)
    ensures null !in Slice(cs) ==> Separate(Slice(out))
    ensures |Slice(out)| == |Slice(cs)|
    ensures forall i :: 0 <= i < |Slice(cs)| ==> SameCondition(Slice(out)[i], Slice(cs)[i])
  {
    out := None;
    if cs.Some? {
      var copies := DeepCopyConditions(cs.value);
      out := Some(copies);
    }
  }

  class GlobalNetwork {
    var objectMeta: string  // TypeMeta and ObjectMeta, opaque
    var description: Option<string>
    var tags: Option<seq<Tag?>>
    var meta: ResourceMetadata?
    var conditions: Option<seq<Condition?>>
    var createdAt: Option<int>
    var globalNetworkID: Option<string>
    var state: Option<string>

    constructor (objectMeta: string, description: Option<string>, tags: Option<seq<Tag?>>, meta: ResourceMetadata?,
                 conditions: Option<seq<Condition?>>, createdAt: Option<int>, id: Option<string>, state: Option<string>)
      ensures this.objectMeta == objectMeta && this.description == description && this.tags == tags
      ensures this.meta == meta && this.conditions == conditions
      ensures this.createdAt == createdAt && globalNetworkID == id && this.state == state
    {
      this.objectMeta, this.description, this.tags, this.meta := objectMeta, description, tags, meta;
      this.conditions, this.createdAt, this.globalNetworkID, this.state := conditions, createdAt, id, state;
    }

    function View(): NetworkV
      reads this, Slice(tags), Slice(conditions), meta
    {
      Network(objectMeta, description,
              if tags.Some? then Some(TagsOf(tags.value)) else None,
              MetaOf(meta),
              if conditions.Some? then Some(CondsOf(conditions.value)) else None,
              createdAt, globalNetworkID, state)
    }

    /** A structurally equal resource that shares no object with this one. The method may
        modify nothing, so neither it nor a later change to the copy can be seen here. */
    method DeepCopy() returns (out: GlobalNetwork)
      ensures fresh(out)
      ensures out.meta != null ==> fresh(out.meta)
      ensures forall t :: t in Slice(out.tags) && t != null ==> fresh(t)
      ensures forall c :: c in Slice(out.conditions) && c != null ==> fresh(c)
      ensures out.View() == old(View())
      ensures && out.objectMeta == objectMeta && out.description == description && out.createdAt == createdAt
              && out.globalNetworkID == globalNetworkID && out.state == state
              && (out.tags.Some? <==> tags.Some?) && |Slice(out.tags)| == |Slice(tags)|
              && (out.conditions.Some? <==> conditions.Some?) && |Slice(out.conditions)| == |Slice(conditions)|
              && (out.meta == null <==> meta == null)
      ensures forall i :: 0 <= i < |Slice(tags)| ==> SameTag(Slice(out.tags)[i], Slice(tags)[i])
      ensures forall i :: 0 <= i < |Slice(conditions)| ==> SameCondition(Slice(out.conditions)[i], Slice(conditions)[i])
      ensures meta != null ==> out.meta.arn == meta.arn && out.meta.ownerAccountID == meta.ownerAccountID
                               && out.meta.region == meta.region && out.meta.partition == meta.partition
      ensures null !in Slice(conditions) ==> Separate(Slice(out.conditions))
    {
      hide SameTag, SameCondition, TagsOf, CondsOf;
      var ts := CopyTagSlice(tags);
      var md: ResourceMetadata? := null;
      if meta != null {
        md := meta.DeepCopy();
      }
      var cs := CopyConditionSlice(conditions);
      out := new GlobalNetwork(objectMeta, description, ts, md, cs, createdAt, globalNetworkID, state);
    }
  }
}
