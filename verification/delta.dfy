/** `newResourceDelta` (pkg/resource/global_network/delta.go). */
module Deltas {
  import opened Wrappers
  import opened TagLists
  import opened ApiTypes
  import opened AckTags

  /** The paths the comparison can report; `Root` stands for the empty path. */
  datatype FieldPath = Root | SpecDescription | SpecTags

  class Delta {
    var paths: seq<FieldPath>

    constructor ()
      ensures paths == []
    {
      paths := [];
    }

    method Add(path: FieldPath)
      modifies this
      ensures paths == old(paths) + [path]
    {
      paths := paths + [path];
    }

    predicate DifferentAt(path: FieldPath)
      reads this
    {
      path in paths
    }

    predicate DifferentExcept(path: FieldPath)
      reads this
    {
      exists p :: p in paths && p != path
    }
  }

  /** The differences between two specs: descriptions by nilness and text, tag lists by
      the maps they stand for. */
  function Differences(aDescription: Option<string>, aTags: map<string, string>,
                       bDescription: Option<string>, bTags: map<string, string>): seq<FieldPath>
  {
    (if aDescription != bDescription then [SpecDescription] else [])
    + if aTags != bTags then [SpecTags] else []
  }

  method TagsDiffer(a: seq<Tag?>, b: seq<Tag?>) returns (differ: bool)
    requires null !in a && null !in b
    ensures differ <==> ToMap(TagsOf(a)) != ToMap(TagsOf(b))
  {
    var desiredACKTags, _ := ConvertToOrderedACKTags(a);
    var latestACKTags, _ := ConvertToOrderedACKTags(b);
    differ := desiredACKTags.m != latestACKTags.m;
  }

  method NewResourceDelta(a: GlobalNetwork?, b: GlobalNetwork?) returns (delta: Delta)
    requires a != null || b != null
    requires a != null && b != null ==> null !in Slice(a.tags) && null !in Slice(b.tags)
    ensures fresh(delta)
    ensures a == null || b == null ==> delta.paths == [Root]
    ensures a != null && b != null ==>
              delta.paths == Differences(a.description, old(ToMap(TagsOf(Slice(a.tags)))),
                                         b.description, old(ToMap(TagsOf(Slice(b.tags)))))
    ensures a != null && b != null ==>
              && (SpecDescription in delta.paths <==> a.description != b.description)
              && (SpecTags in delta.paths <==> old(ToMap(TagsOf(Slice(a.tags)))) != old(ToMap(TagsOf(Slice(b.tags)))))
              && Root !in delta.paths
  {
    hide TagsOf, ToMap;
    ghost var tagsDiffer := a != null && b != null && ToMap(TagsOf(Slice(a.tags))) != ToMap(TagsOf(Slice(b.tags)));
    delta := new Delta();
    if (a == null && b != null) || (a != null && b == null) {
      delta.Add(Root);
      return;
    }
    if a.description.Some? != b.description.Some? {
      delta.Add(SpecDescription);
    } else if a.description.Some? && b.description.Some? {
      if a.description.value != b.description.value {
        delta.Add(SpecDescription);
      }
    }
    var differ := TagsDiffer(Slice(a.tags), Slice(b.tags));
    assert differ == tagsDiffer;
    if differ {
      delta.Add(SpecTags);
    }
  }
}
