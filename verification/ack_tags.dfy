/** Conversions between tag lists and `acktags.Tags`
    (pkg/resource/global_network/tags.go). A Go map is a reference: these methods change
    the maps they are given, and iterate over them in an arbitrary order. */
module AckTags {
  import opened Wrappers
  import opened TagLists
  import opened TagRules
  import opened ApiTypes

  /** `acktags.Tags`, a `map[string]string` shared by reference. */
  class TagMap {
    var m: map<string, string>

    constructor ()
      ensures m == map[]
    {
      m := map[];
    }
  }

  method ConvertToOrderedACKTags(tags: seq<Tag?>) returns (result: TagMap, keyOrder: seq<string>)
    requires null !in tags
    ensures fresh(result)
    ensures result.m == ToMap(TagsOf(tags))
    ensures keyOrder == KeyOrder(TagsOf(tags))
  {
    result := new TagMap();
    keyOrder := [];
    ghost var view := TagsOf(tags);
    if |tags| == 0 {
      return;
    }
    for i := 0 to |tags|
      invariant TagsOf(tags) == view
      invariant result.m == ToMap(view[..i]) && keyOrder == KeyOrder(view[..i])
    {
      var t := tags[i];
      ToMapAppend(view[..i], view[i]);
      assert view[..i] + [view[i]] == view[..i + 1];
      if t.key.Some? {
        keyOrder := keyOrder + [t.key.value];
        if t.value.Some? {
          result.m := result.m[t.key.value := t.value.value];
        } else {
          result.m := result.m[t.key.value := ""];
        }
      }
    }
    assert view[..|tags|] == view;
  }

  /** The second loop of `FromACKTags`: every binding left, in iteration order. */
  method AppendUnordered(tags: TagMap, listed: seq<Tag>) returns (result: seq<Tag>, ghost rest: seq<string>)
    ensures NoDup(rest) && Elems(rest) == tags.m.Keys
    ensures TagsOf(result) == TagsOf(listed) + Render(tags.m, rest)
    ensures forall t :: t in result ==> t in listed || fresh(t)
  {
    result, rest := listed, [];
    var todo := tags.m.Keys;
    while todo != {}
      invariant todo <= tags.m.Keys && Elems(rest) == tags.m.Keys - todo && NoDup(rest)
      invariant TagsOf(result) == TagsOf(listed) + Render(tags.m, rest)
      invariant forall t :: t in result ==> t in listed || fresh(t)
    {
      var k :| k in todo;
      todo := todo - {k};
      var tag := new Tag(Some(k), Some(tags.m[k]));
      result := result + [tag];
      assert k !in Elems(rest) && Elems(rest + [k]) == Elems(rest) + {k};
      rest := rest + [k];
    }
  }

  lemma NothingOrdered(m: map<string, string>)
    ensures Elems([]) == {} && Firsts([], m.Keys) == []
  {
  }

  lemma OrderedStep(m: map<string, string>, order: seq<string>, i: nat)
    requires i < |order|
    ensures var k := order[i];
            && Elems(order[..i + 1]) == Elems(order[..i]) + {k}
            && Firsts(order[..i + 1], m.Keys)
               == Firsts(order[..i], m.Keys) + if k in m - Elems(order[..i]) then [k] else []
  {
    FirstsAppend(order[..i], order[i], m.Keys);
    assert order[..i] + [order[i]] == order[..i + 1];
  }

  /** The first loop: the ordered keys, each removed from the map once listed. */
  method AppendOrdered(tags: TagMap, keyOrder: seq<string>) returns (result: seq<Tag>)
    modifies tags
    ensures forall t :: t in result ==> fresh(t)
    ensures TagsOf(result) == Render(old(tags.m), Firsts(keyOrder, old(tags.m).Keys))
    ensures tags.m == old(tags.m) - Elems(keyOrder)
  {
    hide Elems, Firsts;
    ghost var m := tags.m;
    result := [];
    NothingOrdered(m);
    for i := 0 to |keyOrder|
      invariant forall t :: t in result ==> fresh(t)
      invariant tags.m == m - Elems(keyOrder[..i])
      invariant TagsOf(result) == Render(m, Firsts(keyOrder[..i], m.Keys))
    {
      var k := keyOrder[i];
      OrderedStep(m, keyOrder, i);
      if k in tags.m {
        var tag := new Tag(Some(k), Some(tags.m[k]));
        result := result + [tag];
        tags.m := tags.m - {k};
      }
    }
    assert keyOrder[..|keyOrder|] == keyOrder;
  }

  /** The list holds every binding of the map once, the ordered keys first; the map is
      left with the keys that were not ordered. */
  method FromACKTags(tags: TagMap, keyOrder: seq<string>) returns (result: seq<Tag>)
    modifies tags
    ensures forall t :: t in result ==> fresh(t)
    ensures Arranges(TagsOf(result), old(tags.m), keyOrder)
    ensures tags.m == old(tags.m) - Elems(keyOrder)
  {
    ghost var m := tags.m;
    result := AppendOrdered(tags, keyOrder);
    ghost var rest;
    result, rest := AppendUnordered(tags, result);
    assert tags.m.Keys == m.Keys - Elems(keyOrder);
    RenderArranges(m, keyOrder, rest);
    assert forall i :: 0 <= i < |rest| ==> rest[i] in Elems(rest);
    assert TagsOf(result) == Render(m, Firsts(keyOrder, m.Keys) + rest);
  }

  method IgnoreSystemTags(tags: TagMap, systemTags: seq<string>)
    modifies tags
    ensures tags.m == WithoutSystem(old(tags.m), systemTags)
    ensures forall k :: k in tags.m <==> k in old(tags.m) && !("aws:" <= k) && k !in systemTags
    ensures forall k :: k in tags.m ==> tags.m[k] == old(tags.m)[k]
  {
    ghost var m := tags.m;
    var todo := tags.m.Keys;
    while todo != {}
      invariant todo <= m.Keys
      invariant tags.m == map k | k in m && (k in todo || !IsSystem(k, systemTags)) :: m[k]
    {
      var k :| k in todo;
      todo := todo - {k};
      if IsAws(k) || k in systemTags {
        tags.m := tags.m - {k};
      }
    }
  }

  lemma AwsPartStep(m: map<string, string>, todo: set<string>, k: string)
    requires k in todo && todo <= m.Keys
    ensures AwsPart(m - (todo - {k})) == if IsAws(k) then AwsPart(m - todo)[k := m[k]] else AwsPart(m - todo)
  {
    hide IsAws;
  }

  /** Mirroring one more key; a map mirrored into itself stays as it is. */
  lemma MirrorStep(a: map<string, string>, b: map<string, string>, todo: set<string>, k: string)
    requires k in todo && todo <= b.Keys
    ensures Mirror(a, b - (todo - {k})) == if IsAws(k) then Mirror(a, b - todo)[k := b[k]] else Mirror(a, b - todo)
  {
    AwsPartStep(b, todo, k);
    hide AwsPart, IsAws;
  }

  lemma MirrorNothing(a: map<string, string>, b: map<string, string>, todo: set<string>)
    ensures Mirror(a, b - b.Keys) == a
    ensures Mirror(a, a - todo) == a
  {
    hide IsAws;
  }

  lemma MirrorByKey(a: map<string, string>, b: map<string, string>)
    ensures forall k :: k in Mirror(a, b) <==> k in a || (k in b && "aws:" <= k)
    ensures forall k :: k in Mirror(a, b) ==> Mirror(a, b)[k] == if k in b && "aws:" <= k then b[k] else a[k]
  {
  }

  /** The two maps may be the same object. */
  method SyncAWSTags(a: TagMap, b: TagMap)
    modifies a
    ensures a.m == Mirror(old(a.m), old(b.m))
    ensures forall k :: k in a.m <==> k in old(a.m) || (k in old(b.m) && "aws:" <= k)
    ensures forall k :: k in a.m ==> a.m[k] == if k in old(b.m) && "aws:" <= k then old(b.m)[k] else old(a.m)[k]
  {
    hide IsAws, Mirror;
    ghost var before := a.m;
    ghost var from := b.m;
    var todo := b.m.Keys;
    MirrorNothing(before, from, todo);
    while todo != {}
      invariant b.m == from && todo <= from.Keys
      invariant a.m == Mirror(before, from - todo)
    {
      var k :| k in todo;
      MirrorStep(before, from, todo, k);
      todo := todo - {k};
      if IsAws(k) {
        a.m := a.m[k := b.m[k]];
      }
      MirrorNothing(before, from, todo);
    }
    assert from - {} == from;
    MirrorByKey(before, from);
  }
}
