/** Which tags belong to whom, and what the three rewrites of `Spec.Tags` do to them:
    `EnsureTags` adds the controller's, `mirrorAWSTags` copies AWS's own,
    `FilterSystemTags` takes both away before the spec goes back to the cluster. */
module TagRules {
  import opened Wrappers
  import opened TagLists

  const AWS_PREFIX: string := "aws:"

  /** Owned by AWS: can be neither modified nor deleted through tag calls. */
  predicate IsAws(k: string) {
    AWS_PREFIX <= k
  }

  predicate IsSystem(k: string, systemTags: seq<string>) {
    IsAws(k) || k in systemTags
  }

  function AwsPart(m: map<string, string>): map<string, string> {
    map k | k in m && IsAws(k) :: m[k]
  }

  function WithoutSystem(m: map<string, string>, systemTags: seq<string>): map<string, string> {
    map k | k in m && !IsSystem(k, systemTags) :: m[k]
  }

  /** `acktags.Merge`: a union that prefers the resource's own tags. */
  function Merge(own: map<string, string>, defaults: map<string, string>): map<string, string> {
    defaults + own
  }

  /** The desired map once AWS's tags have been mirrored into it. */
  function Mirror(desired: map<string, string>, latest: map<string, string>): map<string, string> {
    desired + AwsPart(latest)
  }

  ghost predicate Ensured(out: seq<TagV>, ts: seq<TagV>, defaults: map<string, string>) {
    Arranges(out, Merge(ToMap(ts), defaults), KeyOrder(ts))
  }

  ghost predicate Mirrored(out: seq<TagV>, desired: seq<TagV>, latest: seq<TagV>) {
    Arranges(out, Mirror(ToMap(desired), ToMap(latest)), KeyOrder(desired))
  }

  ghost predicate Filtered(out: seq<TagV>, ts: seq<TagV>, systemTags: seq<string>) {
    Arranges(out, WithoutSystem(ToMap(ts), systemTags), KeyOrder(ts))
  }

  /** The keys that survive the three rewrites, in order. */
  lemma WriteBackKeys(ts: seq<TagV>, defaults: map<string, string>, latest: seq<TagV>, systemTags: seq<string>,
                      o1: seq<TagV>, o2: seq<TagV>, o3: seq<TagV>)
    requires Ensured(o1, ts, defaults) && Mirrored(o2, o1, latest) && Filtered(o3, o2, systemTags)
    ensures Firsts(KeyOrder(ts), ToMap(o3).Keys) <= KeyOrder(o3)
  {
    var r1 := ArrangementSplit(o1, ToMap(o1), KeyOrder(ts));
    var r2 := ArrangementSplit(o2, ToMap(o2), KeyOrder(o1));
    var r3 := ArrangementSplit(o3, ToMap(o3), KeyOrder(o2));
    var keys := ToMap(o3).Keys;
    KeysOfList(o1);
    KeysOfList(o2);
    NoElems(r3);
    FirstsAll(KeyOrder(o1), ToMap(o2).Keys);
    FirstsNone(r2, keys);
    FirstsSplit(KeyOrder(o1), r2, keys);
    FirstsSplit(Firsts(KeyOrder(ts), ToMap(o1).Keys), r1, keys);
    FirstsTwice(KeyOrder(ts), ToMap(o1).Keys, keys);
  }

  /** Three rewrites are one: whatever AWS had added and whatever the iteration orders,
      what is written back is the user's tags and the defaults, less the system tags,
      the user's own first and in their order. */
  lemma WriteBack(ts: seq<TagV>, defaults: map<string, string>, latest: seq<TagV>, systemTags: seq<string>,
                  o1: seq<TagV>, o2: seq<TagV>, o3: seq<TagV>)
    requires Ensured(o1, ts, defaults) && Mirrored(o2, o1, latest) && Filtered(o3, o2, systemTags)
    ensures Arranges(o3, WithoutSystem(Merge(ToMap(ts), defaults), systemTags), KeyOrder(ts))
    ensures forall k :: k in ToMap(o3)
                        <==> (k in ToMap(ts) || k in defaults) && !("aws:" <= k) && k !in systemTags
    ensures forall k :: k in ToMap(o3) ==> ToMap(o3)[k] == if k in ToMap(ts) then ToMap(ts)[k] else defaults[k]
  {
    WriteBackKeys(ts, defaults, latest, systemTags, o1, o2, o3);
    MirroringIsFiltered(Merge(ToMap(ts), defaults), ToMap(latest), systemTags);
    hide Mirror, ToMap, KeyOrder, Canonical, Firsts;
  }

  lemma MirroringIsFiltered(m: map<string, string>, latest: map<string, string>, systemTags: seq<string>)
    ensures WithoutSystem(Mirror(m, latest), systemTags) == WithoutSystem(m, systemTags)
  {
  }

  /** The condition under which nothing is lost or gained on the way. */
  ghost predicate Clean(ts: seq<TagV>, defaults: map<string, string>, systemTags: seq<string>) {
    && Canonical(ts)
    && (forall k :: k in ToMap(ts) ==> !IsSystem(k, systemTags))
    && (forall k :: k in defaults ==> k in ToMap(ts) || IsSystem(k, systemTags))
  }

  lemma CleanIffUnchanged(ts: seq<TagV>, defaults: map<string, string>, systemTags: seq<string>, out: seq<TagV>)
    requires Arranges(out, WithoutSystem(Merge(ToMap(ts), defaults), systemTags), KeyOrder(ts))
    ensures out == ts <==> Clean(ts, defaults, systemTags)
  {
    var merged := Merge(ToMap(ts), defaults);
    assert forall k :: k in defaults ==> k in merged;
    if Clean(ts, defaults, systemTags) {
      assert WithoutSystem(merged, systemTags) == ToMap(ts);
      Canonicalisation(ts, out);
    }
  }

  /** The spec comes back unchanged, order included, exactly when it was canonical, held
      no system tag, and every default tag is either the user's own or filtered. */
  lemma WriteBackRoundTrip(ts: seq<TagV>, defaults: map<string, string>, latest: seq<TagV>, systemTags: seq<string>,
                           o1: seq<TagV>, o2: seq<TagV>, o3: seq<TagV>)
    requires Ensured(o1, ts, defaults) && Mirrored(o2, o1, latest) && Filtered(o3, o2, systemTags)
    ensures o3 == ts <==> Clean(ts, defaults, systemTags)
  {
    WriteBack(ts, defaults, latest, systemTags, o1, o2, o3);
    CleanIffUnchanged(ts, defaults, systemTags, o3);
  }

  /** Specs that do not come back as they were: one that says a tag twice, and one with a
      tag without a value. And one that does: the user's own value stands against the default. */
  lemma CleanExamples()
    ensures var a, b := TagV.Tag(Some("a"), Some("1")), TagV.Tag(Some("b"), Some("2"));
            && !Clean([a, a], map[], []) && !Clean([TagV.Tag(Some("a"), None)], map[], [])
            && Clean([b, a], map["a" := "3"], [])
  {
    hide ToMap, KeyOrder;
    var a, b := TagV.Tag(Some("a"), Some("1")), TagV.Tag(Some("b"), Some("2"));
    TwoTags(a, a);
    assert KeyOrder([a, a])[0] == KeyOrder([a, a])[1];
    assert [TagV.Tag(Some("a"), None)][0].value.None?;
    TwoTags(b, a);
  }

  /** A system tag is taken out of the spec, be it AWS's or the controller's own; the
      latter, added as a default, leaves no trace in a spec without it. */
  lemma SystemTagExamples()
    ensures var own, user := "services.k8s.aws/namespace", TagV.Tag(Some("a"), Some("1"));
            && !Clean([TagV.Tag(Some("aws:x"), Some("x")), user], map[], [])
            && !Clean([TagV.Tag(Some(own), Some("x")), user], map[], [own]) && Clean([user], map[own := "x"], [own])
  {
    hide KeyOrder, ToMap;
    var own, user := "services.k8s.aws/namespace", TagV.Tag(Some("a"), Some("1"));
    TwoTags(TagV.Tag(Some("aws:x"), Some("x")), user);
    assert "aws:x" in ToMap([TagV.Tag(Some("aws:x"), Some("x")), user]) && IsAws("aws:x");
    TwoTags(TagV.Tag(Some(own), Some("x")), user);
    assert |own| != |"a"|;
    assert own in ToMap([TagV.Tag(Some(own), Some("x")), user]) && IsSystem(own, [own]);
    TwoTags(user, user);
  }

  lemma TwoTags(a: TagV, b: TagV)
    requires Keyed(a) && Keyed(b) && a.value.Some? && b.value.Some?
    ensures ToMap([a]) == map[a.key.value := a.value.value]
    ensures ToMap([a, b]) == map[a.key.value := a.value.value][b.key.value := b.value.value]
    ensures KeyOrder([a]) == [a.key.value] && KeyOrder([a, b]) == [a.key.value, b.key.value]
  {
    assert [a][..0] == [] && [a, b][..1] == [a];
    assert KeyOrder([a]) == [a.key.value];
  }
}
