/** Tag lists as values: what an ordered list with duplicates and nils means as a map,
    and what it takes for a list to be an arrangement of a map. The methods of
    `AckTags` are proved against these definitions. */
module TagLists {
  import opened Wrappers

  /** The value of a `*Tag`: nil, or a key and a value that may each be nil. */
  datatype TagV = NilTag | Tag(key: Option<string>, value: Option<string>)

  predicate Keyed(t: TagV) {
    t.Tag? && t.key.Some?
  }

  /** The map a list stands for: the last entry of a key wins, a nil value reads "". */
  function ToMap(ts: seq<TagV>): map<string, string> {
    if ts == [] then map[]
    else
      var m, t := ToMap(ts[..|ts| - 1]), ts[|ts| - 1];
      if Keyed(t) then m[t.key.value := t.value.GetOr("")] else m
  }

  /** The keys of a list in order, duplicates included. */
  function KeyOrder(ts: seq<TagV>): seq<string> {
    if ts == [] then []
    else
      var t := ts[|ts| - 1];
      KeyOrder(ts[..|ts| - 1]) + if Keyed(t) then [t.key.value] else []
  }

  function Elems(ks: seq<string>): set<string> {
    set k | k in ks
  }

  ghost predicate NoDup(ks: seq<string>) {
    forall i, j :: 0 <= i < j < |ks| ==> ks[i] != ks[j]
  }

  /** The keys of `ks` that are available, each at its first occurrence. */
  function Firsts(ks: seq<string>, avail: set<string>): seq<string> {
    if ks == [] then []
    else
      var p, k := Firsts(ks[..|ks| - 1], avail), ks[|ks| - 1];
      if k in avail && k !in ks[..|ks| - 1] then p + [k] else p
  }

  function Entry(m: map<string, string>, k: string): TagV {
    Tag(Some(k), if k in m then Some(m[k]) else None)
  }

  /** The bindings of `m` listed in the order `ks`. */
  function Render(m: map<string, string>, ks: seq<string>): seq<TagV> {
    seq(|ks|, i requires 0 <= i < |ks| => Entry(m, ks[i]))
  }

  /** A list without nils and without duplicate keys. */
  ghost predicate Canonical(ts: seq<TagV>) {
    && (forall i :: 0 <= i < |ts| ==> Keyed(ts[i]) && ts[i].value.Some?)
    && NoDup(KeyOrder(ts))
  }

  /** `out` lists every binding of `m` exactly once; the keys of `order` that `m` binds
      come first, at their first occurrence. The order of the others is open: it is
      the iteration order of a Go map. */
  ghost predicate Arranges(out: seq<TagV>, m: map<string, string>, order: seq<string>) {
    Canonical(out) && ToMap(out) == m && Firsts(order, m.Keys) <= KeyOrder(out)
  }

  // ---- Lists as maps ----

  lemma ToMapAppend(ts: seq<TagV>, t: TagV)
    ensures ToMap(ts + [t]) == if Keyed(t) then ToMap(ts)[t.key.value := t.value.GetOr("")] else ToMap(ts)
    ensures KeyOrder(ts + [t]) == KeyOrder(ts) + if Keyed(t) then [t.key.value] else []
  {
  }

  lemma FirstsAppend(ks: seq<string>, k: string, avail: set<string>)
    ensures Firsts(ks + [k], avail) == Firsts(ks, avail) + if k in avail && k !in ks then [k] else []
  {
  }

  /** Independent reading of `ToMap`: a key is bound iff some entry has it, and to the
      value of its last entry. */
  lemma {:induction false} LastEntryWins(ts: seq<TagV>, k: string)
    ensures k in ToMap(ts) <==> exists i :: 0 <= i < |ts| && Keyed(ts[i]) && ts[i].key.value == k
    ensures forall i :: 0 <= i < |ts| && ts[i].Tag? && ts[i].key == Some(k)
                        && (forall j :: i < j < |ts| && ts[j].Tag? ==> ts[j].key != Some(k))
                        ==> k in ToMap(ts) && ToMap(ts)[k] == ts[i].value.GetOr("")
  {
    if ts != [] {
      var init, t := ts[..|ts| - 1], ts[|ts| - 1];
      LastEntryWins(init, k);
      assert forall i :: 0 <= i < |init| ==> init[i] == ts[i];
      if k in ToMap(ts) && !(Keyed(t) && t.key.value == k) {
        var i :| 0 <= i < |init| && Keyed(init[i]) && init[i].key.value == k;
        assert Keyed(ts[i]) && ts[i].key.value == k;
      }
    }
  }

  lemma {:induction false} KeysOfList(ts: seq<TagV>)
    ensures ToMap(ts).Keys == Elems(KeyOrder(ts))
  {
    if ts != [] {
      KeysOfList(ts[..|ts| - 1]);
    }
  }

  lemma {:induction false} FirstsElems(ks: seq<string>, avail: set<string>)
    ensures NoDup(Firsts(ks, avail))
    ensures Elems(Firsts(ks, avail)) == Elems(ks) * avail
  {
    if ks != [] {
      var init, k := ks[..|ks| - 1], ks[|ks| - 1];
      FirstsElems(init, avail);
      assert ks == init + [k];
      assert Elems(ks) == Elems(init) + {k};
      assert k in Elems(init) <==> k in init;
      if k in avail && k !in init {
        assert k !in Elems(Firsts(init, avail));
        assert Elems(Firsts(ks, avail)) == Elems(Firsts(init, avail)) + {k};
      }
    }
  }

  /** The position at which a key first occurs. */
  function FirstIndex(ks: seq<string>, k: string): (i: nat)
    requires k in ks
    ensures i < |ks| && ks[i] == k && k !in ks[..i]
  {
    if k in ks[..|ks| - 1] then
      var i := FirstIndex(ks[..|ks| - 1], k);
      assert ks[..|ks| - 1][..i] == ks[..i];
      i
    else |ks| - 1
  }

  lemma FirstIndexUnique(ks: seq<string>, k: string, i: nat)
    requires i < |ks| && ks[i] == k && k !in ks[..i]
    ensures FirstIndex(ks, k) == i
  {
  }

  /** `Firsts` keeps the order in which keys first occur. */
  lemma {:induction false} FirstsOrdered(ks: seq<string>, avail: set<string>)
    ensures forall i :: 0 <= i < |Firsts(ks, avail)| ==> Firsts(ks, avail)[i] in ks
    ensures forall i, j :: 0 <= i < j < |Firsts(ks, avail)| ==>
                             FirstIndex(ks, Firsts(ks, avail)[i]) < FirstIndex(ks, Firsts(ks, avail)[j])
  {
    if ks != [] {
      var init, k := ks[..|ks| - 1], ks[|ks| - 1];
      FirstsOrdered(init, avail);
      var fs := Firsts(init, avail);
      forall i | 0 <= i < |fs| ensures fs[i] in ks && FirstIndex(ks, fs[i]) == FirstIndex(init, fs[i]) {
        var p := FirstIndex(init, fs[i]);
        assert ks[p] == init[p] && ks[..p] == init[..p];
        FirstIndexUnique(ks, fs[i], p);
      }
      if k in avail && k !in init {
        FirstIndexUnique(ks, k, |init|);
      }
    }
  }

  /** On a list of distinct keys `Firsts` is plain filtering, so it splits over `+`. */
  lemma {:induction false} FirstsSplit(ks: seq<string>, ls: seq<string>, avail: set<string>)
    requires NoDup(ks + ls)
    ensures Firsts(ks + ls, avail) == Firsts(ks, avail) + Firsts(ls, avail)
  {
    if ls == [] {
      assert ks + ls == ks;
    } else {
      var init, l := ls[..|ls| - 1], ls[|ls| - 1];
      assert ks + ls == (ks + init) + [l];
      assert forall i, j :: 0 <= i < j < |ks + init| ==>
                              (ks + init)[i] == (ks + ls)[i] && (ks + init)[j] == (ks + ls)[j];
      FirstsSplit(ks, init, avail);
      FirstsAppend(ks + init, l, avail);
      FirstsAppend(init, l, avail);
      assert ls == init + [l];
      assert l !in ks + init && l !in init by {
        assert (ks + ls)[|ks + ls| - 1] == l;
        assert forall i :: 0 <= i < |ks + init| ==> (ks + init)[i] == (ks + ls)[i];
      }
    }
  }

  lemma {:induction false} FirstsAll(ks: seq<string>, avail: set<string>)
    requires NoDup(ks) && Elems(ks) <= avail
    ensures Firsts(ks, avail) == ks
  {
    if ks != [] {
      var init, k := ks[..|ks| - 1], ks[|ks| - 1];
      assert ks == init + [k];
      assert forall x :: x in init ==> x in Elems(ks);
      FirstsAll(init, avail);
      assert k in Elems(ks);
    }
  }

  lemma FirstsNone(ks: seq<string>, avail: set<string>)
    requires Elems(ks) !! avail
    ensures Firsts(ks, avail) == []
  {
  }

  /** Picking from a pick: only the smaller set matters. */
  lemma {:induction false} FirstsTwice(ks: seq<string>, a: set<string>, b: set<string>)
    requires b <= a
    ensures Firsts(Firsts(ks, a), b) == Firsts(ks, b)
  {
    if ks != [] {
      var init, k := ks[..|ks| - 1], ks[|ks| - 1];
      FirstsTwice(init, a, b);
      FirstsElems(init, a);
      assert k in Firsts(init, a) <==> k in Elems(Firsts(init, a));
      assert k in init <==> k in Elems(init);
      FirstsAppend(Firsts(init, a), k, b);
    }
  }

  // ---- Rendering a map ----

  function Restrict(m: map<string, string>, ks: set<string>): map<string, string> {
    map k | k in m && k in ks :: m[k]
  }

  lemma {:induction false} RenderMap(m: map<string, string>, ks: seq<string>)
    requires Elems(ks) <= m.Keys
    ensures KeyOrder(Render(m, ks)) == ks
    ensures ToMap(Render(m, ks)) == Restrict(m, Elems(ks))
  {
    if ks != [] {
      var init, k := ks[..|ks| - 1], ks[|ks| - 1];
      assert ks == init + [k];
      assert Elems(ks) == Elems(init) + {k};
      RenderMap(m, init);
      assert Render(m, ks) == Render(m, init) + [Entry(m, k)];
      ToMapAppend(Render(m, init), Entry(m, k));
      assert Restrict(m, Elems(ks)) == Restrict(m, Elems(init))[k := m[k]];
    }
  }

  lemma RenderMeaning(m: map<string, string>, ks: seq<string>)
    requires Elems(ks) <= m.Keys
    ensures KeyOrder(Render(m, ks)) == ks
    ensures ToMap(Render(m, ks)) == Restrict(m, Elems(ks))
    ensures NoDup(ks) ==> Canonical(Render(m, ks))
  {
    RenderMap(m, ks);
    forall i | 0 <= i < |ks| ensures ks[i] in m {
      assert ks[i] in Elems(ks);
    }
  }

  /** A canonical list is determined by its map and its key order. */
  lemma {:induction false} CanonicalIsRendered(ts: seq<TagV>)
    requires Canonical(ts)
    ensures ts == Render(ToMap(ts), KeyOrder(ts))
  {
    if ts != [] {
      var init, t := ts[..|ts| - 1], ts[|ts| - 1];
      assert ts == init + [t];
      ToMapAppend(init, t);
      assert KeyOrder(ts) == KeyOrder(init) + [t.key.value];
      assert NoDup(KeyOrder(init)) by {
        forall i, j | 0 <= i < j < |KeyOrder(init)| ensures KeyOrder(init)[i] != KeyOrder(init)[j] {
          assert KeyOrder(ts)[i] == KeyOrder(init)[i] && KeyOrder(ts)[j] == KeyOrder(init)[j];
        }
      }
      CanonicalIsRendered(init);
      KeysOfList(init);
      var ks := KeyOrder(init);
      assert t.key.value !in ks by {
        assert KeyOrder(ts)[|ks|] == t.key.value;
        assert forall i :: 0 <= i < |ks| ==> KeyOrder(ts)[i] == ks[i];
      }
      forall i | 0 <= i < |ks| ensures Entry(ToMap(ts), ks[i]) == Entry(ToMap(init), ks[i]) {
        assert ks[i] in Elems(ks);
      }
      assert Render(ToMap(ts), KeyOrder(ts)) == Render(ToMap(init), ks) + [t];
    }
  }

  // ---- Arrangements ----

  /** Conservation: an arrangement has exactly one entry per binding. */
  lemma ArrangementConserves(out: seq<TagV>, m: map<string, string>, order: seq<string>)
    requires Arranges(out, m, order)
    ensures |out| == |m|
    ensures forall k :: k in m ==> exists i :: 0 <= i < |out| && out[i] == Tag(Some(k), Some(m[k]))
    ensures forall i :: 0 <= i < |out| ==>
                          out[i].key.Some? && out[i].key.value in m && out[i].value == Some(m[out[i].key.value])
  {
    var ks := KeyOrder(out);
    CanonicalIsRendered(out);
    KeysOfList(out);
    DistinctCount(ks);
    assert |m| == |m.Keys|;
    forall k | k in m ensures exists i :: 0 <= i < |out| && out[i] == Tag(Some(k), Some(m[k])) {
      assert k in Elems(ks);
      var i :| 0 <= i < |ks| && ks[i] == k;
      assert out[i] == Entry(m, k);
    }
    forall i | 0 <= i < |out|
      ensures out[i].key.Some? && out[i].key.value in m && out[i].value == Some(m[out[i].key.value])
    {
      assert out[i] == Entry(m, ks[i]);
      assert ks[i] in Elems(ks);
    }
  }

  lemma {:induction false} DistinctCount(ks: seq<string>)
    requires NoDup(ks)
    ensures |Elems(ks)| == |ks|
  {
    if ks != [] {
      var init, k := ks[..|ks| - 1], ks[|ks| - 1];
      DistinctCount(init);
      assert ks == init + [k];
      assert k !in Elems(init);
      assert Elems(ks) == Elems(init) + {k};
    }
  }

  /** Distinct keys listed after the ordered ones make an arrangement. */
  lemma RenderArranges(m: map<string, string>, order: seq<string>, rest: seq<string>)
    requires NoDup(rest) && Elems(rest) == m.Keys - Elems(order)
    ensures Arranges(Render(m, Firsts(order, m.Keys) + rest), m, order)
  {
    var fs := Firsts(order, m.Keys);
    FirstsElems(order, m.Keys);
    var ks := fs + rest;
    assert Elems(ks) == Elems(fs) + Elems(rest);
    forall i, j | 0 <= i < j < |ks| ensures ks[i] != ks[j] {
      if i < |fs| <= j {
        assert ks[i] in Elems(fs) && ks[j] in Elems(rest);
      }
    }
    RenderMeaning(m, ks);
    assert forall k :: k in m ==> k in Elems(ks);
    assert ToMap(Render(m, ks)) == m;
  }

  lemma NoElems(ks: seq<string>)
    ensures Elems(ks) == {} <==> ks == []
  {
    if ks != [] {
      assert ks[0] in Elems(ks);
    }
  }

  lemma DistinctSplit(ks: seq<string>, ls: seq<string>)
    requires NoDup(ks + ls)
    ensures NoDup(ks) && NoDup(ls) && Elems(ls) == Elems(ks + ls) - Elems(ks)
  {
    assert forall i :: 0 <= i < |ks| ==> (ks + ls)[i] == ks[i];
    assert forall i :: 0 <= i < |ls| ==> (ks + ls)[|ks| + i] == ls[i];
    forall k | k in ls ensures k !in ks {
      var j :| 0 <= j < |ls| && ls[j] == k;
      forall i | 0 <= i < |ks| ensures ks[i] != k {
        assert (ks + ls)[i] != (ks + ls)[|ks| + j];
      }
    }
  }

  /** An arrangement splits into the ordered keys and the rest. */
  lemma ArrangementSplit(out: seq<TagV>, m: map<string, string>, order: seq<string>) returns (rest: seq<string>)
    requires Arranges(out, m, order)
    ensures KeyOrder(out) == Firsts(order, m.Keys) + rest
    ensures NoDup(rest) && Elems(rest) == m.Keys - Elems(order)
    ensures out == Render(m, Firsts(order, m.Keys) + rest)
  {
    var ks, fs := KeyOrder(out), Firsts(order, m.Keys);
    rest := ks[|fs|..];
    CanonicalIsRendered(out);
    KeysOfList(out);
    FirstsElems(order, m.Keys);
    DistinctSplit(fs, rest);
    assert ks == fs + rest;
  }

  /** When every bound key is ordered, the iteration order cannot matter. */
  lemma ArrangementUnique(out: seq<TagV>, m: map<string, string>, order: seq<string>)
    requires Arranges(out, m, order) && m.Keys <= Elems(order)
    ensures out == Render(m, Firsts(order, m.Keys))
  {
    var rest := ArrangementSplit(out, m, order);
    NoElems(rest);
    assert Firsts(order, m.Keys) + rest == Firsts(order, m.Keys);
  }

  // ---- Canonicalisation: fromACKTags after convertToOrderedACKTags ----

  /** The only list `fromACKTags` can return for the map and key order of `ts`. */
  function Canonicalised(ts: seq<TagV>): seq<TagV> {
    Render(ToMap(ts), Firsts(KeyOrder(ts), ToMap(ts).Keys))
  }

  /** Converting to a map and back gives one list whatever the iteration order: first
      occurrences in order, last values, the same map. Doing it again changes nothing,
      and it changes nothing at all exactly on canonical lists. */
  lemma Canonicalisation(ts: seq<TagV>, out: seq<TagV>)
    requires Arranges(out, ToMap(ts), KeyOrder(ts))
    ensures out == Canonicalised(ts)
    ensures KeyOrder(out) == Firsts(KeyOrder(ts), ToMap(ts).Keys)
    ensures Canonicalised(out) == out
    ensures out == ts <==> Canonical(ts)
  {
    KeysOfList(ts);
    ArrangementUnique(out, ToMap(ts), KeyOrder(ts));
    var rest := ArrangementSplit(out, ToMap(ts), KeyOrder(ts));
    NoElems(rest);
    CanonicalFixed(out);
    if Canonical(ts) {
      CanonicalFixed(ts);
    }
  }

  lemma CanonicalFixed(ts: seq<TagV>)
    requires Canonical(ts)
    ensures Canonicalised(ts) == ts
  {
    KeysOfList(ts);
    FirstsAll(KeyOrder(ts), ToMap(ts).Keys);
    CanonicalIsRendered(ts);
  }
}
