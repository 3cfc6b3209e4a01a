/**
 * The XML handler's conversion of a parsed element tree into nested dicts
 * (`XMLFileHandler._element_to_dict`).
 */
module Xml {
  import opened Common
  import opened Text
  import opened JsonValue

  /** An element as the XML parser returns it. */
  datatype Element = Element(
    tag: string,
    attrib: seq<(string, string)>,
    text: Option<string>,
    tail: Option<string>,
    children: seq<Element>)

  /** The element's text after `strip()`; "" when there is none. */
  function StrippedText(e: Element): string {
    match e.text
    case None => ""
    case Some(s) => Strip(s)
  }

  /** The value a tag takes when one more child with that tag arrives. */
  function Coalesce(existing: Option<Json>, data: Json): Json {
    match existing
    case None => data
    case Some(JArray(xs)) => JArray(xs + [data])
    case Some(v) => JArray([v, data])
  }

  /** The dict built from the (tag, child dict) pairs of the children, in document order. */
  function Fold(pairs: seq<(string, Json)>): Dict {
    if pairs == [] then []
    else
      var acc := Fold(pairs[..|pairs| - 1]);
      var (tag, data) := pairs[|pairs| - 1];
      Put(acc, tag, Coalesce(Get(acc, tag), data))
  }

  /** Each child's tag with the dict converted from that child. */
  function ChildPairs(e: Element): (ps: seq<(string, Json)>)
    ensures |ps| == |e.children|
    decreases e, 0
  {
    seq(|e.children|, i requires 0 <= i < |e.children| =>
      (e.children[i].tag, JObject(ElementDict(e.children[i]))))
  }

  /** The dict `_element_to_dict` returns for `e`. */
  function ElementDict(e: Element): Dict
    decreases e, 1
  {
    var d := Fold(ChildPairs(e));
    var t := StrippedText(e);
    if t != "" then Put(d, "#text", JStr(t)) else d
  }

  lemma FoldStep(pairs: seq<(string, Json)>, i: nat)
    requires i < |pairs|
    ensures Fold(pairs[..i + 1]) ==
      var acc := Fold(pairs[..i]);
      Put(acc, pairs[i].0, Coalesce(Get(acc, pairs[i].0), pairs[i].1))
  {
    assert pairs[..i + 1][..i] == pairs[..i];
  }

  /** The loop of `_element_to_dict`, updating `result` in place child by child. */
  method ElementToDict(e: Element) returns (result: Dict)
    ensures result == ElementDict(e)
    decreases e
  {
    ghost var pairs := ChildPairs(e);
    result := [];
    var i := 0;
    while i < |e.children|
      invariant i <= |e.children|
      invariant result == Fold(pairs[..i])
    {
      var child := e.children[i];
      var childData := ElementToDict(child);
      var existing := Get(result, child.tag);
      FoldStep(pairs, i);
      ghost var next := Put(result, child.tag, Coalesce(existing, JObject(childData)));
      assert pairs[i] == (child.tag, JObject(childData));
      if existing.Some? {
        if existing.value.JArray? {
          result := Put(result, child.tag, JArray(existing.value.items + [JObject(childData)]));
        } else {
          result := Put(result, child.tag, JArray([existing.value, JObject(childData)]));
        }
      } else {
        result := Put(result, child.tag, JObject(childData));
      }
      assert result == next;
      i := i + 1;
    }
    assert pairs[..i] == pairs;
    var t := StrippedText(e);
    if t != "" {
      result := Put(result, "#text", JStr(t));
    }
  }

  // ---------------------------------------------------------------------------
  // What the conversion promises

  /** The tags of the pairs, in document order. */
  function Tags(pairs: seq<(string, Json)>): (ts: seq<string>)
    ensures |ts| == |pairs|
  {
    if pairs == [] then [] else Tags(pairs[..|pairs| - 1]) + [pairs[|pairs| - 1].0]
  }

  /** The dicts paired with tag `t`, in document order. */
  function Occurrences(pairs: seq<(string, Json)>, t: string): seq<Json> {
    if pairs == [] then []
    else
      var (tag, data) := pairs[|pairs| - 1];
      Occurrences(pairs[..|pairs| - 1], t) + if tag == t then [data] else []
  }

  /** The strings of `s` in order of first occurrence, without repeats. */
  function Dedup(s: seq<string>): seq<string> {
    if s == [] then []
    else
      var init := s[..|s| - 1];
      Dedup(init) + if s[|s| - 1] in init then [] else [s[|s| - 1]]
  }

  /** What a tag maps to: the one dict, or the list of all of them. */
  function Grouped(occ: seq<Json>): Json {
    if |occ| == 1 then occ[0] else JArray(occ)
  }

  lemma {:induction false} DedupSameElements(s: seq<string>)
    ensures forall x :: x in Dedup(s) <==> x in s
  {
    if s != [] {
      DedupSameElements(s[..|s| - 1]);
      assert s == s[..|s| - 1] + [s[|s| - 1]];
    }
  }

  /** The children's part of the dict has one key per distinct tag, in first-occurrence order. */
  lemma {:induction false} FoldKeys(pairs: seq<(string, Json)>)
    ensures DistinctKeys(Fold(pairs))
    ensures Keys(Fold(pairs)) == Dedup(Tags(pairs))
  {
    if pairs != [] {
      var init := pairs[..|pairs| - 1];
      var (tag, data) := pairs[|pairs| - 1];
      FoldKeys(init);
      var acc := Fold(init);
      assert Tags(pairs) == Tags(init) + [tag];
      assert Tags(pairs)[..|Tags(pairs)| - 1] == Tags(init);
      DedupSameElements(Tags(init));
      var v := Coalesce(Get(acc, tag), data);
      PutKeys(acc, tag, v);
      PutDistinct(acc, tag, v);
    }
  }

  /** A tag no child carries has no occurrences; every occurrence is a child dict. */
  lemma {:induction false} OccurrencesOf(pairs: seq<(string, Json)>, t: string)
    requires forall i :: 0 <= i < |pairs| ==> pairs[i].1.JObject?
    ensures t !in Tags(pairs) ==> Occurrences(pairs, t) == []
    ensures t in Tags(pairs) ==> |Occurrences(pairs, t)| >= 1
    ensures forall i :: 0 <= i < |Occurrences(pairs, t)| ==> Occurrences(pairs, t)[i].JObject?
  {
    if pairs != [] {
      OccurrencesOf(pairs[..|pairs| - 1], t);
      assert Tags(pairs) == Tags(pairs[..|pairs| - 1]) + [pairs[|pairs| - 1].0];
    }
  }

  /** One more dict under a tag already present extends its group. */
  lemma CoalesceGroup(occ: seq<Json>, data: Json)
    requires |occ| >= 1 && occ[0].JObject?
    ensures Coalesce(Some(Grouped(occ)), data) == Grouped(occ + [data])
  {
    if |occ| == 1 {
      assert occ + [data] == [occ[0], data];
    }
  }

  /**
   * A tag seen once maps to its child's dict; a tag seen k >= 2 times maps to
   * the list of the k dicts in document order (the first repeat builds a
   * two-element list, later ones append).
   */
  lemma {:induction false} FoldValue(pairs: seq<(string, Json)>, t: string)
    requires forall i :: 0 <= i < |pairs| ==> pairs[i].1.JObject?
    requires t in Tags(pairs)
    ensures Get(Fold(pairs), t) == Some(Grouped(Occurrences(pairs, t)))
  {
    var init := pairs[..|pairs| - 1];
    var (tag, data) := pairs[|pairs| - 1];
    var acc := Fold(init);
    var v := Coalesce(Get(acc, tag), data);
    assert Tags(pairs) == Tags(init) + [tag];
    assert Fold(pairs) == Put(acc, tag, v);
    PutGet(acc, tag, v, t);
    OccurrencesOf(init, t);
    if t == tag {
      var occ := Occurrences(init, t);
      assert Occurrences(pairs, t) == occ + [data];
      if t !in Tags(init) {
        FoldKeys(init);
        DedupSameElements(Tags(init));
        assert Get(acc, t).None?;
        assert occ + [data] == [data];
      } else {
        FoldValue(init, t);
        CoalesceGroup(occ, data);
      }
    } else {
      assert Occurrences(pairs, t) == Occurrences(init, t);
      FoldValue(init, t);
    }
  }

  lemma ChildPairsAreDicts(e: Element)
    ensures forall i :: 0 <= i < |ChildPairs(e)| ==> ChildPairs(e)[i].1.JObject?
  {
  }

  /**
   * The whole dict of an element: the child tags as `FoldKeys` and `FoldValue` say, then
   * `#text` exactly when the stripped text is non-empty. The element's own tag
   * is a key only when a child carries it too.
   */
  lemma ElementDictShape(e: Element)
    ensures DistinctKeys(ElementDict(e))
    ensures Keys(ElementDict(e)) == Dedup(Tags(ChildPairs(e)))
      + if StrippedText(e) != "" && "#text" !in Tags(ChildPairs(e)) then ["#text"] else []
    ensures StrippedText(e) != "" ==> Get(ElementDict(e), "#text") == Some(JStr(StrippedText(e)))
    ensures forall t :: t in Tags(ChildPairs(e)) && (t != "#text" || StrippedText(e) == "") ==>
      Get(ElementDict(e), t) == Some(Grouped(Occurrences(ChildPairs(e), t)))
    ensures e.tag in Keys(ElementDict(e)) ==> e.tag in Tags(ChildPairs(e)) || e.tag == "#text"
  {
    var ps := ChildPairs(e);
    ChildPairsAreDicts(e);
    FoldKeys(ps);
    DedupSameElements(Tags(ps));
    var d := Fold(ps);
    var t := StrippedText(e);
    if t != "" {
      PutKeys(d, "#text", JStr(t));
      PutDistinct(d, "#text", JStr(t));
      PutGet(d, "#text", JStr(t), "#text");
    }
    forall x | x in Tags(ps) && (x != "#text" || t == "")
      ensures Get(ElementDict(e), x) == Some(Grouped(Occurrences(ps, x)))
    {
      FoldValue(ps, x);
      if t != "" {
        PutGet(d, "#text", JStr(t), x);
      }
    }
  }

  /** No `#text` key when the text is absent or only white space (and no child is tagged `#text`). */
  lemma BlankTextHasNoTextKey(e: Element)
    requires StrippedText(e) == ""
    requires "#text" !in Tags(ChildPairs(e))
    ensures "#text" !in Keys(ElementDict(e))
  {
    ElementDictShape(e);
    DedupSameElements(Tags(ChildPairs(e)));
  }

  /** `e` with every attribute and tail text removed, recursively. */
  function Bare(e: Element): (b: Element)
    ensures |b.children| == |e.children| && b.tag == e.tag && b.text == e.text
  {
    Element(e.tag, [], e.text, None, seq(|e.children|, i requires 0 <= i < |e.children| => Bare(e.children[i])))
  }

  /** Attributes and tail text never reach the dict. */
  lemma {:induction false} AttributesAndTailIgnored(e: Element)
    ensures ElementDict(Bare(e)) == ElementDict(e)
    decreases e
  {
    forall i | 0 <= i < |e.children|
      ensures ChildPairs(Bare(e))[i] == ChildPairs(e)[i]
    {
      assert Bare(e).children[i] == Bare(e.children[i]);
      AttributesAndTailIgnored(e.children[i]);
    }
    assert ChildPairs(Bare(e)) == ChildPairs(e);
  }

  /** A childless element with non-blank stripped text `t` becomes `{"#text": t}`. */
  lemma LeafDict(b: Element, t: string)
    requires b.children == [] && StrippedText(b) == t != ""
    ensures ElementDict(b) == [("#text", JStr(t))]
  {
    assert ChildPairs(b) == [];
  }

  /** Two children with the same tag become a two-element list under that tag. */
  lemma FoldTwinTags(t: string, d1: Json, d2: Json)
    requires d1.JObject?
    ensures Fold([(t, d1), (t, d2)]) == [(t, JArray([d1, d2]))]
  {
    var ps := [(t, d1), (t, d2)];
    assert ps[..1] == [(t, d1)];
    assert [(t, d1)][..0] == [];
    assert Fold(ps[..1]) == [(t, d1)];
  }

  /** The pairs of an element with exactly two children. */
  lemma TwoChildPairs(e: Element)
    requires |e.children| == 2
    ensures ChildPairs(e) == [(e.children[0].tag, JObject(ElementDict(e.children[0]))),
                              (e.children[1].tag, JObject(ElementDict(e.children[1])))]
  {
  }

  /**
   * `<a><b>x</b><b>y</b></a>`: two text-only siblings with the same tag become
   * `{"b": [{"#text": x}, {"#text": y}]}`, not a dict that keeps only the last.
   */
  lemma DuplicateSiblings(a: Element, x: string, y: string)
    requires StrippedText(a) == ""
    requires |a.children| == 2 && a.children[0].tag == a.children[1].tag
    requires a.children[0].children == [] && StrippedText(a.children[0]) == x != ""
    requires a.children[1].children == [] && StrippedText(a.children[1]) == y != ""
    ensures ElementDict(a) == [(a.children[0].tag,
      JArray([JObject([("#text", JStr(x))]), JObject([("#text", JStr(y))])]))]
  {
    LeafDict(a.children[0], x);
    LeafDict(a.children[1], y);
    TwoChildPairs(a);
    FoldTwinTags(a.children[0].tag, JObject([("#text", JStr(x))]), JObject([("#text", JStr(y))]));
  }
}
