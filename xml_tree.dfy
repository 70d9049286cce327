/** An abstract ElementTree: elements with a tag, optional text, an attribute map and
    an ordered list of children, and the operations on a child list that the property
    helpers are built from: `find` (the first child with a tag), `remove` of that
    child, and `append`. */
module XmlTree {
  import opened PyText

  /** A mutable XML element. The helpers never retag an element, so the tag is fixed
      when the element is made; text, attributes and children are updated in place. */
  class Element {
    const tag: string
    var text: Option<string>
    var attrib: map<string, Value>
    var children: seq<Element>

    /** `Element(tag)`: no text, no attributes, no children. */
    constructor (tag: string)
      ensures this.tag == tag && text == None && attrib == map[] && children == []
    {
      this.tag := tag;
      text := None;
      attrib := map[];
      children := [];
    }
  }

  /** The elements of `cs` whose tag is `tag`, in their order in `cs`. */
  function WithTag(cs: seq<Element>, tag: string): seq<Element> {
    if cs == [] then [] else (if cs[0].tag == tag then [cs[0]] else []) + WithTag(cs[1..], tag)
  }

  /** How many elements of `cs` have tag `tag`. */
  function CountTag(cs: seq<Element>, tag: string): nat {
    |WithTag(cs, tag)|
  }

  /** The index of the first element of `cs` with tag `tag`: where `find(tag)` stops. */
  function FirstIndex(cs: seq<Element>, tag: string): (r: Option<nat>)
    ensures r.None? <==> CountTag(cs, tag) == 0
    ensures r.None? ==> forall j :: 0 <= j < |cs| ==> cs[j].tag != tag
    ensures r.Some? ==> r.value < |cs| && cs[r.value].tag == tag
    ensures r.Some? ==> forall j :: 0 <= j < r.value ==> cs[j].tag != tag
  {
    if cs == [] then None
    else if cs[0].tag == tag then Some(0)
    else
      match FirstIndex(cs[1..], tag)
      case None => None
      case Some(i) => Some(i + 1)
  }

  /** `parent.find(tag)` for a plain tag: the first child with that tag, if any. */
  function Find(cs: seq<Element>, tag: string): (r: Option<Element>)
    ensures r.None? <==> CountTag(cs, tag) == 0
    ensures r.Some? ==> r.value in cs && r.value.tag == tag
  {
    match FirstIndex(cs, tag)
    case None => None
    case Some(i) => Some(cs[i])
  }

  /** The first child with tag `tag`, as a set of at most one element (for frames). */
  function Found(cs: seq<Element>, tag: string): set<Element> {
    match Find(cs, tag)
    case None => {}
    case Some(e) => {e}
  }

  /** The child list after `parent.remove(parent.find(tag))` when the find succeeds,
      unchanged otherwise. */
  function WithoutFirst(cs: seq<Element>, tag: string): seq<Element> {
    match FirstIndex(cs, tag)
    case None => cs
    case Some(i) => cs[..i] + cs[i + 1..]
  }

  /** `list.remove(x)`: the child list without the first occurrence of `x`. */
  function Remove(cs: seq<Element>, x: Element): seq<Element>
    requires x in cs
  {
    if cs[0] == x then cs[1..] else [cs[0]] + Remove(cs[1..], x)
  }

  /** Removing the element that `find` returned drops the first child with that tag
      and nothing else: no earlier child can be the same object. */
  lemma {:induction false} RemoveFound(cs: seq<Element>, tag: string)
    requires Find(cs, tag).Some?
    ensures Remove(cs, Find(cs, tag).value) == WithoutFirst(cs, tag)
  {
    if cs[0].tag != tag {
      RemoveFound(cs[1..], tag);
      var i := FirstIndex(cs[1..], tag).value;
      assert cs[..i + 1] + cs[i + 2..] == [cs[0]] + (cs[1..][..i] + cs[1..][i + 1..]);
    }
  }

  /** The child list after the property rule: drop the first child with the new
      element's tag, then append the new element at the end. */
  function ReplaceOrAppend(cs: seq<Element>, e: Element): seq<Element> {
    WithoutFirst(cs, e.tag) + [e]
  }

  /** Every tag occurs at most once among the children. */
  ghost predicate AtMostOnePerTag(cs: seq<Element>) {
    forall t :: CountTag(cs, t) <= 1
  }

  lemma {:induction false} WithTagConcat(a: seq<Element>, b: seq<Element>, tag: string)
    ensures WithTag(a + b, tag) == WithTag(a, tag) + WithTag(b, tag)
  {
    if a != [] {
      assert (a + b)[1..] == a[1..] + b;
      WithTagConcat(a[1..], b, tag);
    } else {
      assert a + b == b;
    }
  }

  lemma {:induction false} WithTagNone(cs: seq<Element>, tag: string)
    requires forall j :: 0 <= j < |cs| ==> cs[j].tag != tag
    ensures WithTag(cs, tag) == []
  {
    if cs != [] {
      WithTagNone(cs[1..], tag);
    }
  }

  /** The elements with a tag, read around position `i`. */
  lemma WithTagAround(cs: seq<Element>, i: nat, u: string)
    requires i < |cs|
    ensures WithTag(cs, u) == WithTag(cs[..i], u) + WithTag([cs[i]], u) + WithTag(cs[i + 1..], u)
    ensures WithTag(cs[..i] + cs[i + 1..], u) == WithTag(cs[..i], u) + WithTag(cs[i + 1..], u)
  {
    assert cs == cs[..i] + [cs[i]] + cs[i + 1..];
    WithTagConcat(cs[..i] + [cs[i]], cs[i + 1..], u);
    WithTagConcat(cs[..i], [cs[i]], u);
    WithTagConcat(cs[..i], cs[i + 1..], u);
  }

  /** A single element is kept exactly by its own tag. */
  lemma WithTagSingle(e: Element, u: string)
    ensures WithTag([e], u) == if u == e.tag then [e] else []
  {
    assert [e][1..] == [];
  }

  /** Removing the first child with tag `t`, seen through one tag `u`: with `u`
      the first of the `t` children is gone, with any other tag nothing is. */
  lemma WithoutFirstThroughTag(cs: seq<Element>, t: string, u: string)
    requires CountTag(cs, t) > 0
    ensures WithTag(WithoutFirst(cs, t), u) == if u == t then WithTag(cs, t)[1..] else WithTag(cs, u)
  {
    var i := FirstIndex(cs, t).value;
    WithTagAround(cs, i, u);
    WithTagSingle(cs[i], u);
    assert WithoutFirst(cs, t) == cs[..i] + cs[i + 1..];
    if u == t {
      WithTagNone(cs[..i], t);
      assert WithTag(cs, t) == [cs[i]] + WithTag(cs[i + 1..], t);
    }
  }

  /** Removing the first child with tag `t` removes exactly one child when there is
      one and nothing otherwise; the children with any other tag keep their order,
      and among those with tag `t` exactly the first is gone. */
  lemma WithoutFirstRemovesFirst(cs: seq<Element>, t: string)
    ensures CountTag(cs, t) == 0 ==> WithoutFirst(cs, t) == cs
    ensures CountTag(cs, t) > 0 ==> |WithoutFirst(cs, t)| == |cs| - 1
    ensures CountTag(cs, t) > 0 ==> WithTag(WithoutFirst(cs, t), t) == WithTag(cs, t)[1..]
    ensures forall u :: u != t ==> WithTag(WithoutFirst(cs, t), u) == WithTag(cs, u)
  {
    if CountTag(cs, t) > 0 {
      forall u ensures WithTag(WithoutFirst(cs, t), u) == if u == t then WithTag(cs, t)[1..] else WithTag(cs, u) {
        WithoutFirstThroughTag(cs, t, u);
      }
    }
  }

  /** After replace-or-append the last child is the new element; the child count
      is unchanged when a child with that tag existed and one higher otherwise; the
      children with every other tag are exactly as before, in the same order; and
      among the children with the new tag, the first old one is replaced by the new
      element at the end. */
  lemma ReplaceOrAppendShape(cs: seq<Element>, e: Element)
    ensures |ReplaceOrAppend(cs, e)| > 0 && ReplaceOrAppend(cs, e)[|ReplaceOrAppend(cs, e)| - 1] == e
    ensures |ReplaceOrAppend(cs, e)| == if CountTag(cs, e.tag) > 0 then |cs| else |cs| + 1
    ensures forall u :: u != e.tag ==> WithTag(ReplaceOrAppend(cs, e), u) == WithTag(cs, u)
    ensures WithTag(ReplaceOrAppend(cs, e), e.tag)
         == (if CountTag(cs, e.tag) > 0 then WithTag(cs, e.tag)[1..] else []) + [e]
  {
    var w := WithoutFirst(cs, e.tag);
    WithoutFirstRemovesFirst(cs, e.tag);
    forall u ensures WithTag(w + [e], u) == WithTag(w, u) + WithTag([e], u) {
      WithTagConcat(w, [e], u);
    }
    assert forall u :: u != e.tag ==> WithTag([e], u) == [];
    assert WithTag([e], e.tag) == [e];
    if CountTag(cs, e.tag) == 0 {
      assert WithTag(w, e.tag) == [];
    }
  }

  /** With at most one child carrying the tag, applying replace-or-append twice with
      that tag gives the same child list as applying it once with the second
      element: the first new element is exactly what the second call replaces. */
  lemma ReplaceOrAppendTwice(cs: seq<Element>, e1: Element, e2: Element)
    requires e1.tag == e2.tag
    requires CountTag(cs, e1.tag) <= 1
    ensures ReplaceOrAppend(ReplaceOrAppend(cs, e1), e2) == ReplaceOrAppend(cs, e2)
  {
    var w := WithoutFirst(cs, e1.tag);
    WithoutFirstRemovesFirst(cs, e1.tag);
    assert CountTag(w, e1.tag) == 0;
    var once := w + [e1];
    FirstIndexAfterAbsent(w, e1);
    assert once[..|w|] + once[|w| + 1..] == w;
  }

  /** Appended behind children that lack its tag, an element is the one `find` meets. */
  lemma {:induction false} FirstIndexAfterAbsent(cs: seq<Element>, e: Element)
    requires CountTag(cs, e.tag) == 0
    ensures FirstIndex(cs + [e], e.tag) == Some(|cs|)
  {
    if cs != [] {
      assert (cs + [e])[1..] == cs[1..] + [e];
      FirstIndexAfterAbsent(cs[1..], e);
    }
  }

  /** Replace-or-append keeps "at most one child per tag" and leaves exactly one
      child with the new element's tag. */
  lemma ReplaceOrAppendKeepsTagsUnique(cs: seq<Element>, e: Element)
    requires AtMostOnePerTag(cs)
    ensures AtMostOnePerTag(ReplaceOrAppend(cs, e))
    ensures CountTag(ReplaceOrAppend(cs, e), e.tag) == 1
  {
    ReplaceOrAppendShape(cs, e);
    assert CountTag(cs, e.tag) <= 1;
    forall t ensures CountTag(ReplaceOrAppend(cs, e), t) <= 1 {
      assert CountTag(cs, t) <= 1;
    }
  }
}
