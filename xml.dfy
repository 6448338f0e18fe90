/**
  The element trees the exporter builds with `xml.etree.ElementTree` and reads
  back with `ET.fromstring`. The text encoding of a tree (tokenising, escaping,
  pretty-printing) is not modelled: a tree is stored and read back as a tree.
*/
module Xml {
  import opened Wrappers
  import opened PyCore

  datatype Element = Element(tag: string, attrs: map<string, string>, text: Text, children: seq<Element>)

  /**
    The text of a leaf as it reads back: ElementTree writes a leaf whose text
    is None or empty as an empty element (`<name />`), whose text parses as None.
  */
  function Stored(t: Text): (r: Text)
    ensures r.Some? <==> Truthy(t)
    ensures Truthy(t) ==> r == t
  {
    if Truthy(t) then t else None
  }

  /** `ET.SubElement(parent, tag).text = t`. */
  function Leaf(tag: string, t: Text): Element {
    Element(tag, map[], Stored(t), [])
  }

  /** `ET.SubElement(parent, tag, attrib=attrs)` with children of its own. */
  function Node(tag: string, attrs: map<string, string>, children: seq<Element>): Element {
    Element(tag, attrs, None, children)
  }

  function FindIn(cs: seq<Element>, tag: string): Option<Element> {
    if cs == [] then None
    else if cs[0].tag == tag then Some(cs[0])
    else FindIn(cs[1..], tag)
  }

  /** `e.find(tag)`: the first child of `e` with that tag. */
  function Find(e: Element, tag: string): Option<Element> {
    FindIn(e.children, tag)
  }

  /** `find` returns a child carrying the tag, and returns None exactly when no child carries it. */
  lemma {:induction false} FindInSpec(cs: seq<Element>, tag: string)
    ensures FindIn(cs, tag).Some? ==> FindIn(cs, tag).value in cs && FindIn(cs, tag).value.tag == tag
    ensures FindIn(cs, tag).None? <==> forall c | c in cs :: c.tag != tag
    decreases |cs|
  {
    if cs != [] {
      FindInSpec(cs[1..], tag);
      assert forall c | c in cs :: c == cs[0] || c in cs[1..];
    }
  }

  /** `e.find(tag).text`: AttributeError when `e` has no such child. */
  function FindText(e: Element, tag: string): (r: Result<Text, Fault>)
    ensures r.Err? <==> Find(e, tag).None?
    ensures r.Err? ==> r.error == AttributeError
    ensures r.Ok? ==> r.value == Find(e, tag).value.text
  {
    match Find(e, tag)
    case None => Err(AttributeError)
    case Some(c) => Ok(c.text)
  }

  /** `e.find(tag)` where the caller goes on to use the result: AttributeError when it is missing. */
  function FindChild(e: Element, tag: string): (r: Result<Element, Fault>)
    ensures r.Ok? <==> Find(e, tag).Some?
    ensures r.Ok? ==> r.value == Find(e, tag).value
    ensures r.Err? ==> r.error == AttributeError
  {
    match Find(e, tag)
    case None => Err(AttributeError)
    case Some(c) => Ok(c)
  }

  function Tagged(cs: seq<Element>, tag: string): (r: seq<Element>)
    ensures forall c | c in r :: c in cs && c.tag == tag
    ensures |r| <= |cs|
  {
    if cs == [] then []
    else if cs[0].tag == tag then [cs[0]] + Tagged(cs[1..], tag)
    else Tagged(cs[1..], tag)
  }

  function ChildrenOf(outers: seq<Element>, inner: string): seq<Element> {
    if outers == [] then [] else Tagged(outers[0].children, inner) + ChildrenOf(outers[1..], inner)
  }

  /** `e.findall('./outer/inner')`: the `inner` children of every `outer` child, in document order. */
  function FindAll(e: Element, outer: string, inner: string): seq<Element> {
    ChildrenOf(Tagged(e.children, outer), inner)
  }

  /** The first child carrying a tag is the one `find` returns. */
  lemma {:induction false} FindAt(cs: seq<Element>, i: nat, tag: string)
    requires i < |cs| && cs[i].tag == tag
    requires forall j | 0 <= j < i :: cs[j].tag != tag
    ensures FindIn(cs, tag) == Some(cs[i])
    decreases i
  {
    if i > 0 {
      FindAt(cs[1..], i - 1, tag);
    }
  }

  /** When every child has the tag, `Tagged` keeps them all. */
  lemma {:induction false} TaggedAll(cs: seq<Element>, tag: string)
    requires forall c | c in cs :: c.tag == tag
    ensures Tagged(cs, tag) == cs
    decreases |cs|
  {
    if cs != [] {
      TaggedAll(cs[1..], tag);
    }
  }

  /**
    `findall('./outer/inner')` on an element with exactly one `outer` child
    whose children all carry the `inner` tag returns those children.
  */
  lemma FindAllSingle(e: Element, k: nat, outer: string, inner: string)
    requires k < |e.children| && e.children[k].tag == outer
    requires forall j | 0 <= j < |e.children| && j != k :: e.children[j].tag != outer
    requires forall c | c in e.children[k].children :: c.tag == inner
    ensures FindAll(e, outer, inner) == e.children[k].children
  {
    TaggedOne(e.children, k, outer);
    TaggedAll(e.children[k].children, inner);
    assert ChildrenOf([e.children[k]], inner) == Tagged(e.children[k].children, inner) + [];
  }

  lemma {:induction false} TaggedOne(cs: seq<Element>, k: nat, tag: string)
    requires k < |cs| && cs[k].tag == tag
    requires forall j | 0 <= j < |cs| && j != k :: cs[j].tag != tag
    ensures Tagged(cs, tag) == [cs[k]]
    decreases |cs|
  {
    if k == 0 {
      TaggedNone(cs[1..], tag);
    } else {
      TaggedOne(cs[1..], k - 1, tag);
    }
  }

  lemma {:induction false} TaggedNone(cs: seq<Element>, tag: string)
    requires forall c | c in cs :: c.tag != tag
    ensures Tagged(cs, tag) == []
    decreases |cs|
  {
    if cs != [] {
      TaggedNone(cs[1..], tag);
    }
  }
}
