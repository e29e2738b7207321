/** The parsed document the suggestion engine reads: element nodes with a tag name,
    class tokens, an optional id and href, and child elements. */
module Markup {
  import opened Opt

  /** One element of the parsed HTML tree.  `id` and `href` are `None` when the
      attribute is absent and `Some("")` when it is present but empty. */
  datatype Element = Element(
    name: string,
    classes: seq<string>,
    id: Option<string>,
    href: Option<string>,
    children: seq<Element>)

  /** `tag.get('href')` is truthy: the attribute is present and non-empty. */
  predicate HasHref(e: Element) {
    e.href.Some? && e.href.value != ""
  }

  /** `tag.get('id')` is truthy. */
  predicate HasId(e: Element) {
    e.id.Some? && e.id.value != ""
  }

  /** What `find('a', href=True)` looks for: an anchor carrying an href attribute, even an empty one. */
  predicate IsLinkAnchor(e: Element) {
    e.name == "a" && e.href.Some?
  }

  /** All elements of a forest in document order (`find_all(True)`). */
  function Preorder(cs: seq<Element>): (r: seq<Element>)
    ensures |cs| <= |r|
    decreases cs
  {
    if cs == [] then [] else [cs[0]] + Preorder(cs[0].children) + Preorder(cs[1..])
  }

  /** `find('a', href=True)` over a forest: a depth-first search for a link anchor. */
  predicate AnyLinkAnchor(cs: seq<Element>)
    decreases cs
  {
    cs != [] && (IsLinkAnchor(cs[0]) || AnyLinkAnchor(cs[0].children) || AnyLinkAnchor(cs[1..]))
  }

  /** `tag.find('a', href=True)` succeeds: the search covers the proper descendants only. */
  predicate HasLinkedDescendant(e: Element) {
    AnyLinkAnchor(e.children)
  }

  /** The search finds a link anchor exactly when the forest, in document order, holds one. */
  lemma {:induction false} AnyLinkAnchorInPreorder(cs: seq<Element>)
    ensures AnyLinkAnchor(cs) <==> exists d :: d in Preorder(cs) && IsLinkAnchor(d)
    decreases cs
  {
    if cs != [] {
      AnyLinkAnchorInPreorder(cs[0].children);
      AnyLinkAnchorInPreorder(cs[1..]);
      var p := Preorder(cs);
      assert p == [cs[0]] + Preorder(cs[0].children) + Preorder(cs[1..]);
      if exists d :: d in p && IsLinkAnchor(d) {
        var d :| d in p && IsLinkAnchor(d);
        assert d == cs[0] || d in Preorder(cs[0].children) || d in Preorder(cs[1..]);
      }
    }
  }

  /** One element met by the walk, with its ancestors, nearest first, up to the
      top-level element under the document root. */
  datatype Visit = Visit(node: Element, ancestors: seq<Element>) {
    /** The node followed by its ancestors: what `current = current.parent` climbs. */
    function Chain(): seq<Element> { [node] + ancestors }
  }

  /** The tree walk: every element of `cs` in document order, each paired with its ancestors. */
  function Walk(cs: seq<Element>, ancestors: seq<Element>): (vs: seq<Visit>)
    ensures |vs| == |Preorder(cs)|
    ensures forall i :: 0 <= i < |vs| ==> vs[i].node == Preorder(cs)[i]
    decreases cs
  {
    if cs == [] then []
    else
      var head := [Visit(cs[0], ancestors)];
      var inner := Walk(cs[0].children, [cs[0]] + ancestors);
      var rest := Walk(cs[1..], ancestors);
      assert Preorder(cs) == [cs[0]] + Preorder(cs[0].children) + Preorder(cs[1..]);
      head + inner + rest
  }

  /** Each element of a chain is a child of the next one. */
  ghost predicate ParentLinked(chain: seq<Element>) {
    forall i :: 0 <= i < |chain| - 1 ==> chain[i] in chain[i + 1].children
  }

  /** The walk pairs each node with its true ancestor chain: each element of the chain is
      a child of the next, the chain ends with the given ancestors, and the element just
      before them is one of `cs`.  Started from the document's top-level elements with no
      ancestors, every chain therefore climbs all the way to a top-level element. */
  lemma {:induction false} WalkChainsAreAncestors(cs: seq<Element>, ancestors: seq<Element>)
    requires ParentLinked(ancestors)
    requires ancestors != [] ==> forall c :: c in cs ==> c in ancestors[0].children
    ensures forall v :: v in Walk(cs, ancestors) ==>
      ParentLinked(v.Chain()) && |v.ancestors| >= |ancestors| && v.ancestors[|v.ancestors| - |ancestors|..] == ancestors
    ensures forall v :: v in Walk(cs, ancestors) ==>
      |v.Chain()| > |ancestors| && v.Chain()[|v.Chain()| - |ancestors| - 1] in cs
    decreases cs
  {
    WalkEndsInForest(cs, ancestors);
    if cs != [] {
      var anc' := [cs[0]] + ancestors;
      assert ParentLinked(anc');
      WalkChainsAreAncestors(cs[0].children, anc');
      WalkChainsAreAncestors(cs[1..], ancestors);
      var v0 := Visit(cs[0], ancestors);
      assert ParentLinked(v0.Chain());
    }
  }

  /** Below the given ancestors, every chain of the walk starts in the walked forest. */
  lemma {:induction false} WalkEndsInForest(cs: seq<Element>, ancestors: seq<Element>)
    ensures forall v :: v in Walk(cs, ancestors) ==>
      && |v.ancestors| >= |ancestors|
      && v.ancestors[|v.ancestors| - |ancestors|..] == ancestors
      && v.Chain()[|v.Chain()| - |ancestors| - 1] in cs
    decreases cs
  {
    if cs != [] {
      var anc' := [cs[0]] + ancestors;
      var v0 := Visit(cs[0], ancestors);
      var inner := Walk(cs[0].children, anc');
      var rest := Walk(cs[1..], ancestors);
      assert Walk(cs, ancestors) == [v0] + inner + rest;
      WalkEndsInForest(cs[0].children, anc');
      WalkEndsInForest(cs[1..], ancestors);
      forall v | v in Walk(cs, ancestors)
        ensures |v.ancestors| >= |ancestors|
        ensures v.ancestors[|v.ancestors| - |ancestors|..] == ancestors
        ensures v.Chain()[|v.Chain()| - |ancestors| - 1] in cs
      {
        var n := |v.ancestors|;
        if v == v0 {
          assert v.ancestors[n - |ancestors|..] == ancestors;
          assert v.Chain()[0] == cs[0];
        } else if v in inner {
          assert v.ancestors[n - |anc'|..] == anc';
          assert v.ancestors[n - |ancestors|..] == v.ancestors[n - |anc'|..][1..];
          assert v.Chain()[|v.Chain()| - |ancestors| - 1] == v.ancestors[n - |anc'|] == cs[0];
        } else {
          assert v in rest;
          assert v.Chain()[|v.Chain()| - |ancestors| - 1] in cs[1..];
        }
      }
    }
  }
}
