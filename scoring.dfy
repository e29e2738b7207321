/** The two per-element scores of the selector-suggestion engine: the first-match
    usefulness score and the additive list/anchor preference score. */
module Scoring {
  import opened Markup
  import opened Selectors

  /** Tags that score as link containers. */
  predicate IsContainerTag(n: string) {
    n == "li" || n == "div" || n == "span" || n == "td" || n == "tr"
  }

  predicate IsListWrapperTag(n: string) {
    n == "ul" || n == "ol"
  }

  predicate IsHeadingTag(n: string) {
    n == "h1" || n == "h2" || n == "h3" || n == "h4" || n == "h5" || n == "h6"
  }

  /** The usefulness score of one element; the first matching rule wins.  The top score
      goes to exactly the anchors with a non-empty href, a score above the container
      floor needs a link (the element's own href or a linked descendant), and without
      any link in sight the score is one of the floors. */
  function RawScore(e: Element): (score: int)
    ensures score in {10, 20, 25, 30, 60, 70, 80, 100}
    ensures score == 100 <==> e.name == "a" && HasHref(e)
    ensures score > 30 ==> HasHref(e) || HasLinkedDescendant(e)
    ensures !HasHref(e) && !HasLinkedDescendant(e) ==> score in {10, 20, 25, 30}
  {
    if e.name == "a" && HasHref(e) then 100
    else if IsContainerTag(e.name) then (if HasLinkedDescendant(e) then 80 else 30)
    else if IsListWrapperTag(e.name) then (if HasLinkedDescendant(e) then 60 else 25)
    else if IsHeadingTag(e.name) then (if HasLinkedDescendant(e) then 70 else 20)
    else if HasHref(e) then 60
    else 10
  }

  /** Each kind of element scores higher with a linked descendant than without. */
  lemma LinkedDescendantRaisesScore(e: Element, f: Element)
    requires e.name == f.name && e.href == f.href
    requires HasLinkedDescendant(e) && !HasLinkedDescendant(f)
    ensures RawScore(e) >= RawScore(f)
    ensures IsContainerTag(e.name) || IsListWrapperTag(e.name) || IsHeadingTag(e.name)
      ==> RawScore(e) > RawScore(f)
  {
  }

  /** `get_selector_preference_score`: 3 for an anchor, 2 for `li`/`ul`/`ol`, and one
      more for an anchor whose path has a list ancestor. */
  function PrefScore(e: Element, selector: string): (score: int)
    ensures score in {0, 2, 3, 4}
    ensures score == 4 <==> e.name == "a" && SelectorHasListAncestor(selector)
    ensures score == 2 <==> e.name == "li" || IsListWrapperTag(e.name)
    ensures score == 0 <==> e.name != "a" && e.name != "li" && !IsListWrapperTag(e.name)
  {
    (if e.name == "a" then 3 else 0)
    + (if e.name == "li" || IsListWrapperTag(e.name) then 2 else 0)
    + (if e.name == "a" && SelectorHasListAncestor(selector) then 1 else 0)
  }

  /** On the engine's own path the bonus goes to an anchor exactly when one of its
      ancestors within the depth window is a list element. */
  lemma PrefScoreOfVisit(v: Visit, maxDepth: int)
    requires forall e :: e in v.Chain() ==> Readable(e)
    ensures PrefScore(v.node, PathOf(v.Chain(), maxDepth)) == 4
        <==> v.node.name == "a"
             && exists j :: 1 <= j < PathLength(|v.Chain()|, maxDepth) && IsListTag(v.Chain()[j].name)
  {
    ListAncestorOfPath(v.Chain(), maxDepth);
  }
}
