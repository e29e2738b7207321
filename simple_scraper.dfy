/** The simpler suggestion engine of `simple_scraper_tool.py`.  It walks the document and
    builds selector paths exactly as the main engine does, but scores differently: `ul`/`ol`
    count as link containers, the anchor bonus is a substring test on the whole path, and
    each path keeps the largest score seen rather than the mean. */
module SimpleScraper {
  import opened Markup
  import opened Selectors
  import opened Scoring
  import opened Counting
  import opened Strings
  import opened Suggest

  /** The usefulness score of one element; the first matching rule wins.  Since `ul` and
      `ol` are already in the container set, the separate `ul`/`ol` rule that would give 60
      never fires: a list wrapper scores 80 or 30, as any other container. */
  function SimpleRawScore(e: Element): (score: int)
    ensures score in {10, 20, 30, 60, 70, 80, 100}
    ensures score == 100 <==> e.name == "a" && HasHref(e)
    ensures IsListWrapperTag(e.name) ==> score == (if HasLinkedDescendant(e) then 80 else 30)
    ensures !IsListWrapperTag(e.name) ==> score == RawScore(e)
  {
    if e.name == "a" && HasHref(e) then 100
    else if IsContainerTag(e.name) || IsListWrapperTag(e.name) then (if HasLinkedDescendant(e) then 80 else 30)
    else if IsListWrapperTag(e.name) then 60
    else if IsHeadingTag(e.name) then (if HasLinkedDescendant(e) then 70 else 20)
    else if HasHref(e) then 60
    else 10
  }

  /** `any(p in selector for p in ['li', 'ul', 'ol'])` */
  predicate MentionsList(selector: string) {
    Contains(selector, "li") || Contains(selector, "ul") || Contains(selector, "ol")
  }

  /** The preference score: 3 for an anchor, 2 for `li`/`ul`/`ol`, and one more for an
      anchor whose path mentions `li`, `ul` or `ol` anywhere. */
  function SimplePrefScore(e: Element, selector: string): (score: int)
    ensures score in {0, 2, 3, 4}
    ensures score == 4 <==> e.name == "a" && MentionsList(selector)
    ensures score == 3 <==> e.name == "a" && !MentionsList(selector)
    ensures score == 2 <==> IsListTag(e.name)
  {
    (if e.name == "a" then 3 else 0)
    + (if IsListTag(e.name) then 2 else 0)
    + (if e.name == "a" && MentionsList(selector) then 1 else 0)
  }

  /** A list tag heading one part of a joined path is a substring of the path. */
  lemma PartNameIsMentioned(ds: seq<string>, k: nat, name: string)
    requires k < |ds| && IsListTag(name) && StartsWith(ds[k], name)
    ensures MentionsList(Join(" > ", ds))
  {
    var path := Join(" > ", ds);
    var i := JoinOffset(" > ", ds, k);
    assert path[i..i + |name|] == ds[k][..|name|];
    OccursAtContains(path, name, i);
  }

  /** A list ancestor within the depth window puts its tag name into the path as a
      substring, so the substring test fires wherever the ancestor test does. */
  lemma ListAncestorIsMentioned(chain: seq<Element>, maxDepth: int)
    requires forall e :: e in chain ==> Readable(e)
    requires SelectorHasListAncestor(PathOf(chain, maxDepth))
    ensures MentionsList(PathOf(chain, maxDepth))
  {
    ListAncestorOfPath(chain, maxDepth);
    var j :| 1 <= j < PathLength(|chain|, maxDepth) && IsListTag(chain[j].name);
    ListElementIsMentioned(chain, maxDepth, j);
  }

  /** The descriptor of the `j`-th chain element inside the window starts with its name. */
  lemma ListElementIsMentioned(chain: seq<Element>, maxDepth: int, j: nat)
    requires j < PathLength(|chain|, maxDepth)
    requires Readable(chain[j]) && IsListTag(chain[j].name)
    ensures MentionsList(PathOf(chain, maxDepth))
  {
    var n := PathLength(|chain|, maxDepth);
    var ds := Descriptors(chain, n);
    DescriptorReadable(chain[j]);
    var k := n - 1 - j;
    assert ds[k] == Descriptor(chain[j]);
    PartNameIsMentioned(ds, k, chain[j].name);
  }

  /** So every anchor the main engine gives 4 gets 4 here too. */
  lemma SimplePrefAtLeastMain(v: Visit, maxDepth: int)
    requires forall e :: e in v.Chain() ==> Readable(e)
    ensures PrefScore(v.node, PathOf(v.Chain(), maxDepth)) <= SimplePrefScore(v.node, PathOf(v.Chain(), maxDepth))
  {
    if SelectorHasListAncestor(PathOf(v.Chain(), maxDepth)) {
      ListAncestorIsMentioned(v.Chain(), maxDepth);
    }
  }

  /** The converse fails: a top-level anchor whose own class contains `li` (such as
      `a.link`) has no list ancestor, yet the substring test sees `li` in its own
      descriptor and grants the bonus. */
  lemma OwnDescriptorTriggersBonus(e: Element, maxDepth: int, i: nat)
    requires e.name == "a" && Readable(e) && maxDepth >= 1
    requires OccursAt(Descriptor(e), "li", i)
    ensures PathOf([e], maxDepth) == Descriptor(e)
    ensures PrefScore(e, PathOf([e], maxDepth)) == 3
    ensures SimplePrefScore(e, PathOf([e], maxDepth)) == 4
  {
    var v := Visit(e, []);
    assert v.Chain() == [e];
    assert Descriptors([e], 1) == [Descriptor(e)];
    PrefScoreOfVisit(v, maxDepth);
    OccursAtContains(Descriptor(e), "li", i);
  }

  /** The usefulness score of each visited element. */
  function SimpleScores(visits: seq<Visit>): (ss: seq<int>)
    ensures |ss| == |visits|
  {
    MapSeq((v: Visit) => SimpleRawScore(v.node), visits)
  }

  /** The preference score of each visited element, judged on its own path. */
  function SimplePrefs(visits: seq<Visit>, maxDepth: int): (ps: seq<int>)
    ensures |ps| == |visits|
  {
    MapSeq((v: Visit) => SimplePrefScore(v.node, PathOf(v.Chain(), maxDepth)), visits)
  }

  lemma SimpleValuesAt(visits: seq<Visit>, maxDepth: int, i: nat)
    requires i < |visits|
    ensures SimpleScores(visits)[i] == SimpleRawScore(visits[i].node)
    ensures SimplePrefs(visits, maxDepth)[i] == SimplePrefScore(visits[i].node, PathOf(visits[i].Chain(), maxDepth))
  {
    MapSeqAt((v: Visit) => SimpleRawScore(v.node), visits, i);
    MapSeqAt((v: Visit) => SimplePrefScore(v.node, PathOf(v.Chain(), maxDepth)), visits, i);
  }

  /** `selector_ranking`: the largest usefulness score per path. */
  function PeakRanking(document: seq<Element>, maxDepth: int): map<string, int> {
    var vs := Visits(document);
    Peak(Paths(vs, maxDepth), SimpleScores(vs))
  }

  /** `selector_preference`: the largest preference score per path. */
  function PeakPreference(document: seq<Element>, maxDepth: int): map<string, int> {
    var vs := Visits(document);
    Peak(Paths(vs, maxDepth), SimplePrefs(vs, maxDepth))
  }

  /** The counting pass of the simple engine. */
  method SimpleCountersAndRanking(document: seq<Element>, maxDepth: int)
    returns (order: seq<string>, counter: map<string, int>,
             ranking: map<string, int>, preference: map<string, int>)
    ensures order == Order(document, maxDepth)
    ensures counter == Counts(document, maxDepth)
    ensures ranking == PeakRanking(document, maxDepth)
    ensures preference == PeakPreference(document, maxDepth)
  {
    var visits := Walk(document, []);
    ghost var paths := Paths(visits, maxDepth);
    ghost var scores := SimpleScores(visits);
    ghost var prefs := SimplePrefs(visits, maxDepth);
    order, counter := [], map[];
    ranking, preference := map[], map[];
    for i := 0 to |visits|
      invariant order == Distinct(paths[..i])
      invariant counter == Counter(paths[..i])
      invariant ranking == Peak(paths[..i], scores[..i])
      invariant preference == Peak(paths[..i], prefs[..i])
    {
      var tag := visits[i];
      var selector := SelectorPath(tag.Chain(), maxDepth);
      ValuesAt(visits, maxDepth, i);
      SimpleValuesAt(visits, maxDepth, i);
      CounterPrefixStep(paths, i);
      DistinctPrefixStep(paths, i);
      CounterKeysAreDistinct(paths[..i], selector);
      PeakPrefixStep(paths, scores, i);
      PeakPrefixStep(paths, prefs, i);
      if selector !in counter {
        order := order + [selector];
      }
      counter := Add(counter, selector, 1);
      var score := SimpleRawScore(tag.node);
      ranking := Raise(ranking, selector, score);
      var prefScore := SimplePrefScore(tag.node, selector);
      preference := Raise(preference, selector, prefScore);
    }
    TakeAll(paths);
    TakeAll(scores);
    TakeAll(prefs);
  }

  /** The per-element scores are what the peaks are taken over. */
  lemma SimpleValuesNonNegative(document: seq<Element>, maxDepth: int)
    ensures forall i :: 0 <= i < |Visits(document)| ==>
      0 <= SimpleScores(Visits(document))[i] && 0 <= SimplePrefs(Visits(document), maxDepth)[i]
  {
    var vs := Visits(document);
    forall i | 0 <= i < |vs| ensures 0 <= SimpleScores(vs)[i] && 0 <= SimplePrefs(vs, maxDepth)[i] {
      SimpleValuesAt(vs, maxDepth, i);
    }
  }

  /** Each path's ranking is the score of one of its elements and no element with that
      path scores higher; the dictionary has exactly the counter's keys. */
  lemma PeakRankingIsMax(document: seq<Element>, maxDepth: int)
    ensures PeakRanking(document, maxDepth).Keys == Counts(document, maxDepth).Keys
    ensures forall i :: 0 <= i < |Visits(document)| ==>
      Paths(Visits(document), maxDepth)[i] in PeakRanking(document, maxDepth) &&
      SimpleScores(Visits(document))[i] <= PeakRanking(document, maxDepth)[Paths(Visits(document), maxDepth)[i]]
    ensures forall k :: k in PeakRanking(document, maxDepth) ==>
      exists i :: 0 <= i < |Visits(document)| && Paths(Visits(document), maxDepth)[i] == k
        && SimpleScores(Visits(document))[i] == PeakRanking(document, maxDepth)[k]
  {
    var vs := Visits(document);
    var ps := Paths(vs, maxDepth);
    SimpleValuesNonNegative(document, maxDepth);
    PeakIsMax(ps, SimpleScores(vs));
    CounterIsOccurrences(ps);
  }

  /** Each path's preference is the score of one of its elements and no element with
      that path scores higher; the dictionary has exactly the counter's keys. */
  lemma PeakPreferenceIsMax(document: seq<Element>, maxDepth: int)
    ensures PeakPreference(document, maxDepth).Keys == Counts(document, maxDepth).Keys
    ensures forall i :: 0 <= i < |Visits(document)| ==>
      Paths(Visits(document), maxDepth)[i] in PeakPreference(document, maxDepth) &&
      SimplePrefs(Visits(document), maxDepth)[i] <= PeakPreference(document, maxDepth)[Paths(Visits(document), maxDepth)[i]]
    ensures forall k :: k in PeakPreference(document, maxDepth) ==>
      exists i :: 0 <= i < |Visits(document)| && Paths(Visits(document), maxDepth)[i] == k
        && SimplePrefs(Visits(document), maxDepth)[i] == PeakPreference(document, maxDepth)[k]
  {
    var vs := Visits(document);
    var ps := Paths(vs, maxDepth);
    SimpleValuesNonNegative(document, maxDepth);
    PeakIsMax(ps, SimplePrefs(vs, maxDepth));
    CounterIsOccurrences(ps);
  }

  /** Every ranking lies between 10 and 100 and every preference between 0 and 4. */
  lemma PeakBounds(document: seq<Element>, maxDepth: int)
    ensures forall k :: k in PeakRanking(document, maxDepth) ==> 10 <= PeakRanking(document, maxDepth)[k] <= 100
    ensures forall k :: k in PeakPreference(document, maxDepth) ==> 0 <= PeakPreference(document, maxDepth)[k] <= 4
  {
    var vs := Visits(document);
    var ss := SimpleScores(vs);
    var fs := SimplePrefs(vs, maxDepth);
    forall i | 0 <= i < |vs| ensures 10 <= ss[i] <= 100 && 0 <= fs[i] <= 4 {
      SimpleValuesAt(vs, maxDepth, i);
    }
    PeakRankingIsMax(document, maxDepth);
    PeakPreferenceIsMax(document, maxDepth);
  }

  /** The integer dictionaries as the numbers the shared summary works on. */
  function AsReal(m: map<string, int>): (r: map<string, real>)
    ensures r.Keys == m.Keys
    ensures forall k :: k in m ==> r[k] == m[k] as real
  {
    map k | k in m :: m[k] as real
  }
}
