/** `get_selector_counters_and_ranking`: one pass over every element of the document,
    counting each element's selector path and summing its two scores per path, then
    dividing the sums by the counts. */
module Suggest {
  import opened Markup
  import opened Selectors
  import opened Scoring
  import opened Counting
  import opened Strings

  /** The path of each visited element, in document order. */
  function Paths(visits: seq<Visit>, maxDepth: int): (ps: seq<string>)
    ensures |ps| == |visits|
  {
    MapSeq((v: Visit) => PathOf(v.Chain(), maxDepth), visits)
  }

  /** The usefulness score of each visited element. */
  function Scores(visits: seq<Visit>): (ss: seq<int>)
    ensures |ss| == |visits|
  {
    MapSeq((v: Visit) => RawScore(v.node), visits)
  }

  /** The preference score of each visited element, judged on its own path. */
  function Prefs(visits: seq<Visit>, maxDepth: int): (ps: seq<int>)
    ensures |ps| == |visits|
  {
    MapSeq((v: Visit) => PrefScore(v.node, PathOf(v.Chain(), maxDepth)), visits)
  }

  /** The three per-element values of the `i`-th visited element. */
  lemma ValuesAt(visits: seq<Visit>, maxDepth: int, i: nat)
    requires i < |visits|
    ensures Paths(visits, maxDepth)[i] == PathOf(visits[i].Chain(), maxDepth)
    ensures Scores(visits)[i] == RawScore(visits[i].node)
    ensures Prefs(visits, maxDepth)[i] == PrefScore(visits[i].node, PathOf(visits[i].Chain(), maxDepth))
  {
    MapSeqAt((v: Visit) => PathOf(v.Chain(), maxDepth), visits, i);
    MapSeqAt((v: Visit) => RawScore(v.node), visits, i);
    MapSeqAt((v: Visit) => PrefScore(v.node, PathOf(v.Chain(), maxDepth)), visits, i);
  }

  /** `{sel: totals[sel] / counts[sel] for sel in counts}` */
  function Averages(totals: map<string, int>, counts: map<string, int>): (avg: map<string, real>)
    requires forall k :: k in counts ==> k in totals && counts[k] > 0
    ensures avg.Keys == counts.Keys
    ensures forall k :: k in avg ==> avg[k] * (counts[k] as real) == totals[k] as real
  {
    map k | k in counts :: (totals[k] as real) / (counts[k] as real)
  }

  /** The walk of the whole document: `soup.find_all(True)` with each element's ancestors. */
  function Visits(document: seq<Element>): seq<Visit> {
    Walk(document, [])
  }

  /** The counter's keys in insertion order. */
  function Order(document: seq<Element>, maxDepth: int): seq<string> {
    Distinct(Paths(Visits(document), maxDepth))
  }

  /** `selector_counter`: how many elements have each path. */
  function Counts(document: seq<Element>, maxDepth: int): map<string, int> {
    var vs := Visits(document);
    Counter(Paths(vs, maxDepth))
  }

  lemma CountsArePositive(document: seq<Element>, maxDepth: int, totals: seq<int>)
    requires |totals| == |Visits(document)|
    ensures forall k :: k in Counts(document, maxDepth) ==>
      k in Tally(Paths(Visits(document), maxDepth), totals) && Counts(document, maxDepth)[k] > 0
  {
    var vs := Visits(document);
    var ps := Paths(vs, maxDepth);
    CounterIsOccurrences(ps);
    TallyIsSum(ps, totals);
  }

  /** `selector_ranking`: the mean usefulness score per path. */
  function Ranking(document: seq<Element>, maxDepth: int): map<string, real> {
    var vs := Visits(document);
    CountsArePositive(document, maxDepth, Scores(vs));
    Averages(Tally(Paths(vs, maxDepth), Scores(vs)), Counts(document, maxDepth))
  }

  /** `selector_preference`: the mean preference score per path. */
  function Preference(document: seq<Element>, maxDepth: int): map<string, real> {
    var vs := Visits(document);
    CountsArePositive(document, maxDepth, Prefs(vs, maxDepth));
    Averages(Tally(Paths(vs, maxDepth), Prefs(vs, maxDepth)), Counts(document, maxDepth))
  }

  /** The counting pass.  `order` is the counter's insertion order, which the later
      stable sort keeps for ties. */
  method CountersAndRanking(document: seq<Element>, maxDepth: int)
    returns (order: seq<string>, counter: map<string, int>,
             ranking: map<string, real>, preference: map<string, real>)
    ensures order == Order(document, maxDepth)
    ensures counter == Counts(document, maxDepth)
    ensures ranking == Ranking(document, maxDepth)
    ensures preference == Preference(document, maxDepth)
  {
    var visits := Walk(document, []);
    ghost var paths := Paths(visits, maxDepth);
    ghost var scores := Scores(visits);
    ghost var prefs := Prefs(visits, maxDepth);
    order, counter := [], map[];
    var rankTotals: map<string, int> := map[];
    var prefTotals: map<string, int> := map[];
    for i := 0 to |visits|
      invariant order == Distinct(paths[..i])
      invariant counter == Counter(paths[..i])
      invariant rankTotals == Tally(paths[..i], scores[..i])
      invariant prefTotals == Tally(paths[..i], prefs[..i])
    {
      var tag := visits[i];
      var selector := SelectorPath(tag.Chain(), maxDepth);
      ValuesAt(visits, maxDepth, i);
      CounterPrefixStep(paths, i);
      DistinctPrefixStep(paths, i);
      CounterKeysAreDistinct(paths[..i], selector);
      TallyPrefixStep(paths, scores, i);
      TallyPrefixStep(paths, prefs, i);
      if selector !in counter {
        order := order + [selector];
      }
      counter := Add(counter, selector, 1);
      var score := RawScore(tag.node);
      rankTotals := Add(rankTotals, selector, score);
      var prefScore := PrefScore(tag.node, selector);
      prefTotals := Add(prefTotals, selector, prefScore);
    }
    TakeAll(paths);
    TakeAll(scores);
    TakeAll(prefs);
    CountsArePositive(document, maxDepth, scores);
    CountsArePositive(document, maxDepth, prefs);
    ranking := Averages(rankTotals, counter);
    preference := Averages(prefTotals, counter);
  }

  /** The counter has one entry per distinct path, holding how many elements have it. */
  lemma CountsAreOccurrences(document: seq<Element>, maxDepth: int)
    ensures forall k :: k in Counts(document, maxDepth) <==> k in Paths(Visits(document), maxDepth)
    ensures forall k :: k in Counts(document, maxDepth) ==>
      Counts(document, maxDepth)[k] == Occurrences(Paths(Visits(document), maxDepth), k) > 0
  {
    var ps := Paths(Visits(document), maxDepth);
    CounterIsOccurrences(ps);
  }

  /** The three dictionaries share their keys, and the counter's key order lists each of
      them once; there are never more distinct paths than elements. */
  lemma KeysAgree(document: seq<Element>, maxDepth: int)
    ensures Ranking(document, maxDepth).Keys == Counts(document, maxDepth).Keys
    ensures Preference(document, maxDepth).Keys == Counts(document, maxDepth).Keys
    ensures forall k :: k in Order(document, maxDepth) <==> k in Counts(document, maxDepth)
    ensures NoDuplicates(Order(document, maxDepth))
    ensures |Order(document, maxDepth)| <= |Preorder(document)|
  {
    var ps := Paths(Visits(document), maxDepth);
    CounterIsOccurrences(ps);
    DistinctKeys(ps);
  }

  /** Every element is counted once: the counts add up to the number of elements. */
  lemma CountsCoverDocument(document: seq<Element>, maxDepth: int)
    ensures SumValues(Order(document, maxDepth), Counts(document, maxDepth)) == |Preorder(document)|
  {
    CounterAddsUp(Paths(Visits(document), maxDepth));
  }

  /** A mean of `count` values each within `[lo, hi]` lies within `[lo, hi]`. */
  lemma MeanBounds(mean: real, count: int, total: int, lo: int, hi: int)
    requires count > 0
    requires mean * (count as real) == total as real
    requires lo * count <= total <= hi * count
    ensures lo as real <= mean <= hi as real
  {
    var c := count as real;
    assert (lo as real) * c <= mean * c;
    assert mean * c <= (hi as real) * c;
  }

  /** Totals within `lo` and `hi` times their counts give means within `[lo, hi]`. */
  lemma AveragesWithin(totals: map<string, int>, counts: map<string, int>, lo: int, hi: int)
    requires forall k :: k in counts ==> k in totals && counts[k] > 0
    requires forall k :: k in counts ==> lo * counts[k] <= totals[k] <= hi * counts[k]
    ensures forall k :: k in Averages(totals, counts) ==>
      lo as real <= Averages(totals, counts)[k] <= hi as real
  {
    var avg := Averages(totals, counts);
    forall k | k in avg ensures lo as real <= avg[k] <= hi as real {
      MeanBounds(avg[k], counts[k], totals[k], lo, hi);
    }
  }

  /** The per-path totals of values within `[lo, hi]` lie within `lo` and `hi` times the counts. */
  lemma TotalsBounded(document: seq<Element>, maxDepth: int, vals: seq<int>, lo: int, hi: int)
    requires |vals| == |Visits(document)|
    requires forall i :: 0 <= i < |vals| ==> lo <= vals[i] <= hi
    ensures forall k :: k in Counts(document, maxDepth) ==>
      k in Tally(Paths(Visits(document), maxDepth), vals) &&
      lo * Counts(document, maxDepth)[k] <= Tally(Paths(Visits(document), maxDepth), vals)[k] <= hi * Counts(document, maxDepth)[k]
  {
    var ps := Paths(Visits(document), maxDepth);
    CountsAreOccurrences(document, maxDepth);
    TallyIsSum(ps, vals);
    forall k | k in Counts(document, maxDepth)
      ensures lo * Counts(document, maxDepth)[k] <= Tally(ps, vals)[k] <= hi * Counts(document, maxDepth)[k]
    {
      SumForBounds(ps, vals, k, lo, hi);
    }
  }

  /** Every usefulness score lies in `[10, 100]`. */
  lemma ScoresWithin(vs: seq<Visit>)
    ensures forall i :: 0 <= i < |Scores(vs)| ==> 10 <= Scores(vs)[i] <= 100
  {
    forall i | 0 <= i < |vs| ensures 10 <= Scores(vs)[i] <= 100 {
      MapSeqAt((v: Visit) => RawScore(v.node), vs, i);
    }
  }

  /** Every preference score lies in `[0, 4]`. */
  lemma PrefsWithin(vs: seq<Visit>, maxDepth: int)
    ensures forall i :: 0 <= i < |Prefs(vs, maxDepth)| ==> 0 <= Prefs(vs, maxDepth)[i] <= 4
  {
    forall i | 0 <= i < |vs| ensures 0 <= Prefs(vs, maxDepth)[i] <= 4 {
      MapSeqAt((v: Visit) => PrefScore(v.node, PathOf(v.Chain(), maxDepth)), vs, i);
    }
  }

  /** Every mean usefulness score is between the lowest and the highest score. */
  lemma RankingBounds(document: seq<Element>, maxDepth: int)
    ensures forall k :: k in Ranking(document, maxDepth) ==> 10.0 <= Ranking(document, maxDepth)[k] <= 100.0
  {
    var vs := Visits(document);
    var ss := Scores(vs);
    ScoresWithin(vs);
    TotalsBounded(document, maxDepth, ss, 10, 100);
    CountsAreOccurrences(document, maxDepth);
    AveragesWithin(Tally(Paths(vs, maxDepth), ss), Counts(document, maxDepth), 10, 100);
  }

  /** Every mean preference score is between 0 and 4. */
  lemma PreferenceBounds(document: seq<Element>, maxDepth: int)
    ensures forall k :: k in Preference(document, maxDepth) ==> 0.0 <= Preference(document, maxDepth)[k] <= 4.0
  {
    var vs := Visits(document);
    var ps := Prefs(vs, maxDepth);
    PrefsWithin(vs, maxDepth);
    TotalsBounded(document, maxDepth, ps, 0, 4);
    CountsAreOccurrences(document, maxDepth);
    AveragesWithin(Tally(Paths(vs, maxDepth), ps), Counts(document, maxDepth), 0, 4);
  }
}
