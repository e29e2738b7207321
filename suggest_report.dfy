/** The nested-selector part of `suggest_scrapables`: the counting pass, the ranking sort
    and the summary table, put together over one parsed document. */
module SuggestReport {
  import opened Markup
  import opened Counting
  import opened Suggest
  import opened Summary

  /** `ranked_selectors` for a document: its counter's items by mean score, then count. */
  function Ranked(document: seq<Element>, maxDepth: int): seq<(string, int)> {
    RankedSelectors(Order(document, maxDepth), Counts(document, maxDepth), Ranking(document, maxDepth))
  }

  /** Every ranked selector is a path of the document, listed with its element count, and
      has a mean score and a mean preference. */
  lemma RankedEntries(document: seq<Element>, maxDepth: int)
    ensures forall i :: 0 <= i < |Ranked(document, maxDepth)| ==>
      var e := Ranked(document, maxDepth)[i];
      && e.0 in Counts(document, maxDepth)
      && e.1 == Counts(document, maxDepth)[e.0] > 0
      && e.0 in Ranking(document, maxDepth)
      && e.0 in Preference(document, maxDepth)
  {
    var order, counts := Order(document, maxDepth), Counts(document, maxDepth);
    var items := Items(order, counts);
    var ranked := Ranked(document, maxDepth);
    SortDescPermutes(items, RankKey(Ranking(document, maxDepth)));
    KeysAgree(document, maxDepth);
    CountsAreOccurrences(document, maxDepth);
    forall i | 0 <= i < |ranked|
      ensures ranked[i].0 in counts && ranked[i].1 == counts[ranked[i].0] > 0
    {
      var j := Source(ranked, items, i);
      assert order[j] in order;
    }
  }

  /** Where an element of a permutation came from. */
  lemma Source<T>(a: seq<T>, b: seq<T>, i: nat) returns (j: nat)
    requires multiset(a) == multiset(b) && i < |a|
    ensures j < |b| && b[j] == a[i]
  {
    assert a[i] in multiset(a);
    j :| 0 <= j < |b| && b[j] == a[i];
  }

  /** Every row of the table has a composite in [0, 1], so the first five rows get one of
      the six tiers by the intervals the table uses. */
  lemma ReportCompositesInRange(document: seq<Element>, maxDepth: int)
    ensures var ranked := Ranked(document, maxDepth);
      forall i :: 0 <= i < |ranked| ==>
        0.0 <= Composite(GetReal(Ranking(document, maxDepth), ranked[i].0),
                         GetReal(Preference(document, maxDepth), ranked[i].0), ranked[i].1,
                         MaxOrOne(Preference(document, maxDepth)), MaxCount(ranked)) <= 1.0
  {
    RankingBounds(document, maxDepth);
    PreferenceBounds(document, maxDepth);
    RankedEntries(document, maxDepth);
    ShownCompositesInRange(Ranked(document, maxDepth), Ranking(document, maxDepth), Preference(document, maxDepth));
  }

  /** The last three steps of `suggest_scrapables`: count and score the paths, sort the
      counter's items, and build the summary rows.  Each row shows a path of the document
      with its element count, a mean score in [10, 100] and a mean preference in [0, 4],
      and its composite lies in [0, 1]. */
  method SelectorReport(document: seq<Element>, maxDepth: int, topN: int) returns (rows: seq<Row>)
    ensures |rows| == |PyTake(Ranked(document, maxDepth), topN)|
    ensures forall i :: 0 <= i < |rows| ==>
      ShowsEntry(rows[i], Ranked(document, maxDepth)[i], i, Ranking(document, maxDepth),
                 Preference(document, maxDepth), MaxOrOne(Preference(document, maxDepth)),
                 MaxCount(Ranked(document, maxDepth)))
    ensures forall i :: 0 <= i < |rows| ==>
      && 10.0 <= rows[i].rank <= 100.0
      && 0.0 <= rows[i].pref <= 4.0
      && 1 <= rows[i].count
      && 0.0 <= Composite(rows[i].rank, rows[i].pref, rows[i].count,
                          MaxOrOne(Preference(document, maxDepth)), MaxCount(Ranked(document, maxDepth))) <= 1.0
  {
    var order, counter, ranking, preference := CountersAndRanking(document, maxDepth);
    var ranked := SortDesc(Items(order, counter), RankKey(ranking));
    rows := SelectorSummary(ranked, ranking, preference, topN);
    RankingBounds(document, maxDepth);
    PreferenceBounds(document, maxDepth);
    RankedEntries(document, maxDepth);
    ReportCompositesInRange(document, maxDepth);
  }
}
