/** The ranked report of the suggestion engine: the stable descending sorts of the
    counters, Python's `[:top_n]`, the composite score and its six tiers, and the rows
    of the nested-selector table. */
module Summary {
  import opened Opt
  import opened Counting

  /** A sort key compared lexicographically, as Python compares `(rank, count)` tuples. */
  datatype Key = Key(primary: real, secondary: int)

  /** `a > b` on keys. */
  predicate Above(a: Key, b: Key) {
    a.primary > b.primary || (a.primary == b.primary && a.secondary > b.secondary)
  }

  /** Insert `x` before the first element whose key is not above its own. */
  function Insert<T>(x: T, s: seq<T>, key: T -> Key): (r: seq<T>)
    ensures |r| == |s| + 1
  {
    if s == [] || !Above(key(s[0]), key(x)) then [x] + s
    else [s[0]] + Insert(x, s[1..], key)
  }

  /** `sorted(s, key=key, reverse=True)`: descending by key, equal keys in their original order. */
  function SortDesc<T>(s: seq<T>, key: T -> Key): (r: seq<T>)
    ensures |r| == |s|
  {
    if s == [] then [] else Insert(s[0], SortDesc(s[1..], key), key)
  }

  /** No element has a key above that of an element before it. */
  ghost predicate NonIncreasing<T>(s: seq<T>, key: T -> Key) {
    forall i, j :: 0 <= i < j < |s| ==> !Above(key(s[j]), key(s[i]))
  }

  /** The elements of `s` whose key is `k`, in order. */
  function WithKey<T>(s: seq<T>, key: T -> Key, k: Key): seq<T> {
    if s == [] then [] else (if key(s[0]) == k then [s[0]] else []) + WithKey(s[1..], key, k)
  }

  lemma {:induction false} InsertPermutes<T>(x: T, s: seq<T>, key: T -> Key)
    ensures multiset(Insert(x, s, key)) == multiset(s) + multiset{x}
  {
    if s != [] && Above(key(s[0]), key(x)) {
      InsertPermutes(x, s[1..], key);
      assert s == [s[0]] + s[1..];
    }
  }

  lemma {:induction false} InsertKeepsOrder<T>(x: T, s: seq<T>, key: T -> Key)
    requires NonIncreasing(s, key)
    ensures NonIncreasing(Insert(x, s, key), key)
  {
    if s != [] && Above(key(s[0]), key(x)) {
      assert NonIncreasing(s[1..], key) by {
        forall i, j | 0 <= i < j < |s[1..]| ensures !Above(key(s[1..][j]), key(s[1..][i])) {
          assert s[1..][i] == s[i + 1] && s[1..][j] == s[j + 1];
        }
      }
      InsertKeepsOrder(x, s[1..], key);
      InsertStaysBelow(x, s[1..], s[0], key);
      ConsKeepsOrder(s[0], Insert(x, s[1..], key), key);
    } else {
      if s != [] {
        forall j | 0 <= j < |s| ensures !Above(key(s[j]), key(x)) {
          assert !Above(key(s[j]), key(s[0]));
        }
      }
      ConsKeepsOrder(x, s, key);
    }
  }

  /** An element no lower than every element of a non-increasing list can head it. */
  lemma ConsKeepsOrder<T>(y: T, r: seq<T>, key: T -> Key)
    requires NonIncreasing(r, key)
    requires forall j :: 0 <= j < |r| ==> !Above(key(r[j]), key(y))
    ensures NonIncreasing([y] + r, key)
  {
    var out := [y] + r;
    forall i, j | 0 <= i < j < |out| ensures !Above(key(out[j]), key(out[i])) {
      assert out[j] == r[j - 1];
      if i > 0 {
        assert out[i] == r[i - 1];
      }
    }
  }

  /** Inserting an element below a bound into a list below that bound keeps it below. */
  lemma InsertStaysBelow<T>(x: T, s: seq<T>, y: T, key: T -> Key)
    requires !Above(key(x), key(y))
    requires forall j :: 0 <= j < |s| ==> !Above(key(s[j]), key(y))
    ensures forall j :: 0 <= j < |Insert(x, s, key)| ==> !Above(key(Insert(x, s, key)[j]), key(y))
  {
    var r := Insert(x, s, key);
    InsertPermutes(x, s, key);
    forall j | 0 <= j < |r| ensures !Above(key(r[j]), key(y)) {
      assert r[j] in multiset(s) + multiset{x};
      if r[j] != x {
        var m :| 0 <= m < |s| && s[m] == r[j];
      }
    }
  }

  lemma {:induction false} InsertWithKey<T>(x: T, s: seq<T>, key: T -> Key, k: Key)
    ensures WithKey(Insert(x, s, key), key, k)
         == (if key(x) == k then [x] else []) + WithKey(s, key, k)
  {
    if s != [] && Above(key(s[0]), key(x)) {
      InsertWithKey(x, s[1..], key, k);
      var r := Insert(x, s, key);
      assert r[1..] == Insert(x, s[1..], key);
    } else {
      var r := [x] + s;
      assert r[1..] == s;
    }
  }

  /** The sort is a permutation of its input. */
  lemma {:induction false} SortDescPermutes<T>(s: seq<T>, key: T -> Key)
    ensures multiset(SortDesc(s, key)) == multiset(s)
  {
    if s != [] {
      SortDescPermutes(s[1..], key);
      InsertPermutes(s[0], SortDesc(s[1..], key), key);
      assert s == [s[0]] + s[1..];
    }
  }

  /** The sort leaves the keys non-increasing. */
  lemma {:induction false} SortDescOrders<T>(s: seq<T>, key: T -> Key)
    ensures NonIncreasing(SortDesc(s, key), key)
  {
    if s != [] {
      SortDescOrders(s[1..], key);
      InsertKeepsOrder(s[0], SortDesc(s[1..], key), key);
    }
  }

  /** The sort is stable: the elements sharing a key keep their relative order. */
  lemma {:induction false} SortDescIsStable<T>(s: seq<T>, key: T -> Key, k: Key)
    ensures WithKey(SortDesc(s, key), key, k) == WithKey(s, key, k)
  {
    if s != [] {
      SortDescIsStable(s[1..], key, k);
      InsertWithKey(s[0], SortDesc(s[1..], key), key, k);
    }
  }

  /** Python's `s[:n]`: a negative `n` counts from the end. */
  function PyTake<T>(s: seq<T>, n: int): (r: seq<T>)
    ensures |r| <= |s| && r == s[..|r|]
    ensures n >= |s| ==> r == s
    ensures 0 <= n <= |s| ==> |r| == n
    ensures n < 0 ==> |r| == if |s| + n > 0 then |s| + n else 0
  {
    if n >= |s| then s
    else if n >= 0 then s[..n]
    else if |s| + n > 0 then s[..|s| + n]
    else []
  }

  /** `counter.items()` in insertion order. */
  function Items(keys: seq<string>, counts: map<string, int>): (r: seq<(string, int)>)
    ensures |r| == |keys|
    ensures forall i :: 0 <= i < |keys| ==> r[i] == (keys[i], Get(counts, keys[i]))
  {
    seq(|keys|, i requires 0 <= i < |keys| => (keys[i], Get(counts, keys[i])))
  }

  function CountKey(item: (string, int)): Key {
    Key(item.1 as real, 0)
  }

  /** `sorted(counts.items(), key=lambda x: -x[1])[:top_n]` (tag, class and id summaries):
      sorting ascending on the negated count is the stable descending sort on the count. */
  function TopCounts(keys: seq<string>, counts: map<string, int>, topN: int): seq<(string, int)> {
    PyTake(SortDesc(Items(keys, counts), CountKey), topN)
  }

  /** The rows shown are the most frequent: no row left out has a higher count than a row
      shown, and the shown rows run from the highest count down. */
  lemma TopCountsAreTop(keys: seq<string>, counts: map<string, int>, topN: int)
    ensures var sorted := SortDesc(Items(keys, counts), CountKey);
      var top := TopCounts(keys, counts, topN);
      top == sorted[..|top|] &&
      multiset(sorted) == multiset(Items(keys, counts)) &&
      (forall i, j :: 0 <= i < j < |sorted| ==> sorted[j].1 <= sorted[i].1)
  {
    var sorted := SortDesc(Items(keys, counts), CountKey);
    SortDescPermutes(Items(keys, counts), CountKey);
    SortDescOrders(Items(keys, counts), CountKey);
    forall i, j | 0 <= i < j < |sorted| ensures sorted[j].1 <= sorted[i].1 {
      assert !Above(CountKey(sorted[j]), CountKey(sorted[i]));
    }
  }

  /** `m.get(k, 0)` on the mean-score dictionaries. */
  function GetReal(m: map<string, real>, k: string): real {
    if k in m then m[k] else 0.0
  }

  /** The sort key of `ranked_selectors`: `(selector_ranking.get(sel, 0), count)`. */
  function RankKey(ranking: map<string, real>): ((string, int)) -> Key {
    (item: (string, int)) => Key(GetReal(ranking, item.0), item.1)
  }

  /** `ranked_selectors`: the counter's items by mean score, then by count, highest first. */
  function RankedSelectors(order: seq<string>, counter: map<string, int>, ranking: map<string, real>): seq<(string, int)> {
    SortDesc(Items(order, counter), RankKey(ranking))
  }

  /** The ranking holds every counted path once, best first, and paths that tie on both
      score and count stay in the order they were first met. */
  lemma RankedSelectorsOrder(order: seq<string>, counter: map<string, int>, ranking: map<string, real>, k: Key)
    ensures var r := RankedSelectors(order, counter, ranking);
      multiset(r) == multiset(Items(order, counter)) &&
      NonIncreasing(r, RankKey(ranking)) &&
      WithKey(r, RankKey(ranking), k) == WithKey(Items(order, counter), RankKey(ranking), k)
  {
    SortDescPermutes(Items(order, counter), RankKey(ranking));
    SortDescOrders(Items(order, counter), RankKey(ranking));
    SortDescIsStable(Items(order, counter), RankKey(ranking), k);
  }

  /** The six tiers of `composite_emoji`, best first. */
  datatype Tier = Trophy | Gold | Silver | Bronze | Medal | Plain

  function Emoji(t: Tier): string {
    match t
    case Trophy => "\U{1F3C6}"
    case Gold => "\U{1F947}"
    case Silver => "\U{1F948}"
    case Bronze => "\U{1F949}"
    case Medal => "\U{1F396}\U{FE0F}"
    case Plain => "\U{1F538}"
  }

  /** 0 for the best tier, 5 for the lowest. */
  function Level(t: Tier): nat {
    match t
    case Trophy => 0
    case Gold => 1
    case Silver => 2
    case Bronze => 3
    case Medal => 4
    case Plain => 5
  }

  /** The tier of a composite score: each tier is a half-open interval, open at the bottom. */
  function TierOf(composite: real): (t: Tier)
    ensures t == Trophy <==> composite > 0.9
    ensures t == Gold <==> 0.75 < composite <= 0.9
    ensures t == Silver <==> 0.6 < composite <= 0.75
    ensures t == Bronze <==> 0.4 < composite <= 0.6
    ensures t == Medal <==> 0.2 < composite <= 0.4
    ensures t == Plain <==> composite <= 0.2
  {
    if composite > 0.9 then Trophy
    else if composite > 0.75 then Gold
    else if composite > 0.6 then Silver
    else if composite > 0.4 then Bronze
    else if composite > 0.2 then Medal
    else Plain
  }

  /** A higher composite never earns a lower tier. */
  lemma TierMonotone(a: real, b: real)
    requires a <= b
    ensures Level(TierOf(b)) <= Level(TierOf(a))
  {
  }

  const MaxRank: real := 100.0

  /** `0.5 * rank_norm + 0.3 * pref_norm + 0.2 * count_norm`, a zero maximum giving a zero term. */
  function Composite(rank: real, pref: real, count: int, maxPref: real, maxCount: int): real {
    var rankNorm := rank / MaxRank;
    var prefNorm := if maxPref != 0.0 then pref / maxPref else 0.0;
    var countNorm := if maxCount != 0 then (count as real) / (maxCount as real) else 0.0;
    0.5 * rankNorm + 0.3 * prefNorm + 0.2 * countNorm
  }

  /** A value between zero and a positive maximum, over that maximum, is a fraction. */
  lemma DivSelf(x: real)
    requires x > 0.0
    ensures x / x == 1.0
  {
  }

  lemma Fraction(x: real, top: real)
    requires 0.0 <= x <= top && top > 0.0
    ensures 0.0 <= x / top <= 1.0
  {
    assert x / top * top == x;
  }

  /** With each input between zero and its maximum the composite is a fraction, and the
      best possible row scores exactly 1. */
  lemma CompositeRange(rank: real, pref: real, count: int, maxPref: real, maxCount: int)
    requires 0.0 <= rank <= MaxRank
    requires 0.0 <= pref && (maxPref > 0.0 ==> pref <= maxPref)
    requires 0 <= count && (maxCount > 0 ==> count <= maxCount)
    requires maxPref >= 0.0 && maxCount >= 0
    ensures 0.0 <= Composite(rank, pref, count, maxPref, maxCount) <= 1.0
    ensures rank == MaxRank && pref == maxPref > 0.0 && count == maxCount > 0 ==>
      Composite(rank, pref, count, maxPref, maxCount) == 1.0
  {
    Fraction(rank, MaxRank);
    if maxPref != 0.0 {
      Fraction(pref, maxPref);
      if pref == maxPref {
        DivSelf(maxPref);
      }
    }
    if maxCount != 0 {
      Fraction(count as real, maxCount as real);
      if count == maxCount {
        DivSelf(maxCount as real);
      }
    }
  }

  /** `v` is the largest value of `m`. */
  ghost predicate IsMax(m: map<string, real>, v: real) {
    (exists k :: k in m && m[k] == v) && forall k :: k in m ==> m[k] <= v
  }

  lemma {:induction false} MaxExists(m: map<string, real>)
    requires m != map[]
    ensures exists v :: IsMax(m, v)
    decreases |m.Keys|
  {
    var k :| k in m;
    var rest := m - {k};
    assert |rest.Keys| < |m.Keys| by {
      assert rest.Keys == m.Keys - {k};
    }
    if rest == map[] {
      assert forall j :: j in m ==> j == k;
      assert IsMax(m, m[k]);
    } else {
      MaxExists(rest);
      var v :| IsMax(rest, v);
      assert forall j :: j in m ==> j == k || j in rest;
      if m[k] > v {
        assert IsMax(m, m[k]);
      } else {
        assert IsMax(m, v);
      }
    }
  }

  /** `max(m.values()) if m else 1` */
  ghost function MaxOrOne(m: map<string, real>): (top: real)
    ensures m == map[] ==> top == 1.0
    ensures m != map[] ==> IsMax(m, top)
  {
    if m == map[] then 1.0
    else
      MaxExists(m);
      var v :| IsMax(m, v);
      v
  }

  /** `max(selector_preference.values()) if selector_preference else 1`, by a pass over the keys. */
  method MaxPref(m: map<string, real>) returns (top: real)
    ensures top == MaxOrOne(m)
  {
    if |m.Keys| == 0 {
      assert m == map[];
      return 1.0;
    }
    var k0 :| k0 in m;
    top := m[k0];
    var rest := m.Keys - {k0};
    while rest != {}
      invariant rest <= m.Keys
      invariant exists k :: k in m && m[k] == top
      invariant forall k :: k in m && k !in rest ==> m[k] <= top
      decreases rest
    {
      var k :| k in rest;
      if m[k] > top {
        top := m[k];
      }
      rest := rest - {k};
    }
    assert IsMax(m, top);
    assert top <= MaxOrOne(m) <= top;
  }

  /** `max([count for _, count in ranked]) if ranked else 1` */
  function MaxCount(ranked: seq<(string, int)>): (top: int)
    ensures ranked == [] ==> top == 1
    ensures ranked != [] ==> (exists i :: 0 <= i < |ranked| && ranked[i].1 == top)
    ensures forall i :: 0 <= i < |ranked| ==> ranked[i].1 <= top
  {
    if ranked == [] then 1
    else if |ranked| == 1 then ranked[0].1
    else
      var rest := MaxCount(ranked[1..]);
      assert forall i :: 1 <= i < |ranked| ==> ranked[i] == ranked[1..][i - 1];
      if ranked[0].1 >= rest then ranked[0].1 else rest
  }

  /** `f"{sel:<50.50}"`: cut to 50 characters, then padded with spaces to 50. */
  function Label(sel: string): (r: string)
    ensures |r| == 50
    ensures |sel| <= 50 ==> r[..|sel|] == sel && forall i :: |sel| <= i < 50 ==> r[i] == ' '
    ensures |sel| > 50 ==> r == sel[..50]
  {
    var cut := if |sel| > 50 then sel[..50] else sel;
    cut + seq(50 - |cut|, _ => ' ')
  }

  /** One printed row of the nested-selector table. */
  datatype Row = Row(cell: string, rank: real, pref: real, count: int, tier: Option<Tier>)

  /** The composite of every ranked selector lies in [0, 1] when the mean scores lie in
      [0, `MaxRank`] and no preference or count is negative: the maxima the table divides
      by are those of the same dictionary and list. */
  lemma ShownCompositesInRange(ranked: seq<(string, int)>, ranking: map<string, real>,
                               preference: map<string, real>)
    requires forall k :: k in ranking ==> 0.0 <= ranking[k] <= MaxRank
    requires forall k :: k in preference ==> 0.0 <= preference[k]
    requires forall i :: 0 <= i < |ranked| ==> 0 <= ranked[i].1
    ensures forall i :: 0 <= i < |ranked| ==>
      0.0 <= Composite(GetReal(ranking, ranked[i].0), GetReal(preference, ranked[i].0), ranked[i].1,
                       MaxOrOne(preference), MaxCount(ranked)) <= 1.0
  {
    var maxPref := MaxOrOne(preference);
    var maxCount := MaxCount(ranked);
    forall i | 0 <= i < |ranked|
      ensures 0.0 <= Composite(GetReal(ranking, ranked[i].0), GetReal(preference, ranked[i].0), ranked[i].1,
                               maxPref, maxCount) <= 1.0
    {
      var e := ranked[i];
      var pref := GetReal(preference, e.0);
      if preference != map[] {
        var k :| k in preference && preference[k] == maxPref;
        assert 0.0 <= maxPref;
        assert pref <= maxPref;
      }
      assert 0 <= e.1 <= maxCount;
      CompositeRange(GetReal(ranking, e.0), pref, e.1, maxPref, maxCount);
    }
  }

  /** Row `i` of the table shows `entry`: the selector cell, the looked-up mean scores,
      the count, and a tier only among the first five rows. */
  ghost predicate ShowsEntry(row: Row, entry: (string, int), i: int, ranking: map<string, real>,
                             preference: map<string, real>, maxPref: real, maxCount: int) {
    row.cell == Label(entry.0) &&
    row.rank == GetReal(ranking, entry.0) &&
    row.pref == GetReal(preference, entry.0) &&
    row.count == entry.1 &&
    row.tier == (if i < 5 then Some(TierOf(Composite(row.rank, row.pref, row.count, maxPref, maxCount))) else None)
  }

  /** The loop of `print_selector_summary`: one row per selector among the first `top_n`. */
  method SelectorSummary(ranked: seq<(string, int)>, ranking: map<string, real>,
                         preference: map<string, real>, topN: int) returns (rows: seq<Row>)
    ensures |rows| == |PyTake(ranked, topN)|
    ensures forall i :: 0 <= i < |rows| ==>
      ShowsEntry(rows[i], PyTake(ranked, topN)[i], i, ranking, preference, MaxOrOne(preference), MaxCount(ranked))
  {
    rows := [];
    if ranked == [] {
      return;
    }
    var maxPref := MaxPref(preference);
    var maxCount := MaxCount(ranked);
    var shown := PyTake(ranked, topN);
    for i := 0 to |shown|
      invariant |rows| == i
      invariant forall j :: 0 <= j < i ==> ShowsEntry(rows[j], shown[j], j, ranking, preference, maxPref, maxCount)
    {
      var sel := shown[i].0;
      var count := shown[i].1;
      var rank := GetReal(ranking, sel);
      var pref := GetReal(preference, sel);
      var tier := if i < 5 then Some(TierOf(Composite(rank, pref, count, maxPref, maxCount))) else None;
      rows := rows + [Row(Label(sel), rank, pref, count, tier)];
    }
  }
}
