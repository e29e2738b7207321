/** Insertion-ordered counters (Python `Counter` and `dict.get(k, 0) + v` accumulation),
    modelled by the keys met so far and a map from each key to its running total. */
module Counting {
  import opened Strings

  /** The total that `counter[k] += v` leaves for key `k` after one pass over the pairs
      `keys[i], vals[i]`: the sum of the values met with `k`. */
  function SumFor<K(==)>(keys: seq<K>, vals: seq<int>, k: K): int
    requires |keys| == |vals|
  {
    if keys == [] then 0
    else
      var n := |keys| - 1;
      SumFor(keys[..n], vals[..n], k) + (if keys[n] == k then vals[n] else 0)
  }

  /** How many times `k` occurs in `keys`. */
  function Occurrences<K(==)>(keys: seq<K>, k: K): (c: nat)
    ensures c <= |keys|
    ensures c == 0 <==> k !in keys
  {
    if keys == [] then 0
    else
      var n := |keys| - 1;
      assert keys == keys[..n] + [keys[n]];
      Occurrences(keys[..n], k) + (if keys[n] == k then 1 else 0)
  }

  /** `m.get(k, 0)` */
  function Get<K(==)>(m: map<K, int>, k: K): int {
    if k in m then m[k] else 0
  }

  /** `m[k] = m.get(k, 0) + v` */
  function Add<K(==)>(m: map<K, int>, k: K, v: int): (r: map<K, int>)
    ensures r.Keys == m.Keys + {k}
    ensures r[k] == Get(m, k) + v
    ensures forall j :: j in m && j != k ==> r[j] == m[j]
  {
    m[k := Get(m, k) + v]
  }

  /** The counter left by the accumulation loop: one step per pair, in order. */
  function Tally<K(==)>(keys: seq<K>, vals: seq<int>): map<K, int>
    requires |keys| == |vals|
  {
    if keys == [] then map[]
    else
      var n := |keys| - 1;
      var m := Tally(keys[..n], vals[..n]);
      Add(m, keys[n], vals[n])
  }

  /** One more step of the accumulation loop. */
  lemma TallySnoc<K>(keys: seq<K>, vals: seq<int>, x: K, v: int)
    requires |keys| == |vals|
    ensures Tally(keys + [x], vals + [v]) == Add(Tally(keys, vals), x, v)
  {
    assert (keys + [x])[..|keys|] == keys;
    assert (vals + [v])[..|vals|] == vals;
  }

  /** The accumulation loop's step from the prefix of length `i` to the next one. */
  lemma TallyPrefixStep<K>(keys: seq<K>, vals: seq<int>, i: nat)
    requires |keys| == |vals| && i < |keys|
    ensures Tally(keys[..i + 1], vals[..i + 1])
         == Add(Tally(keys[..i], vals[..i]), keys[i], vals[i])
  {
    assert keys[..i + 1][..i] == keys[..i];
    assert vals[..i + 1][..i] == vals[..i];
  }

  /** The counter left by `counter[k] = counter.get(k, 0) + 1` over `keys`, in order. */
  function Counter<K(==)>(keys: seq<K>): map<K, int> {
    if keys == [] then map[]
    else
      var n := |keys| - 1;
      Add(Counter(keys[..n]), keys[n], 1)
  }

  lemma CounterPrefixStep<K>(keys: seq<K>, i: nat)
    requires i < |keys|
    ensures Counter(keys[..i + 1]) == Add(Counter(keys[..i]), keys[i], 1)
  {
    assert keys[..i + 1][..i] == keys[..i];
  }

  /** The keys of a counter in the order they were first met (dict insertion order). */
  function Distinct<K(==)>(keys: seq<K>): seq<K> {
    if keys == [] then []
    else
      var n := |keys| - 1;
      var d := Distinct(keys[..n]);
      if keys[n] in d then d else d + [keys[n]]
  }

  lemma DistinctSnoc<K>(keys: seq<K>, x: K)
    ensures Distinct(keys + [x]) == if x in Distinct(keys) then Distinct(keys) else Distinct(keys) + [x]
  {
    assert (keys + [x])[..|keys|] == keys;
  }

  lemma DistinctPrefixStep<K>(keys: seq<K>, i: nat)
    requires i < |keys|
    ensures Distinct(keys[..i + 1])
         == if keys[i] in Distinct(keys[..i]) then Distinct(keys[..i]) else Distinct(keys[..i]) + [keys[i]]
  {
    assert keys[..i + 1][..i] == keys[..i];
  }

  /** No key appears twice. */
  predicate NoDuplicates<K(==)>(s: seq<K>) {
    forall i, j :: 0 <= i < j < |s| ==> s[i] != s[j]
  }

  /** The counter has exactly the keys met, and holds for each the sum of its values. */
  lemma {:induction false} TallyIsSum<K>(keys: seq<K>, vals: seq<int>)
    requires |keys| == |vals|
    ensures forall k :: k in Tally(keys, vals) <==> k in keys
    ensures forall k :: k in Tally(keys, vals) ==> Tally(keys, vals)[k] == SumFor(keys, vals, k)
  {
    if keys != [] {
      var n := |keys| - 1;
      TallyIsSum(keys[..n], vals[..n]);
      assert keys == keys[..n] + [keys[n]];
      forall k | k !in keys[..n] ensures SumFor(keys[..n], vals[..n], k) == 0 {
        SumForAbsent(keys[..n], vals[..n], k);
      }
    }
  }

  lemma {:induction false} SumForAbsent<K>(keys: seq<K>, vals: seq<int>, k: K)
    requires |keys| == |vals|
    requires k !in keys
    ensures SumFor(keys, vals, k) == 0
  {
    if keys != [] {
      var n := |keys| - 1;
      assert keys == keys[..n] + [keys[n]];
      SumForAbsent(keys[..n], vals[..n], k);
    }
  }

  /** Values all within `[lo, hi]` give a sum within `lo` and `hi` times the occurrences. */
  lemma {:induction false} SumForBounds<K>(keys: seq<K>, vals: seq<int>, k: K, lo: int, hi: int)
    requires |keys| == |vals|
    requires forall i :: 0 <= i < |vals| ==> lo <= vals[i] <= hi
    ensures lo * Occurrences(keys, k) <= SumFor(keys, vals, k) <= hi * Occurrences(keys, k)
  {
    if keys != [] {
      var n := |keys| - 1;
      SumForBounds(keys[..n], vals[..n], k, lo, hi);
      if keys[n] == k {
        BoundsStep(lo, hi, Occurrences(keys[..n], k), SumFor(keys[..n], vals[..n], k), vals[n]);
      }
    }
  }

  lemma BoundsStep(lo: int, hi: int, o: int, s: int, v: int)
    requires lo * o <= s <= hi * o && lo <= v <= hi
    ensures lo * (o + 1) <= s + v <= hi * (o + 1)
  {
    assert lo * (o + 1) == lo * o + lo && hi * (o + 1) == hi * o + hi;
  }

  /** The first-seen key order lists every key met, once each. */
  lemma {:induction false} DistinctKeys<K>(keys: seq<K>)
    ensures forall k :: k in Distinct(keys) <==> k in keys
    ensures NoDuplicates(Distinct(keys))
    ensures |Distinct(keys)| <= |keys|
  {
    if keys != [] {
      var n := |keys| - 1;
      DistinctKeys(keys[..n]);
      assert keys == keys[..n] + [keys[n]];
    }
  }

  /** The sum of `Occurrences(s, k)` over the keys `ks`. */
  function TotalOccurrences<K(==)>(ks: seq<K>, s: seq<K>): int {
    if ks == [] then 0 else Occurrences(s, ks[0]) + TotalOccurrences(ks[1..], s)
  }

  lemma {:induction false} TotalOccurrencesAppendKey<K>(ks: seq<K>, k: K, s: seq<K>)
    ensures TotalOccurrences(ks + [k], s) == TotalOccurrences(ks, s) + Occurrences(s, k)
  {
    if ks == [] {
      assert [k][1..] == [];
    } else {
      assert (ks + [k])[1..] == ks[1..] + [k];
      TotalOccurrencesAppendKey(ks[1..], k, s);
    }
  }

  lemma {:induction false} TotalOccurrencesAppendItem<K>(ks: seq<K>, s: seq<K>, x: K)
    ensures TotalOccurrences(ks, s + [x]) == TotalOccurrences(ks, s) + Occurrences(ks, x)
  {
    if ks != [] {
      TotalOccurrencesAppendItem(ks[1..], s, x);
      assert (s + [x])[..|s|] == s;
      OccurrencesFront(ks, x);
    }
  }

  /** `Occurrences` seen from the front of the sequence. */
  lemma {:induction false} OccurrencesFront<K>(ks: seq<K>, x: K)
    requires ks != []
    ensures Occurrences(ks, x) == (if ks[0] == x then 1 else 0) + Occurrences(ks[1..], x)
  {
    var n := |ks| - 1;
    if n > 0 {
      OccurrencesFront(ks[..n], x);
      assert ks[..n][1..] == ks[1..][..n - 1];
    }
  }

  lemma {:induction false} OccurrencesOfUnique<K>(ks: seq<K>, x: K)
    requires NoDuplicates(ks) && x in ks
    ensures Occurrences(ks, x) == 1
  {
    OccurrencesFront(ks, x);
    if ks[0] != x {
      assert NoDuplicates(ks[1..]);
      OccurrencesOfUnique(ks[1..], x);
    } else {
      assert x !in ks[1..];
    }
  }

  /** Each element met adds exactly one to exactly one key's count, so the counts of
      the distinct keys add up to the number of elements. */
  lemma {:induction false} CountsAddUp<K>(s: seq<K>)
    ensures TotalOccurrences(Distinct(s), s) == |s|
  {
    if s != [] {
      var n := |s| - 1;
      var t, x := s[..n], s[n];
      assert s == t + [x];
      CountsAddUp(t);
      DistinctKeys(t);
      var d := Distinct(t);
      TotalOccurrencesAppendItem(d, t, x);
      if x in d {
        OccurrencesOfUnique(d, x);
      } else {
        TotalOccurrencesAppendKey(d, x, s);
        assert Occurrences(t, x) == 0;
      }
    }
  }

  /** `sum(m.get(k, 0) for k in ks)` */
  function SumValues<K(==)>(ks: seq<K>, m: map<K, int>): int {
    if ks == [] then 0 else Get(m, ks[0]) + SumValues(ks[1..], m)
  }

  /** The counter has exactly the keys met, and holds for each its number of occurrences. */
  lemma {:induction false} CounterIsOccurrences<K>(keys: seq<K>)
    ensures forall k :: k in Counter(keys) <==> k in keys
    ensures forall k :: k in Counter(keys) ==> Counter(keys)[k] == Occurrences(keys, k)
  {
    if keys != [] {
      var n := |keys| - 1;
      CounterIsOccurrences(keys[..n]);
      assert keys == keys[..n] + [keys[n]];
    }
  }

  /** A key has a counter entry exactly when it is among the counter's ordered keys. */
  lemma CounterKeysAreDistinct<K>(keys: seq<K>, k: K)
    ensures k in Counter(keys) <==> k in Distinct(keys)
  {
    CounterIsOccurrences(keys);
    DistinctKeys(keys);
  }

  lemma CountIsOccurrences<K>(s: seq<K>, k: K)
    ensures Get(Counter(s), k) == Occurrences(s, k)
  {
    CounterIsOccurrences(s);
  }

  lemma {:induction false} SumValuesOfCounts<K>(ks: seq<K>, s: seq<K>)
    ensures SumValues(ks, Counter(s)) == TotalOccurrences(ks, s)
  {
    if ks != [] {
      CountIsOccurrences(s, ks[0]);
      SumValuesOfCounts(ks[1..], s);
    }
  }

  /** The counts, read in the counter's key order, add up to the number of items counted. */
  lemma CounterAddsUp<K>(s: seq<K>)
    ensures SumValues(Distinct(s), Counter(s)) == |s|
  {
    SumValuesOfCounts(Distinct(s), s);
    CountsAddUp(s);
  }

  /** One `counter[x] = counter.get(x, 0) + 1` step of a counting loop, with the key
      order the dictionary keeps. */
  lemma CounterStep<K>(seen: seq<K>, x: K)
    ensures Counter(seen + [x]) == Add(Counter(seen), x, 1)
    ensures Distinct(seen + [x]) == if x in Counter(seen) then Distinct(seen) else Distinct(seen) + [x]
  {
    assert (seen + [x])[..|seen|] == seen;
    CounterIsOccurrences(seen);
    DistinctKeys(seen);
  }

  /** `for x in items: counter[x] = counter.get(x, 0) + 1`, continuing a count that has
      already met the keys `seen`. */
  method CountEach<K(==)>(items: seq<K>, keys: seq<K>, counts: map<K, int>, ghost seen: seq<K>)
    returns (keys': seq<K>, counts': map<K, int>)
    requires keys == Distinct(seen) && counts == Counter(seen)
    ensures keys' == Distinct(seen + items)
    ensures counts' == Counter(seen + items)
  {
    keys', counts' := keys, counts;
    ghost var met := seen;
    for j := 0 to |items|
      invariant met == seen + items[..j]
      invariant keys' == Distinct(met)
      invariant counts' == Counter(met)
    {
      var x := items[j];
      AppendPrefix(seen, items, j);
      CounterStep(met, x);
      if x !in counts' {
        keys' := keys' + [x];
      }
      counts' := Add(counts', x, 1);
      met := met + [x];
    }
    TakeAll(items);
  }

  function Max(a: int, b: int): int {
    if a >= b then a else b
  }

  /** `m[k] = max(m.get(k, 0), v)` */
  function Raise<K(==)>(m: map<K, int>, k: K, v: int): (r: map<K, int>)
    ensures r.Keys == m.Keys + {k}
    ensures r[k] == Max(Get(m, k), v)
    ensures forall j :: j in m && j != k ==> r[j] == m[j]
  {
    m[k := Max(Get(m, k), v)]
  }

  /** The dictionary left by `m[k] = max(m.get(k, 0), v)` over the pairs `keys[i], vals[i]`. */
  function Peak<K(==)>(keys: seq<K>, vals: seq<int>): map<K, int>
    requires |keys| == |vals|
  {
    if keys == [] then map[]
    else
      var n := |keys| - 1;
      Raise(Peak(keys[..n], vals[..n]), keys[n], vals[n])
  }

  lemma PeakPrefixStep<K>(keys: seq<K>, vals: seq<int>, i: nat)
    requires |keys| == |vals| && i < |keys|
    ensures Peak(keys[..i + 1], vals[..i + 1]) == Raise(Peak(keys[..i], vals[..i]), keys[i], vals[i])
  {
    assert keys[..i + 1][..i] == keys[..i];
    assert vals[..i + 1][..i] == vals[..i];
  }

  /** With non-negative values, each key's entry is the largest value met with it. */
  lemma {:induction false} PeakIsMax<K>(keys: seq<K>, vals: seq<int>)
    requires |keys| == |vals|
    requires forall i :: 0 <= i < |vals| ==> vals[i] >= 0
    ensures forall k :: k in Peak(keys, vals) <==> k in keys
    ensures forall i :: 0 <= i < |keys| ==> keys[i] in Peak(keys, vals) && vals[i] <= Peak(keys, vals)[keys[i]]
    ensures forall k :: k in Peak(keys, vals) ==>
      exists i :: 0 <= i < |keys| && keys[i] == k && vals[i] == Peak(keys, vals)[k]
  {
    if keys != [] {
      var n := |keys| - 1;
      PeakIsMax(keys[..n], vals[..n]);
      assert keys == keys[..n] + [keys[n]];
      var p := Peak(keys, vals);
      var q := Peak(keys[..n], vals[..n]);
      forall i | 0 <= i < |keys| ensures keys[i] in p && vals[i] <= p[keys[i]] {
        if i < n {
          assert keys[..n][i] == keys[i] && vals[..n][i] == vals[i];
        }
      }
      forall k | k in p ensures exists i :: 0 <= i < |keys| && keys[i] == k && vals[i] == p[k] {
        if k == keys[n] && (k !in q || q[k] <= vals[n]) {
          assert keys[n] == k && vals[n] == p[k];
        } else {
          var i :| 0 <= i < n && keys[..n][i] == k && vals[..n][i] == q[k];
          assert keys[i] == k && vals[i] == p[k];
        }
      }
    }
  }
}
