/** The operations of Python's `str` (and JavaScript's `String`) that the tools rely on,
    each with the contract its callers use. */
module Strings {
  import opened Opt

  /** The whitespace `strip()` and `trim()` remove in this model: the six characters space,
      `\t`, `\n`, `\r`, `\v` and `\f`. */
  const Whitespace: set<char> := {' ', '\t', '\n', '\r', '\U{0B}', '\U{0C}'}

  /** Line boundaries recognised by Python's `str.splitlines()`. */
  const LineBreaks: set<char> :=
    {'\n', '\r', '\U{0B}', '\U{0C}', '\U{1C}', '\U{1D}', '\U{1E}', '\U{85}', '\U{2028}', '\U{2029}'}

  predicate IsSpace(c: char) { c in Whitespace }

  predicate IsBlank(s: string) { forall i :: 0 <= i < |s| ==> IsSpace(s[i]) }

  /** `s.lstrip(cs)` */
  function LStripChars(s: string, cs: set<char>): (r: string)
    ensures |r| <= |s| && r == s[|s| - |r|..]
    ensures forall i :: 0 <= i < |s| - |r| ==> s[i] in cs
    ensures r == [] || r[0] !in cs
  {
    if s != [] && s[0] in cs then LStripChars(s[1..], cs) else s
  }

  /** `s.rstrip(cs)` */
  function RStripChars(s: string, cs: set<char>): (r: string)
    ensures |r| <= |s| && r == s[..|r|]
    ensures forall i :: |r| <= i < |s| ==> s[i] in cs
    ensures r == [] || r[|r| - 1] !in cs
  {
    if s != [] && s[|s| - 1] in cs then RStripChars(s[..|s| - 1], cs) else s
  }

  function LStrip(s: string): string { LStripChars(s, Whitespace) }

  function RStrip(s: string): string { RStripChars(s, Whitespace) }

  /** `s.strip()` */
  function Strip(s: string): string { RStrip(LStrip(s)) }

  predicate StartsWith(s: string, prefix: string) {
    |prefix| <= |s| && s[..|prefix|] == prefix
  }

  predicate EndsWith(s: string, suffix: string) {
    |suffix| <= |s| && s[|s| - |suffix|..] == suffix
  }

  function LowerChar(c: char): char {
    if 'A' <= c <= 'Z' then (c as int + 32) as char else c
  }

  /** `s.lower()` on ASCII letters. */
  function Lower(s: string): (r: string)
    ensures |r| == |s|
    ensures forall i :: 0 <= i < |s| ==> r[i] == LowerChar(s[i])
  {
    seq(|s|, i requires 0 <= i < |s| => LowerChar(s[i]))
  }

  /** `s.lower().startswith(prefix)`, one character at a time. */
  predicate LowerStartsWith(s: string, prefix: string)
    decreases |prefix|
  {
    |prefix| == 0 || (|s| > 0 && LowerChar(s[0]) == prefix[0] && LowerStartsWith(s[1..], prefix[1..]))
  }

  lemma {:induction false} LowerStartsWithIsStartsWith(s: string, prefix: string)
    ensures LowerStartsWith(s, prefix) <==> StartsWith(Lower(s), prefix)
    decreases |prefix|
  {
    if |prefix| > 0 && |s| > 0 {
      LowerStartsWithIsStartsWith(s[1..], prefix[1..]);
      assert Lower(s)[1..] == Lower(s[1..]);
      if |prefix| <= |s| {
        assert Lower(s)[..|prefix|] == [Lower(s)[0]] + Lower(s)[1..][..|prefix| - 1];
        assert prefix == [prefix[0]] + prefix[1..];
      }
    }
  }

  /** `sep.join(parts)` */
  function Join(sep: string, parts: seq<string>): string {
    if |parts| == 0 then ""
    else if |parts| == 1 then parts[0]
    else parts[0] + sep + Join(sep, parts[1..])
  }

  function Reverse<T>(s: seq<T>): (r: seq<T>)
    ensures |r| == |s|
    ensures forall i :: 0 <= i < |s| ==> r[i] == s[|s| - 1 - i]
  {
    if s == [] then [] else Reverse(s[1..]) + [s[0]]
  }

  /** `[x for p in s for x in f(p)]` */
  function FlatMap<T, U>(f: T -> seq<U>, s: seq<T>): seq<U> {
    if s == [] then [] else f(s[0]) + FlatMap(f, s[1..])
  }

  lemma {:induction false} FlatMapAppend<T, U>(f: T -> seq<U>, s: seq<T>, x: T)
    ensures FlatMap(f, s + [x]) == FlatMap(f, s) + f(x)
  {
    if s == [] {
      assert [x][1..] == [];
    } else {
      assert (s + [x])[1..] == s[1..] + [x];
      FlatMapAppend(f, s[1..], x);
    }
  }

  lemma AppendAssoc<T>(a: seq<T>, b: seq<T>, c: seq<T>)
    ensures a + (b + c) == (a + b) + c
  {
  }

  /** One more element of a prefix adds its image. */
  lemma FlatMapPrefix<T, U>(f: T -> seq<U>, s: seq<T>, i: nat)
    requires i < |s|
    ensures FlatMap(f, s[..i + 1]) == FlatMap(f, s[..i]) + f(s[i])
  {
    assert s[..i + 1] == s[..i] + [s[i]];
    FlatMapAppend(f, s[..i], s[i]);
  }

  lemma {:induction false} FlatMapConcat<T, U>(f: T -> seq<U>, a: seq<T>, b: seq<T>)
    ensures FlatMap(f, a + b) == FlatMap(f, a) + FlatMap(f, b)
  {
    if a == [] {
      assert a + b == b;
    } else {
      assert (a + b)[0] == a[0];
      assert (a + b)[1..] == a[1..] + b;
      FlatMapConcat(f, a[1..], b);
    }
  }

  lemma TakeSnoc<T>(s: seq<T>, j: nat)
    requires j < |s|
    ensures s[..j + 1] == s[..j] + [s[j]]
  {
  }

  lemma TakeAll<T>(s: seq<T>)
    ensures s[..|s|] == s
  {
  }

  /** One more element of `s` appended after `a`. */
  lemma AppendPrefix<T>(a: seq<T>, s: seq<T>, j: nat)
    requires j < |s|
    ensures a + s[..j + 1] == (a + s[..j]) + [s[j]]
  {
    assert s[..j + 1] == s[..j] + [s[j]];
  }

  lemma {:induction false} FlatMapMember<T, U>(f: T -> seq<U>, s: seq<T>, x: U)
    ensures x in FlatMap(f, s) <==> exists y :: y in s && x in f(y)
  {
    if s != [] {
      FlatMapMember(f, s[1..], x);
      assert forall y :: y in s <==> y == s[0] || y in s[1..];
    }
  }

  lemma {:induction false} MapSeqMember<T, U>(f: T -> U, s: seq<T>, x: U)
    ensures x in MapSeq(f, s) <==> exists y :: y in s && f(y) == x
  {
    if s != [] {
      MapSeqMember(f, s[1..], x);
      assert forall y :: y in s <==> y == s[0] || y in s[1..];
    }
  }

  /** `[f(x) for x in s]`, by recursion so that its elements are unfolded only on demand. */
  function MapSeq<T, U>(f: T -> U, s: seq<T>): (r: seq<U>)
    ensures |r| == |s|
  {
    if s == [] then [] else [f(s[0])] + MapSeq(f, s[1..])
  }

  lemma {:induction false} MapSeqAppend<T, U>(f: T -> U, a: seq<T>, b: seq<T>)
    ensures MapSeq(f, a + b) == MapSeq(f, a) + MapSeq(f, b)
  {
    if a == [] {
      assert a + b == b;
    } else {
      assert (a + b)[0] == a[0];
      assert (a + b)[1..] == a[1..] + b;
      MapSeqAppend(f, a[1..], b);
    }
  }

  lemma {:induction false} MapSeqAt<T, U>(f: T -> U, s: seq<T>, i: nat)
    requires i < |s|
    ensures MapSeq(f, s)[i] == f(s[i])
  {
    if i > 0 {
      MapSeqAt(f, s[1..], i - 1);
    }
  }

  predicate OccursAt(s: string, pat: string, i: nat) {
    i + |pat| <= |s| && s[i..i + |pat|] == pat
  }

  /** `s.find(pat, from)`, with `None` for Python's -1. */
  function Find(s: string, pat: string, from: nat): (r: Option<nat>)
    requires from <= |s|
    ensures r.Some? ==> from <= r.value && r.value + |pat| <= |s|
    decreases |s| - from
  {
    if OccursAt(s, pat, from) then Some(from)
    else if from == |s| then None
    else Find(s, pat, from + 1)
  }

  /** `Find` returns the first occurrence at or after `from`, and `None` when there is none. */
  lemma {:induction false} FindFacts(s: string, pat: string, from: nat)
    requires from <= |s|
    ensures var r := Find(s, pat, from);
      (r.Some? ==> OccursAt(s, pat, r.value) && forall j :: from <= j < r.value ==> !OccursAt(s, pat, j))
      && (r.None? ==> forall j :: from <= j <= |s| ==> !OccursAt(s, pat, j))
    decreases |s| - from
  {
    if !OccursAt(s, pat, from) && from < |s| {
      FindFacts(s, pat, from + 1);
    }
  }

  /** `pat in s` */
  predicate Contains(s: string, pat: string) {
    Find(s, pat, 0).Some?
  }

  /** `s.split(sep)` for a non-empty separator: cut at each leftmost non-overlapping occurrence. */
  function Split(s: string, sep: string): (parts: seq<string>)
    requires |sep| > 0
    ensures |parts| >= 1
    decreases |s|
  {
    match Find(s, sep, 0)
    case None => [s]
    case Some(i) => [s[..i]] + Split(s[i + |sep|..], sep)
  }

  /** `s.split(sep)[0]`: the text before the first occurrence (`SplitEnds` ties it to
      `Split`). */
  function BeforeFirst(s: string, sep: string): string
    requires |sep| > 0
  {
    match Find(s, sep, 0)
    case None => s
    case Some(i) => s[..i]
  }

  /** `s.split(sep)[-1]`: the text after the last occurrence (`SplitEnds` ties it to
      `Split`). */
  function AfterLast(s: string, sep: string): string
    requires |sep| > 0
    decreases |s|
  {
    match Find(s, sep, 0)
    case None => s
    case Some(i) => AfterLast(s[i + |sep|..], sep)
  }

  /** The first and the last part of the split. */
  lemma {:induction false} SplitEnds(s: string, sep: string)
    requires |sep| > 0
    ensures BeforeFirst(s, sep) == Split(s, sep)[0]
    ensures AfterLast(s, sep) == Split(s, sep)[|Split(s, sep)| - 1]
    decreases |s|
  {
    match Find(s, sep, 0)
    case None =>
    case Some(i) =>
      var rest := s[i + |sep|..];
      SplitEnds(rest, sep);
      var parts := Split(rest, sep);
      assert Split(s, sep) == [s[..i]] + parts;
  }

  /** `s.replace(pat, rep)`: leftmost, non-overlapping replacement. */
  function ReplaceAll<T(==)>(s: seq<T>, pat: seq<T>, rep: seq<T>): seq<T>
    requires |pat| > 0
    decreases |s|
  {
    if |s| < |pat| then s
    else if s[..|pat|] == pat then rep + ReplaceAll(s[|pat|..], pat, rep)
    else [s[0]] + ReplaceAll(s[1..], pat, rep)
  }

  /** Replacing a character by nothing removes every occurrence of it. */
  lemma {:induction false} ReplaceAllRemoves(s: string, c: char)
    ensures c !in ReplaceAll(s, [c], [])
    decreases |s|
  {
    if |s| >= 1 {
      ReplaceAllRemoves(s[1..], c);
    }
  }

  /** Index of the first line boundary in `s`, or `|s|`. */
  function FirstBreak(s: string): (i: nat)
    ensures i <= |s|
    ensures forall j :: 0 <= j < i ==> s[j] !in LineBreaks
    ensures i < |s| ==> s[i] in LineBreaks
  {
    if s == [] || s[0] in LineBreaks then 0 else 1 + FirstBreak(s[1..])
  }

  /** `s.splitlines()`: `\r\n` is one boundary, and a final boundary opens no empty line. */
  function SplitLines(s: string): (lines: seq<string>)
    ensures forall k, j :: 0 <= k < |lines| && 0 <= j < |lines[k]| ==> lines[k][j] !in LineBreaks
    decreases |s|
  {
    if s == [] then []
    else
      var i := FirstBreak(s);
      if i == |s| then [s]
      else
        var j := if s[i] == '\r' && i + 1 < |s| && s[i + 1] == '\n' then i + 2 else i + 1;
        [s[..i]] + SplitLines(s[j..])
  }

  // ---------------------------------------------------------------------------
  // Lemmas

  /** An occurrence of `pat` at `i` cuts `s` into the text before it, `pat` and the rest. */
  lemma Reassemble(s: string, pat: string, i: nat)
    requires OccursAt(s, pat, i)
    ensures s == s[..i] + pat + s[i + |pat|..]
  {
    assert s[i..i + |pat|] == pat;
  }

  /** The pieces of `x + pat + y`. */
  lemma Pieces(x: string, pat: string, y: string)
    ensures OccursAt(x + pat + y, pat, |x|)
    ensures (x + pat + y)[..|x|] == x
    ensures (x + pat + y)[|x| + |pat|..] == y
  {
    assert (x + pat + y)[|x|..|x| + |pat|] == pat;
  }

  /** Dropping part of `x` from `x + pat + y`. */
  lemma DropInto(x: string, pat: string, y: string, k: nat)
    requires k <= |x|
    ensures (x + pat + y)[k..] == x[k..] + pat + y
  {
  }

  lemma JoinCons(sep: string, a: string, parts: seq<string>)
    requires parts != []
    ensures Join(sep, [a] + parts) == a + sep + Join(sep, parts)
  {
    assert ([a] + parts)[1..] == parts;
  }

  lemma {:induction false} JoinSplit(s: string, sep: string)
    requires |sep| > 0
    ensures Join(sep, Split(s, sep)) == s
    decreases |s|
  {
    match Find(s, sep, 0)
    case None =>
    case Some(i) =>
      var rest := s[i + |sep|..];
      JoinSplit(rest, sep);
      JoinCons(sep, s[..i], Split(rest, sep));
      FindFacts(s, sep, 0);
      Reassemble(s, sep, i);
  }

  /** Splitting at a single character that `x` lacks cuts right after `x`. */
  lemma SplitCons(x: string, c: char, y: string)
    requires c !in x
    ensures Split(x + [c] + y, [c]) == [x] + Split(y, [c])
  {
    var s := x + [c] + y;
    OccursAtChar(s, c, |x|);
    forall j | 0 <= j < |x| ensures !OccursAt(s, [c], j) {
      OccursAtChar(s, c, j);
      assert s[j] == x[j];
    }
    FindFacts(s, [c], 0);
    var r := Find(s, [c], 0);
    assert r.Some?;
    assert r.value == |x|;
    assert s[..|x|] == x && s[|x| + 1..] == y;
    assert Split(s, [c]) == [s[..|x|]] + Split(s[|x| + 1..], [c]);
  }

  /** A one-character pattern occurs exactly where that character is. */
  lemma OccursAtChar(s: string, c: char, j: nat)
    requires j < |s|
    ensures OccursAt(s, [c], j) <==> s[j] == c
  {
    assert s[j..j + 1] == [s[j]];
  }

  lemma SplitNone(x: string, c: char)
    requires c !in x
    ensures Split(x, [c]) == [x]
  {
    forall j | 0 <= j <= |x| ensures !OccursAt(x, [c], j) {
      if j < |x| { OccursAtChar(x, c, j); }
    }
    FindFacts(x, [c], 0);
    assert Find(x, [c], 0).None?;
  }

  /** `s.split(c, 1)[0]` for a one-character separator: the text before the first `c`. */
  function BeforeChar(s: string, c: char): (r: string)
    ensures |r| <= |s| && r == s[..|r|]
    ensures c !in r
    ensures |r| < |s| ==> s[|r|] == c
  {
    if s == [] || s[0] == c then [] else [s[0]] + BeforeChar(s[1..], c)
  }

  /** The one-character shortcut agrees with the general splitter. */
  lemma BeforeCharIsSplitHead(s: string, c: char)
    ensures BeforeChar(s, c) == BeforeFirst(s, [c])
  {
    var r := BeforeChar(s, c);
    FindFacts(s, [c], 0);
    match Find(s, [c], 0)
    case None =>
      forall j | 0 <= j < |s| ensures s[j] != c {
        OccursAtChar(s, c, j);
      }
    case Some(k) =>
      OccursAtChar(s, c, k);
      forall j | 0 <= j < k ensures s[j] != c {
        OccursAtChar(s, c, j);
      }
      assert |r| == k;
  }

  lemma LStripBlankPrefix(p: string, s: string)
    requires IsBlank(p)
    ensures LStrip(p + s) == LStrip(s)
    decreases |p|
  {
    if p != [] {
      assert (p + s)[1..] == p[1..] + s;
      LStripBlankPrefix(p[1..], s);
    } else {
      assert p + s == s;
    }
  }

  lemma RStripBlankSuffix(s: string, q: string)
    requires IsBlank(q)
    ensures RStrip(s + q) == RStrip(s)
    decreases |q|
  {
    if q != [] {
      assert (s + q)[..|s + q| - 1] == s + q[..|q| - 1];
      RStripBlankSuffix(s, q[..|q| - 1]);
    } else {
      assert s + q == s;
    }
  }

  lemma LStripIdempotent(s: string)
    ensures LStrip(LStrip(s)) == LStrip(s)
  {
  }

  lemma RStripIdempotent(s: string)
    ensures RStrip(RStrip(s)) == RStrip(s)
  {
  }

  /** A line made by `splitlines()` contains no line boundary, hence no `\n`. */
  lemma SplitLinesNoNewline(s: string)
    ensures forall k :: 0 <= k < |SplitLines(s)| ==> '\n' !in SplitLines(s)[k]
  {
    var lines := SplitLines(s);
    forall k, j | 0 <= k < |lines| && 0 <= j < |lines[k]| ensures lines[k][j] != '\n' {
      assert lines[k][j] !in LineBreaks;
    }
  }

  /** Splitting a `\n`-join of newline-free lines gives the lines back. */
  lemma {:induction false} SplitJoinNewline(ls: seq<string>)
    requires |ls| > 0
    requires forall k :: 0 <= k < |ls| ==> '\n' !in ls[k]
    ensures Split(Join("\n", ls), "\n") == ls
  {
    if |ls| == 1 {
      SplitNone(ls[0], '\n');
    } else {
      SplitJoinNewline(ls[1..]);
      SplitCons(ls[0], '\n', Join("\n", ls[1..]));
      assert Join("\n", ls) == ls[0] + ['\n'] + Join("\n", ls[1..]);
      assert ls == [ls[0]] + ls[1..];
    }
  }

  /** Replacing a single character changes exactly the positions holding it. */
  lemma {:induction false} ReplaceCharAt<T>(s: seq<T>, a: T, b: T)
    ensures |ReplaceAll(s, [a], [b])| == |s|
    ensures forall i :: 0 <= i < |s| ==> ReplaceAll(s, [a], [b])[i] == (if s[i] == a then b else s[i])
    decreases |s|
  {
    if |s| >= 1 {
      ReplaceCharAt(s[1..], a, b);
      if s[..1] == [a] {
        assert s[0] == a;
      } else {
        assert s[..1] == [s[0]];
      }
    }
  }

  /** An occurrence anywhere makes `pat in s` true. */
  lemma OccursAtContains(s: string, pat: string, i: nat)
    requires OccursAt(s, pat, i)
    ensures Contains(s, pat)
  {
    FindFacts(s, pat, 0);
  }

  /** A text with `pat` written in its middle contains `pat`. */
  lemma ContainsMiddle(a: string, pat: string, b: string)
    ensures Contains(a + pat + b, pat)
  {
    var s := a + pat + b;
    assert s[|a|..|a| + |pat|] == pat;
    OccursAtContains(s, pat, |a|);
  }

  /** Where the `k`-th part sits inside the joined string. */
  lemma {:induction false} JoinOffset(sep: string, parts: seq<string>, k: nat) returns (i: nat)
    requires k < |parts|
    ensures i + |parts[k]| <= |Join(sep, parts)|
    ensures Join(sep, parts)[i..i + |parts[k]|] == parts[k]
  {
    if |parts| == 1 {
      i := 0;
    } else if k == 0 {
      i := 0;
      assert Join(sep, parts) == parts[0] + (sep + Join(sep, parts[1..]));
    } else {
      var i' := JoinOffset(sep, parts[1..], k - 1);
      var rest := Join(sep, parts[1..]);
      i := |parts[0]| + |sep| + i';
      assert Join(sep, parts) == (parts[0] + sep) + rest;
      assert Join(sep, parts)[i..i + |parts[k]|] == rest[i'..i' + |parts[k]|];
    }
  }

  /** Joining two non-empty runs of parts puts one separator between their joins. */
  lemma {:induction false} JoinConcat(sep: string, a: seq<string>, b: seq<string>)
    requires |a| > 0 && |b| > 0
    ensures Join(sep, a + b) == Join(sep, a) + sep + Join(sep, b)
  {
    if |a| == 1 {
      assert (a + b)[0] == a[0] && (a + b)[1..] == b;
    } else {
      assert (a + b)[0] == a[0] && (a + b)[1..] == a[1..] + b;
      JoinConcat(sep, a[1..], b);
    }
  }

  /** The joined string opens with the first part. */
  lemma JoinStartsWith(sep: string, parts: seq<string>)
    requires parts != []
    ensures StartsWith(Join(sep, parts), parts[0])
  {
    if |parts| > 1 {
      assert Join(sep, parts) == parts[0] + (sep + Join(sep, parts[1..]));
    }
  }
}
