/** The tool table of the root README and the marker comments that delimit it, with the
    splice that `update_root_readme` performs: keep what precedes the first start marker
    and what follows the last end marker, and put the new table between them. */
module Splice {
  import opened Opt
  import opened Strings

  // Each marker is written as its first character and the rest, so that the verifier
  // can see that the first character does not occur again.
  const Start := "<" + "!-- TOOL_TABLE_START -->"
  const End := "<" + "!-- TOOL_TABLE_END -->"

  const HeaderNames := "| Tool | Description | Link |"
  const HeaderRule := "|------|-------------|------|"
  const TableHeader := HeaderNames + "\n" + HeaderRule

  /** A pattern whose first character occurs nowhere else in it: two occurrences of it
      can never overlap. */
  predicate Unbordered(pat: string) {
    |pat| > 0 && forall d :: 0 < d < |pat| ==> pat[d] != pat[0]
  }

  lemma MarkersUnbordered()
    ensures Unbordered(Start) && Unbordered(End)
    ensures '\n' !in Start && '\n' !in End
  {
    assert '<' !in "!-- TOOL_TABLE_START -->";
    assert '<' !in "!-- TOOL_TABLE_END -->";
    assert forall d :: 0 < d < |Start| ==> Start[d] == "!-- TOOL_TABLE_START -->"[d - 1];
    assert forall d :: 0 < d < |End| ==> End[d] == "!-- TOOL_TABLE_END -->"[d - 1];
  }

  // ---------------------------------------------------------------------------
  // Occurrences

  /** `pat in s` holds exactly when `pat` occurs at some position of `s`. */
  lemma ContainsIff(s: string, pat: string)
    ensures Contains(s, pat) <==> exists j :: 0 <= j <= |s| && OccursAt(s, pat, j)
  {
    FindFacts(s, pat, 0);
    if !Contains(s, pat) {
      assert forall j :: 0 <= j <= |s| ==> !OccursAt(s, pat, j);
    }
  }

  lemma SliceOfSlice(s: string, i: nat, k: nat, j: nat, m: nat)
    requires i <= k <= |s| && j <= m <= k - i
    ensures s[i..k][j..m] == s[i + j..i + m]
  {
    assert forall t :: 0 <= t < m - j ==> s[i..k][j..m][t] == s[i + j + t];
  }

  /** An occurrence inside a slice is an occurrence in the whole string. */
  lemma SliceLacks(s: string, pat: string, i: nat, k: nat)
    requires i <= k <= |s| && !Contains(s, pat)
    ensures !Contains(s[i..k], pat)
  {
    ContainsIff(s, pat);
    forall j | 0 <= j <= k - i ensures !OccursAt(s[i..k], pat, j) {
      assert !OccursAt(s, pat, i + j);
      if j + |pat| <= k - i {
        SliceOfSlice(s, i, k, j, j + |pat|);
      }
    }
    ContainsIff(s[i..k], pat);
  }

  /** Characters the pattern does not contain cannot be part of an occurrence: padding a
      string that lacks the pattern with them keeps it lacking the pattern. */
  lemma PadLacks(w: string, x: string, v: string, pat: string)
    requires !Contains(x, pat) && |pat| > 0
    requires forall c :: c in w || c in v ==> c !in pat
    ensures !Contains(w + x + v, pat)
  {
    var s := w + x + v;
    ContainsIff(x, pat);
    assert pat[0] in pat;
    forall j | 0 <= j <= |s| ensures !OccursAt(s, pat, j) {
      if j + |pat| <= |s| {
        var t := s[j..j + |pat|];
        if j < |w| {
          assert t[0] == s[j] == w[j];
        } else if j > |w| + |x| {
          assert t[0] == s[j] == v[j - |w| - |x|];
        } else if j + |pat| > |w| + |x| {
          var d := |w| + |x| - j;
          assert t[d] == s[|w| + |x|] == v[0];
          assert pat[d] in pat;
        } else {
          assert t == x[j - |w|..j - |w| + |pat|];
          assert !OccursAt(x, pat, j - |w|);
        }
      }
    }
    ContainsIff(s, pat);
  }

  /** An unbordered pattern cannot start inside another occurrence of itself. */
  lemma NotInside(s: string, pat: string, i: nat, k: nat)
    requires Unbordered(pat) && OccursAt(s, pat, k) && i < k < i + |pat|
    ensures !OccursAt(s, pat, i)
  {
    assert s[k..k + |pat|][0] == s[k];
    if i + |pat| <= |s| {
      assert s[i..i + |pat|][k - i] == s[k];
    }
  }

  /** Two occurrences of an unbordered pattern never overlap. */
  lemma NoOverlap(s: string, pat: string, i: nat, k: nat)
    requires Unbordered(pat) && OccursAt(s, pat, i) && OccursAt(s, pat, k) && i < k
    ensures i + |pat| <= k
  {
    if k < i + |pat| {
      NotInside(s, pat, i, k);
    }
  }

  /** `Find` returns the first occurrence at or after `from`. */
  lemma FindIs(s: string, pat: string, from: nat, k: nat)
    requires from <= k <= |s| && OccursAt(s, pat, k)
    requires forall j :: from <= j < k ==> !OccursAt(s, pat, j)
    ensures Find(s, pat, from) == Some(k)
  {
    FindFacts(s, pat, from);
  }

  /** Searching from `from`, an unbordered pattern that `x` lacks from there on is first
      found right after `x`. */
  lemma FirstOccurrenceFrom(x: string, pat: string, y: string, from: nat)
    requires Unbordered(pat) && from <= |x| && !Contains(x[from..], pat)
    ensures Find(x + pat + y, pat, from) == Some(|x|)
  {
    var s := x + pat + y;
    var t := x[from..];
    assert s[|x|..|x| + |pat|] == pat;
    ContainsIff(t, pat);
    forall j | from <= j < |x| ensures !OccursAt(s, pat, j) {
      if j + |pat| <= |x| {
        assert !OccursAt(t, pat, j - from);
        assert s[j..j + |pat|] == t[j - from..j - from + |pat|];
      } else {
        NotInside(s, pat, j, |x|);
      }
    }
    FindIs(s, pat, from, |x|);
  }

  /** Before an unbordered pattern that `x` lacks, the first occurrence is the one right
      after `x`. */
  lemma FirstOccurrence(x: string, pat: string, y: string)
    requires Unbordered(pat) && !Contains(x, pat)
    ensures Find(x + pat + y, pat, 0) == Some(|x|)
  {
    assert x[0..] == x;
    FirstOccurrenceFrom(x, pat, y, 0);
  }

  /** The text before the first occurrence lacks the pattern. */
  lemma BeforeFirstLacks(s: string, pat: string)
    requires |pat| > 0
    ensures !Contains(BeforeFirst(s, pat), pat)
  {
    var b := BeforeFirst(s, pat);
    FindFacts(s, pat, 0);
    match Find(s, pat, 0)
    case None =>
      ContainsIff(s, pat);
    case Some(i) =>
      assert b == s[..i];
      forall j | 0 <= j <= |b| ensures !OccursAt(b, pat, j) {
        if j + |pat| <= |b| {
          SliceOfSlice(s, 0, i, j, j + |pat|);
          assert !OccursAt(s, pat, j);
        }
      }
      ContainsIff(b, pat);
  }

  /** The text after the last occurrence lacks the pattern. */
  lemma {:induction false} AfterLastLacks(s: string, pat: string)
    requires |pat| > 0
    ensures !Contains(AfterLast(s, pat), pat)
    decreases |s|
  {
    match Find(s, pat, 0)
    case None =>
      ContainsIff(s, pat);
    case Some(i) =>
      AfterLastLacks(s[i + |pat|..], pat);
  }

  /** An occurrence at `k` means the first one is found at `k` or earlier. */
  lemma FoundAtOrBefore(s: string, pat: string, k: nat)
    requires OccursAt(s, pat, k)
    ensures Find(s, pat, 0).Some? && Find(s, pat, 0).value <= k
    ensures OccursAt(s, pat, Find(s, pat, 0).value)
  {
    FindFacts(s, pat, 0);
  }

  /** A text that lacks the pattern is its own last part. */
  lemma AfterLastLacking(y: string, pat: string)
    requires |pat| > 0 && !Contains(y, pat)
    ensures AfterLast(y, pat) == y
  {
  }

  /** `x` followed by an unbordered pattern and a text `y` that lacks it: the last part of
      the split is `y`. */
  lemma {:induction false} AfterLastOccurrence(x: string, pat: string, y: string)
    requires Unbordered(pat) && !Contains(y, pat)
    ensures AfterLast(x + pat + y, pat) == y
    decreases |x|
  {
    var s := x + pat + y;
    Pieces(x, pat, y);
    FoundAtOrBefore(s, pat, |x|);
    var i := Find(s, pat, 0).value;
    if i == |x| {
      AfterLastAtEnd(x, pat, y);
    } else {
      NoOverlap(s, pat, i, |x|);
      AfterLastInside(x, pat, y, i);
      AfterLastOccurrence(x[i + |pat|..], pat, y);
    }
  }

  lemma AfterLastAtEnd(x: string, pat: string, y: string)
    requires |pat| > 0 && !Contains(y, pat) && Find(x + pat + y, pat, 0) == Some(|x|)
    ensures AfterLast(x + pat + y, pat) == y
  {
    Pieces(x, pat, y);
    AfterLastSkips(x + pat + y, pat, |x|);
    AfterLastLacking(y, pat);
  }

  lemma AfterLastInside(x: string, pat: string, y: string, i: nat)
    requires |pat| > 0 && Find(x + pat + y, pat, 0) == Some(i) && i + |pat| <= |x|
    ensures AfterLast(x + pat + y, pat) == AfterLast(x[i + |pat|..] + pat + y, pat)
  {
    AfterLastSkips(x + pat + y, pat, i);
    DropInto(x, pat, y, i + |pat|);
  }

  /** Past an occurrence the search for the last part starts afresh. */
  lemma AfterLastSkips(s: string, pat: string, i: nat)
    requires |pat| > 0 && Find(s, pat, 0) == Some(i)
    ensures AfterLast(s, pat) == AfterLast(s[i + |pat|..], pat)
  {
  }

  /** A text holding `p`, then `m`, then `q` contains both. */
  lemma ContainsBoth(x: string, p: string, m: string, q: string, y: string)
    ensures Contains(x + p + m + q + y, p) && Contains(x + p + m + q + y, q)
  {
    ContainsMiddle(x, p, m + q + y);
    Regroup3(x, p, m, q, y);
    ContainsMiddle(x + p + m, q, y);
  }

  lemma Regroup3(a: string, s: string, m: string, e: string, b: string)
    ensures a + s + m + e + b == a + s + (m + e + b)
  {
  }

  lemma Ungroup(a: string, s: string, m: string, e: string, b: string)
    ensures a + (s + m + e) + b == a + s + m + e + b
  {
  }

  /** The first occurrence of an unbordered `s` in `a + s + m + e + b`, where `a` lacks
      it, is the one right after `a`. */
  lemma BeforeFirstOf(a: string, s: string, m: string, e: string, b: string)
    requires Unbordered(s) && !Contains(a, s)
    ensures BeforeFirst(a + s + m + e + b, s) == a
  {
    FirstAfter(a, s, m, e, b);
    FrameParts(a, s, m, e, b);
  }

  lemma FirstAfter(a: string, s: string, m: string, e: string, b: string)
    requires Unbordered(s) && !Contains(a, s)
    ensures Find(a + s + m + e + b, s, 0) == Some(|a|)
  {
    Regroup3(a, s, m, e, b);
    FirstOccurrence(a, s, m + e + b);
  }

  /** Searching past `a + s` for an unbordered `e` that `m` lacks finds the `e` after `m`. */
  lemma SecondAfter(a: string, s: string, m: string, e: string, b: string)
    requires Unbordered(e) && !Contains(m, e)
    ensures Find(a + s + m + e + b, e, |a| + |s|) == Some(|a| + |s| + |m|)
  {
    var x := a + s + m;
    assert x[|a| + |s|..] == m;
    FirstOccurrenceFrom(x, e, b, |a| + |s|);
  }

  /** The text before and after the framed middle. */
  lemma FrameParts(a: string, s: string, m: string, e: string, b: string)
    ensures (a + s + m + e + b)[..|a|] == a
    ensures (a + s + m + e + b)[|a| + |s| + |m| + |e|..] == b
  {
  }

  /** A text with one table between unbordered markers `s` and `e`, where the text before
      lacks `s` and the text after lacks `e`: both markers are found, the text before the
      first `s` is `a` and the text after the last `e` is `b`. */
  lemma Framed(a: string, s: string, m: string, e: string, b: string)
    requires Unbordered(s) && Unbordered(e) && !Contains(a, s) && !Contains(b, e)
    ensures var c := a + s + m + e + b;
      Contains(c, s) && Contains(c, e) && BeforeFirst(c, s) == a && AfterLast(c, e) == b
  {
    ContainsBoth(a, s, m, e, b);
    BeforeFirstOf(a, s, m, e, b);
    AfterLastOccurrence(a + s + m, e, b);
  }

  /** A text ending with `p`, then `m`, then `q` contains both. */
  lemma ContainsBothAtEnd(x: string, p: string, m: string, q: string)
    ensures Contains(x + (p + m + q), p) && Contains(x + (p + m + q), q)
  {
    ContainsBoth(x, p, m, q, "");
    assert x + p + m + q + "" == x + (p + m + q);
  }

  /** Blank lines added on either side of a text that lacks a pattern without line breaks
      do not make it contain the pattern. */
  lemma BlankPadLacks(x: string, pat: string)
    requires !Contains(x, pat) && |pat| > 0 && '\n' !in pat
    ensures !Contains(x + "\n\n", pat) && !Contains("\n\n" + x, pat)
  {
    PadLacks("", x, "\n\n", pat);
    assert "" + x + "\n\n" == x + "\n\n";
    PadLacks("\n\n", x, "", pat);
    assert "\n\n" + x + "" == "\n\n" + x;
  }

  /** The right-stripped text before the first occurrence, followed by a blank line, still
      lacks the pattern and is its own right-strip. */
  lemma KeptBefore(content: string, pat: string)
    requires |pat| > 0 && '\n' !in pat
    ensures var pre := RStrip(BeforeFirst(content, pat));
      !Contains(pre + "\n\n", pat) && RStrip(pre + "\n\n") == pre
  {
    var before := BeforeFirst(content, pat);
    var pre := RStrip(before);
    BeforeFirstLacks(content, pat);
    SliceLacks(before, pat, 0, |pre|);
    assert before[0..|pre|] == pre;
    BlankPadLacks(pre, pat);
    RStripBlankSuffix(pre, "\n\n");
    RStripIdempotent(before);
  }

  /** A blank line followed by the left-stripped text after the last occurrence still
      lacks the pattern, and left-stripping it gives that text back. */
  lemma KeptAfter(content: string, pat: string)
    requires |pat| > 0 && '\n' !in pat
    ensures var post := LStrip(AfterLast(content, pat));
      !Contains("\n\n" + post, pat) && LStrip("\n\n" + post) == post
  {
    var after := AfterLast(content, pat);
    var post := LStrip(after);
    AfterLastLacks(content, pat);
    SliceLacks(after, pat, |after| - |post|, |after|);
    assert after[|after| - |post|..|after|] == post;
    BlankPadLacks(post, pat);
    LStripBlankPrefix("\n\n", post);
    LStripIdempotent(after);
  }

  // ---------------------------------------------------------------------------
  // The splice shared by readme_updater.py and generate_tool_table.py

  /** `full_table`: the markers around the header and the rows. */
  function FullTable(rows: seq<string>): (t: string)
    ensures StartsWith(t, Start) && EndsWith(t, End)
  {
    Start + "\n" + TableHeader + "\n" + Join("\n", rows) + "\n" + End
  }

  /** Read as lines, the table is the start marker, the two header lines, the rows (an
      empty line when there are none) and the end marker. */
  lemma FullTableLines(rows: seq<string>)
    requires forall k :: 0 <= k < |rows| ==> '\n' !in rows[k]
    ensures Split(FullTable(rows), "\n")
      == [Start, HeaderNames, HeaderRule] + (if rows == [] then [""] else rows) + [End]
  {
    MarkersUnbordered();
    HeaderLines();
    SplitFramed(Start, HeaderNames, HeaderRule, rows, End);
  }

  lemma HeaderLines()
    ensures '\n' !in HeaderNames && '\n' !in HeaderRule
  {
  }

  /** Lines framed by three header lines and a footer split back into those lines. */
  lemma SplitFramed(s: string, h1: string, h2: string, rows: seq<string>, e: string)
    requires '\n' !in s && '\n' !in h1 && '\n' !in h2 && '\n' !in e
    requires forall k :: 0 <= k < |rows| ==> '\n' !in rows[k]
    ensures Split(s + "\n" + (h1 + "\n" + h2) + "\n" + Join("\n", rows) + "\n" + e, "\n")
      == [s, h1, h2] + (if rows == [] then [""] else rows) + [e]
  {
    var body := if rows == [] then [""] else rows;
    var all := [s, h1, h2] + body + [e];
    FramedJoin(s, h1, h2, rows, e);
    forall k | 0 <= k < |all| ensures '\n' !in all[k] {
      if 3 <= k < 3 + |body| {
        assert all[k] == body[k - 3];
      }
    }
    SplitJoinNewline(all);
  }

  lemma FramedJoin(s: string, h1: string, h2: string, rows: seq<string>, e: string)
    ensures s + "\n" + (h1 + "\n" + h2) + "\n" + Join("\n", rows) + "\n" + e
      == Join("\n", [s, h1, h2] + (if rows == [] then [""] else rows) + [e])
  {
    var head := [s, h1, h2];
    var body := if rows == [] then [""] else rows;
    assert Join("\n", body) == Join("\n", rows);
    assert Join("\n", head) == s + "\n" + (h1 + "\n" + h2) by {
      assert head[1..] == [h1, h2] && [h1, h2][1..] == [h2];
      assert Join("\n", [h1, h2]) == h1 + "\n" + h2;
    }
    JoinConcat("\n", head, body);
    JoinConcat("\n", head + body, [e]);
  }

  /** The new README text: with both markers, the text before the first start marker
      (right-stripped) and after the last end marker (left-stripped) around the table,
      separated by blank lines; otherwise the stripped text, a blank line and the table. */
  function SpliceTable(content: string, full: string): string {
    if Contains(content, Start) && Contains(content, End) then
      RStrip(BeforeFirst(content, Start)) + "\n\n" + full + "\n\n" + LStrip(AfterLast(content, End))
    else
      Strip(content) + "\n\n" + full
  }

  /** Replacing the old table: a README holding one old table between the markers keeps
      its text around the table, and the table is replaced by the new one. */
  lemma SpliceReplacesTable(a: string, m: string, b: string, full: string)
    requires !Contains(a, Start) && !Contains(b, End)
    ensures SpliceTable(a + Start + m + End + b, full)
      == RStrip(a) + "\n\n" + full + "\n\n" + LStrip(b)
  {
    MarkersUnbordered();
    Framed(a, Start, m, End, b);
  }

  lemma Regroup(p: string, n: string, s: string, m: string, e: string, q: string)
    ensures p + n + (s + m + e) + n + q == (p + n) + s + m + e + (n + q)
  {
  }

  /** Splicing again with the same table changes nothing, once the README has both markers. */
  lemma SpliceIdempotent(content: string, mid: string)
    requires Contains(content, Start) && Contains(content, End)
    ensures var full := Start + mid + End;
      SpliceTable(SpliceTable(content, full), full) == SpliceTable(content, full)
  {
    var pre := RStrip(BeforeFirst(content, Start));
    var post := LStrip(AfterLast(content, End));
    MarkersUnbordered();
    KeptBefore(content, Start);
    KeptAfter(content, End);
    Regroup(pre, "\n\n", Start, mid, End, post);
    SpliceReplacesTable(pre + "\n\n", mid, "\n\n" + post, Start + mid + End);
  }

  /** A text holding a table between the markers has both markers. */
  lemma HasMarkersIn(t: string, x: string, mid: string, y: string)
    requires t == x + Start + mid + End + y
    ensures Contains(t, Start) && Contains(t, End)
  {
    ContainsBoth(x, Start, mid, End, y);
  }

  /** Every splice leaves the table between the two markers in the README. */
  lemma SpliceHasMarkers(content: string, mid: string)
    ensures Contains(SpliceTable(content, Start + mid + End), Start)
    ensures Contains(SpliceTable(content, Start + mid + End), End)
  {
    if Contains(content, Start) && Contains(content, End) {
      SplicedBetween(content, mid);
    } else {
      ContainsBothAtEnd(Strip(content) + "\n\n", Start, mid, End);
    }
  }

  lemma SplicedBetween(content: string, mid: string)
    requires Contains(content, Start) && Contains(content, End)
    ensures Contains(SpliceTable(content, Start + mid + End), Start)
    ensures Contains(SpliceTable(content, Start + mid + End), End)
  {
    var pre := RStrip(BeforeFirst(content, Start));
    var post := LStrip(AfterLast(content, End));
    var full := Start + mid + End;
    var t := SpliceTable(content, full);
    assert t == pre + "\n\n" + full + "\n\n" + post;
    HasMarkersIn(t, pre + "\n\n", mid, "\n\n" + post);
  }

  /** After any splice the README has both markers, so from the second run on the text
      stays the same. */
  lemma SpliceSettles(content: string, mid: string)
    ensures var full := Start + mid + End;
      var once := SpliceTable(content, full);
      SpliceTable(SpliceTable(once, full), full) == SpliceTable(once, full)
  {
    SpliceHasMarkers(content, mid);
    SpliceIdempotent(SpliceTable(content, Start + mid + End), mid);
  }
}
