/** The pure parts of the landing page script `functions.js`: the cyclic style map, the
    carousel's neighbour arithmetic, the Purpose/Key Features splitter and the use-case
    line filter.  Regular-expression matches arrive as inputs: the captured text, or
    `None` when the pattern does not match. */
module LandingPage {
  import opened Opt
  import opened Strings

  // ---------------------------------------------------------------------------
  // generateStyleMap

  const Colors: seq<string> := ["blue", "green", "purple", "yellow", "pink", "cyan", "red", "orange"]

  /** The five class strings of one tool card, all built from one colour. */
  datatype Style = Style(gradient: string, border: string, shadow: string, text: string, btn: string)

  function StyleOf(color: string): Style {
    Style(
      "from-" + color + "-900 via-gray-800 to-gray-900",
      "border-" + color + "-700",
      "hover:shadow-" + color + "-500/40",
      "text-" + color + "-300",
      "bg-" + color + "-700 hover:bg-" + color + "-600")
  }

  /** The style of the folder at position `index`: the colours repeat every eight. */
  function StyleAt(index: nat): Style {
    StyleOf(Colors[index % |Colors|])
  }

  /** The map after the `reduce` has visited every folder, in order: each visit sets the
      folder's entry to the style of its position. */
  function StyleMap(folders: seq<string>): map<string, Style>
    decreases |folders|
  {
    if |folders| == 0 then map[]
    else StyleMap(folders[..|folders| - 1])[folders[|folders| - 1] := StyleAt(|folders| - 1)]
  }

  /** `generateStyleMap`: the `reduce` that fills the map folder by folder. */
  method GenerateStyleMap(folders: seq<string>) returns (styles: map<string, Style>)
    ensures styles == StyleMap(folders)
  {
    styles := map[];
    for index := 0 to |folders|
      invariant styles == StyleMap(folders[..index])
    {
      assert folders[..index + 1][..index] == folders[..index];
      var color := Colors[index % |Colors|];
      styles := styles[folders[index] := StyleOf(color)];
    }
    assert folders[..|folders|] == folders;
  }

  /** Every folder gets an entry, and nothing else does. */
  lemma {:induction false} StyleMapKeys(folders: seq<string>)
    ensures forall f :: f in StyleMap(folders) <==> f in folders
    decreases |folders|
  {
    if |folders| > 0 {
      var front := folders[..|folders| - 1];
      StyleMapKeys(front);
      assert folders == front + [folders[|folders| - 1]];
    }
  }

  /** A folder named more than once keeps the style of its last position. */
  lemma {:induction false} StyleMapLastPosition(folders: seq<string>, i: nat)
    requires i < |folders| && folders[i] !in folders[i + 1..]
    ensures folders[i] in StyleMap(folders) && StyleMap(folders)[folders[i]] == StyleAt(i)
    decreases |folders|
  {
    var n := |folders| - 1;
    if i < n {
      var front := folders[..n];
      assert folders[i + 1..] == front[i + 1..] + [folders[n]];
      StyleMapLastPosition(front, i);
      StyleMapKeys(front);
    }
  }

  /** The border class gives its colour back. */
  lemma StyleOfInjective(c: string, d: string)
    requires StyleOf(c) == StyleOf(d)
    ensures c == d
  {
    var b, e := StyleOf(c).border, StyleOf(d).border;
    assert |c| == |b| - 11 == |e| - 11 == |d|;
    assert c == b[7..7 + |c|];
    assert d == e[7..7 + |d|];
  }

  lemma ColorsDistinct()
    ensures forall i, j :: 0 <= i < j < |Colors| ==> Colors[i] != Colors[j]
  {
  }

  /** Two positions get the same style exactly when they are a multiple of eight apart. */
  lemma StylesRepeatEveryEight(i: nat, j: nat)
    ensures StyleAt(i) == StyleAt(j) <==> i % 8 == j % 8
  {
    if StyleAt(i) == StyleAt(j) {
      StyleOfInjective(Colors[i % 8], Colors[j % 8]);
      ColorsDistinct();
    }
  }

  // ---------------------------------------------------------------------------
  // generateDynamicCard: index arithmetic

  const Angles: seq<int> := [4, -8, -7, 11, 13, -17, 20]

  /** The tilt of card `idx`, taken cyclically from the angle table. */
  function CardAngle(idx: nat): (angle: int)
    ensures angle in Angles
  {
    Angles[idx % 7]
  }

  /** Card `idx` carries the radio button `radio-(idx + 1)`. */
  function RadioId(idx: int): int { idx + 1 }

  /** `prevIdx`: the radio id the "previous" arrow points to.  JavaScript's `%` agrees
      with Dafny's here, as both operands are non-negative. */
  function PrevRadio(idx: int, total: int): (id: int)
    requires 0 <= idx < total
    ensures 1 <= id <= total
    ensures id == RadioId(if idx == 0 then total - 1 else idx - 1)
  {
    (idx - 1 + total) % total + 1
  }

  /** `nextIdx`: the radio id the "next" arrow points to. */
  function NextRadio(idx: int, total: int): (id: int)
    requires 0 <= idx < total
    ensures 1 <= id <= total
    ensures id == RadioId(if idx == total - 1 then 0 else idx + 1)
  {
    (idx + 1) % total + 1
  }

  /** Following "previous" and then "next" (or the other way round) comes back to the
      same card. */
  lemma PrevNextInverse(idx: int, total: int)
    requires 0 <= idx < total
    ensures NextRadio(PrevRadio(idx, total) - 1, total) == RadioId(idx)
    ensures PrevRadio(NextRadio(idx, total) - 1, total) == RadioId(idx)
  {
  }

  // ---------------------------------------------------------------------------
  // extractPurposeAndFeatures

  /** `line.replace(/^\s*>?\s?/, '')`: leading whitespace, then one `>` if there is one,
      then one whitespace character if there is one. */
  function JsUnquote(line: string): (r: string)
    ensures |r| <= |line| && r == line[|line| - |r|..]
  {
    var a := LStrip(line);
    var b := if |a| > 0 && a[0] == '>' then a[1..] else a;
    if |b| > 0 && IsSpace(b[0]) then b[1..] else b
  }

  /** The blockquote content after unquoting each line and trimming the whole, split
      back into lines. */
  function BlockquoteLines(block: string): seq<string> {
    Split(Strip(Join("\n", MapSeq(JsUnquote, Split(block, "\n")))), "\n")
  }

  /** A line that opens the features: trimmed and lower-cased it starts with `key features`
      (`LowerStartsWithIsStartsWith` relates the character-wise test to `Lower`). */
  predicate IsKeyFeatures(line: string) {
    LowerStartsWith(Strip(line), "key features")
  }

  /** The position of the first marked line, or the number of lines when none is marked. */
  function FirstMarked(marks: seq<bool>): (k: nat)
    ensures k <= |marks|
    ensures forall j :: 0 <= j < k ==> !marks[j]
    ensures k < |marks| ==> marks[k]
  {
    if |marks| == 0 || marks[0] then 0 else 1 + FirstMarked(marks[1..])
  }

  /** The position of the first Key Features line, or the number of lines when there is none. */
  function KeyFeaturesIndex(lines: seq<string>): (k: nat)
    ensures k <= |lines|
  {
    FirstMarked(MapSeq(IsKeyFeatures, lines))
  }

  /** No line before the index opens the features, and the line at the index (if any) does. */
  lemma KeyFeaturesIndexIsFirst(lines: seq<string>)
    ensures forall j :: 0 <= j < KeyFeaturesIndex(lines) ==> !IsKeyFeatures(lines[j])
    ensures KeyFeaturesIndex(lines) < |lines| ==> IsKeyFeatures(lines[KeyFeaturesIndex(lines)])
  {
    var k := KeyFeaturesIndex(lines);
    forall j | 0 <= j < k ensures !IsKeyFeatures(lines[j]) {
      MapSeqAt(IsKeyFeatures, lines, j);
    }
    if k < |lines| {
      MapSeqAt(IsKeyFeatures, lines, k);
    }
  }

  /** The `foundKeyFeatures` loop, for any test of the marker line: the lines before the
      first marker are the first part, the lines after it the second, and the marker
      itself is dropped. */
  method SplitAtFirst(lines: seq<string>, isMarker: string -> bool) returns (before: seq<string>, after: seq<string>)
    ensures before == lines[..FirstMarked(MapSeq(isMarker, lines))]
    ensures after == if FirstMarked(MapSeq(isMarker, lines)) < |lines| then lines[FirstMarked(MapSeq(isMarker, lines)) + 1..] else []
  {
    ghost var marks := MapSeq(isMarker, lines);
    ghost var k := FirstMarked(marks);
    before, after := [], [];
    var found := false;
    for i := 0 to |lines|
      invariant found == (k < i)
      invariant !found ==> before == lines[..i] && after == []
      invariant found ==> before == lines[..k] && after == lines[k + 1..i]
    {
      var line := lines[i];
      MapSeqAt(isMarker, lines, i);
      if !found && isMarker(line) {
        found := true;
        continue;
      }
      if !found {
        before := before + [line];
      } else {
        assert lines[k + 1..i + 1] == lines[k + 1..i] + [line];
        after := after + [line];
      }
    }
    if k < |lines| {
      assert after == lines[k + 1..|lines|];
    } else {
      assert before == lines[..|lines|];
    }
  }

  /** The purpose lines and the feature lines of a blockquote. */
  method SplitPurposeAndFeatures(lines: seq<string>) returns (purposeLines: seq<string>, featuresLines: seq<string>)
    ensures purposeLines == lines[..KeyFeaturesIndex(lines)]
    ensures featuresLines == if KeyFeaturesIndex(lines) < |lines| then lines[KeyFeaturesIndex(lines) + 1..] else []
  {
    purposeLines, featuresLines := SplitAtFirst(lines, IsKeyFeatures);
  }

  /** `.filter(keep)`: the strings that pass the test, in order. */
  function Keep(xs: seq<string>, keep: string -> bool): (r: seq<string>)
    ensures |r| <= |xs|
    ensures forall i :: 0 <= i < |r| ==> keep(r[i]) && r[i] in xs
  {
    if |xs| == 0 then []
    else (if keep(xs[0]) then [xs[0]] else []) + Keep(xs[1..], keep)
  }

  /** `.map(line => line.trim()).filter(keep)` */
  function TrimFilter(lines: seq<string>, keep: string -> bool): seq<string> {
    Keep(MapSeq(Strip, lines), keep)
  }

  lemma {:induction false} KeepConcat(a: seq<string>, b: seq<string>, keep: string -> bool)
    ensures Keep(a + b, keep) == Keep(a, keep) + Keep(b, keep)
  {
    if |a| == 0 {
      assert a + b == b;
    } else {
      assert (a + b)[0] == a[0] && (a + b)[1..] == a[1..] + b;
      KeepConcat(a[1..], b, keep);
    }
  }

  /** Filtering works line by line: a line is kept, trimmed, exactly when its trimmed form
      passes the test, and the kept lines stay in their order. */
  lemma TrimFilterAround(a: seq<string>, x: string, b: seq<string>, keep: string -> bool)
    ensures TrimFilter(a + [x] + b, keep)
      == TrimFilter(a, keep) + (if keep(Strip(x)) then [Strip(x)] else []) + TrimFilter(b, keep)
  {
    MapSeqAppend(Strip, a + [x], b);
    MapSeqAppend(Strip, a, [x]);
    assert MapSeq(Strip, [x]) == [Strip(x)];
    KeepConcat(MapSeq(Strip, a) + [Strip(x)], MapSeq(Strip, b), keep);
    KeepConcat(MapSeq(Strip, a), [Strip(x)], keep);
    assert Keep([Strip(x)], keep) == if keep(Strip(x)) then [Strip(x)] else [];
  }

  predicate NonEmpty(s: string) { |s| > 0 }

  /** `extractPurposeAndFeatures`: the purpose lines and the feature lines, each trimmed,
      empty ones removed and `\n`-joined.  With no Purpose blockquote both are empty. */
  method ExtractPurposeAndFeatures(block: Option<string>) returns (purpose: string, features: string)
    ensures block.None? ==> purpose == "" && features == ""
    ensures block.Some? ==>
      var lines := BlockquoteLines(block.value);
      var k := KeyFeaturesIndex(lines);
      && purpose == Join("\n", TrimFilter(lines[..k], NonEmpty))
      && features == Join("\n", TrimFilter(if k < |lines| then lines[k + 1..] else [], NonEmpty))
  {
    purpose, features := "", "";
    if block.Some? {
      var lines := BlockquoteLines(block.value);
      var purposeLines, featuresLines := SplitPurposeAndFeatures(lines);
      purpose := Join("\n", TrimFilter(purposeLines, NonEmpty));
      features := Join("\n", TrimFilter(featuresLines, NonEmpty));
    }
  }

  // ---------------------------------------------------------------------------
  // The use-case list of renderDynamicUseCaseSection

  /** A use case: non-empty and not a `#` heading. */
  predicate IsUseCase(line: string) {
    |line| > 0 && line[0] != '#'
  }

  /** The use cases of the captured section: its lines trimmed, empty and `#` lines
      dropped, order kept. */
  function UseCases(section: string): (r: seq<string>)
    ensures forall i :: 0 <= i < |r| ==> |r[i]| > 0 && r[i][0] != '#'
  {
    TrimFilter(Split(section, "\n"), IsUseCase)
  }

  /** Each kept line is trimmed: it neither starts nor ends with whitespace. */
  lemma TrimmedLines(lines: seq<string>, keep: string -> bool)
    requires forall s :: keep(s) ==> |s| > 0
    ensures forall i :: 0 <= i < |TrimFilter(lines, keep)| ==>
      !IsSpace(TrimFilter(lines, keep)[i][0]) && !IsSpace(TrimFilter(lines, keep)[i][|TrimFilter(lines, keep)[i]| - 1])
  {
    var r := TrimFilter(lines, keep);
    forall i | 0 <= i < |r|
      ensures !IsSpace(r[i][0]) && !IsSpace(r[i][|r[i]| - 1])
    {
      MapSeqMember(Strip, lines, r[i]);
      var y :| y in lines && Strip(y) == r[i];
      StripEnds(y);
    }
  }

  /** A non-empty stripped string begins and ends with a non-space character. */
  lemma StripEnds(s: string)
    requires |Strip(s)| > 0
    ensures !IsSpace(Strip(s)[0]) && !IsSpace(Strip(s)[|Strip(s)| - 1])
  {
    var l := LStrip(s);
    assert Strip(s) == l[..|Strip(s)|];
  }
}
