/** `readme_updater/readme_updater_tool.py`: the title and Purpose extraction from a tool
    README, the tool table it builds from them, the marker replacement in the root README,
    and the pipeline that turns a script's main docstring into a Purpose blockquote.
    Files are read by the caller: a README is the list of its lines as `readlines`
    returns them, a directory is its name and, when it has one, its README. */
module ReadmeTool {
  import opened Opt
  import opened Strings
  import opened Splice

  // ---------------------------------------------------------------------------
  // extract_title_and_purpose

  /** A heading line: its stripped form starts with `#`. */
  predicate IsHeading(line: string) {
    StartsWith(Strip(line), "#")
  }

  /** `line.strip().lstrip("# ")` */
  function Heading(line: string): (t: string)
    ensures t == [] || (t[0] != '#' && t[0] != ' ')
  {
    LStripChars(Strip(line), {'#', ' '})
  }

  /** The title: the first heading line, with its leading `#` and spaces removed. */
  function Title(lines: seq<string>): string {
    if |lines| == 0 then ""
    else if IsHeading(lines[0]) then Heading(lines[0])
    else Title(lines[1..])
  }

  /** The line that opens the Purpose section: `line.strip().lower()` starts with
      `> ## purpose`. */
  predicate IsPurposeHeader(line: string) {
    LowerStartsWith(Strip(line), "> ## purpose")
  }

  /** A blockquote line of the section (the list-item test `>  -` is a special case). */
  predicate Quoted(line: string) {
    StartsWith(Strip(line), "> ")
  }

  /** `line.strip().lstrip("> ")` */
  function Unquote(line: string): (t: string)
    ensures t == [] || (t[0] != '>' && t[0] != ' ')
  {
    LStripChars(Strip(line), {'>', ' '})
  }

  /** How the Purpose loop sees a line: the header, a quoted line (with its unquoted
      text), or any other line. */
  datatype LineKind = PurposeHeader | QuotedLine(text: string) | OtherLine

  function Classify(line: string): LineKind {
    if IsPurposeHeader(line) then PurposeHeader
    else if Quoted(line) then QuotedLine(Unquote(line))
    else OtherLine
  }

  /** The kept lines once inside the section: further header lines are skipped, quoted
      lines are kept unquoted, and the first other line ends the section. */
  function Section(kinds: seq<LineKind>): seq<string> {
    if |kinds| == 0 then []
    else match kinds[0]
      case PurposeHeader => Section(kinds[1..])
      case QuotedLine(text) => [text] + Section(kinds[1..])
      case OtherLine => []
  }

  /** The kept lines of the whole README: nothing before the first header line. */
  function Scan(kinds: seq<LineKind>): seq<string> {
    if |kinds| == 0 then []
    else if kinds[0] == PurposeHeader then Section(kinds[1..])
    else Scan(kinds[1..])
  }

  function PurposeLines(lines: seq<string>): seq<string> {
    Scan(MapSeq(Classify, lines))
  }

  /** The Purpose text: the kept lines joined by spaces and stripped. */
  function Purpose(lines: seq<string>): string {
    Strip(Join(" ", PurposeLines(lines)))
  }

  /** `extract_title_and_purpose`: one pass for the title, one for the Purpose section. */
  method ExtractTitleAndPurpose(lines: seq<string>) returns (title: string, purpose: string)
    ensures title == Title(lines)
    ensures purpose == Purpose(lines)
  {
    title := FindTitle(lines);
    var kept := ReadPurpose(lines);
    purpose := Strip(Join(" ", kept));
  }

  /** The title loop: stop at the first heading line. */
  method FindTitle(lines: seq<string>) returns (title: string)
    ensures title == Title(lines)
  {
    title := "";
    var i := 0;
    while i < |lines|
      invariant 0 <= i <= |lines|
      invariant Title(lines) == Title(lines[i..])
    {
      if IsHeading(lines[i]) {
        title := Heading(lines[i]);
        assert Title(lines[i..]) == title;
        return;
      }
      i := i + 1;
    }
    assert lines[i..] == [];
  }

  /** The Purpose loop: the `in_purpose` flag turns on at a header line, and the first
      line that is neither a header nor quoted ends the section. */
  method ReadPurpose(lines: seq<string>) returns (kept: seq<string>)
    ensures kept == PurposeLines(lines)
  {
    ghost var kinds := MapSeq(Classify, lines);
    kept := [];
    var inPurpose := false;
    var i := 0;
    while i < |lines|
      invariant 0 <= i <= |lines|
      invariant !inPurpose ==> kept == [] && Scan(kinds) == Scan(kinds[i..])
      invariant inPurpose ==> Scan(kinds) == kept + Section(kinds[i..])
    {
      assert kinds[i..][0] == kinds[i] && kinds[i..][1..] == kinds[i + 1..];
      var kind := LineKindAt(lines, i);
      match kind {
        case PurposeHeader =>
          inPurpose := true;
        case QuotedLine(text) =>
          if inPurpose {
            kept := kept + [text];
          }
        case OtherLine =>
          if inPurpose {
            assert Section(kinds[i..]) == [];
            return;
          }
      }
      i := i + 1;
    }
    assert kinds[i..] == [];
  }

  method LineKindAt(lines: seq<string>, i: nat) returns (kind: LineKind)
    requires i < |lines|
    ensures kind == MapSeq(Classify, lines)[i]
  {
    MapSeqAt(Classify, lines, i);
    kind := Classify(lines[i]);
  }

  /** The title comes from the first heading line, whatever follows it. */
  lemma {:induction false} TitleIsFirstHeading(lines: seq<string>, i: nat)
    requires i < |lines| && IsHeading(lines[i])
    requires forall j :: 0 <= j < i ==> !IsHeading(lines[j])
    ensures Title(lines) == Heading(lines[i])
  {
    if i > 0 {
      TitleIsFirstHeading(lines[1..], i - 1);
    }
  }

  /** Without a heading line the title is empty. */
  lemma {:induction false} NoHeadingNoTitle(lines: seq<string>)
    requires forall j :: 0 <= j < |lines| ==> !IsHeading(lines[j])
    ensures Title(lines) == ""
  {
    if |lines| > 0 {
      NoHeadingNoTitle(lines[1..]);
    }
  }

  /** Without a Purpose header the Purpose is empty. */
  lemma {:induction false} NoHeaderNoPurpose(lines: seq<string>)
    requires forall j :: 0 <= j < |lines| ==> !IsPurposeHeader(lines[j])
    ensures PurposeLines(lines) == [] && Purpose(lines) == ""
  {
    NoHeaderKinds(lines);
    NoHeaderScan(MapSeq(Classify, lines));
  }

  lemma {:induction false} NoHeaderScan(kinds: seq<LineKind>)
    requires forall j :: 0 <= j < |kinds| ==> kinds[j] != PurposeHeader
    ensures Scan(kinds) == []
  {
    if |kinds| > 0 {
      NoHeaderScan(kinds[1..]);
    }
  }

  /** Lines before the first Purpose header are ignored: the section is read from the
      line after it. */
  lemma PurposeAfterFirstHeader(pre: seq<string>, header: string, post: seq<string>)
    requires forall j :: 0 <= j < |pre| ==> !IsPurposeHeader(pre[j])
    requires IsPurposeHeader(header)
    ensures PurposeLines(pre + [header] + post) == Section(MapSeq(Classify, post))
  {
    KindsAround(pre, header, post);
    NoHeaderKinds(pre);
    ScanAfterHeader(MapSeq(Classify, pre), MapSeq(Classify, post));
  }

  lemma NoHeaderKinds(lines: seq<string>)
    requires forall j :: 0 <= j < |lines| ==> !IsPurposeHeader(lines[j])
    ensures forall j :: 0 <= j < |lines| ==> MapSeq(Classify, lines)[j] != PurposeHeader
  {
    forall j | 0 <= j < |lines| ensures MapSeq(Classify, lines)[j] != PurposeHeader {
      MapSeqAt(Classify, lines, j);
    }
  }

  lemma KindsAround(pre: seq<string>, header: string, post: seq<string>)
    requires IsPurposeHeader(header)
    ensures MapSeq(Classify, pre + [header] + post)
      == MapSeq(Classify, pre) + [PurposeHeader] + MapSeq(Classify, post)
  {
    MapSeqAppend(Classify, pre + [header], post);
    MapSeqAppend(Classify, pre, [header]);
    assert MapSeq(Classify, [header]) == [PurposeHeader];
  }

  lemma {:induction false} ScanAfterHeader(pre: seq<LineKind>, post: seq<LineKind>)
    requires forall j :: 0 <= j < |pre| ==> pre[j] != PurposeHeader
    ensures Scan(pre + [PurposeHeader] + post) == Section(post)
  {
    if |pre| > 0 {
      assert (pre + [PurposeHeader] + post)[1..] == pre[1..] + [PurposeHeader] + post;
      ScanAfterHeader(pre[1..], post);
    } else {
      assert pre + [PurposeHeader] + post == [PurposeHeader] + post;
    }
  }

  /** The section stops at the first line that is neither quoted nor a header: nothing
      after it is read. */
  lemma {:induction false} SectionStops(quoted: seq<LineKind>, rest: seq<LineKind>)
    requires forall j :: 0 <= j < |quoted| ==> quoted[j] != OtherLine
    ensures Section(quoted + [OtherLine] + rest) == Section(quoted)
  {
    if |quoted| > 0 {
      assert (quoted + [OtherLine] + rest)[0] == quoted[0];
      assert (quoted + [OtherLine] + rest)[1..] == quoted[1..] + [OtherLine] + rest;
      SectionStops(quoted[1..], rest);
    }
  }

  /** Each kept line is the text of a quoted line of the section. */
  lemma {:induction false} SectionKeepsQuoted(kinds: seq<LineKind>, k: nat)
    requires k < |Section(kinds)|
    ensures QuotedLine(Section(kinds)[k]) in kinds
  {
    match kinds[0]
    case PurposeHeader =>
      SectionKeepsQuoted(kinds[1..], k);
    case QuotedLine(text) =>
      if k > 0 {
        SectionKeepsQuoted(kinds[1..], k - 1);
      }
  }

  /** Each kept line of the Purpose is a quoted, non-header line of the README with
      `>` and spaces stripped: in particular a `> ##` sub-heading does not end the section
      but is kept. */
  lemma PurposeKeepsQuoted(lines: seq<string>, k: nat) returns (line: string)
    requires k < |PurposeLines(lines)|
    ensures line in lines && Quoted(line) && !IsPurposeHeader(line)
    ensures PurposeLines(lines)[k] == Unquote(line)
  {
    var kinds := MapSeq(Classify, lines);
    var text := ScanKeepsQuoted(kinds, k);
    MapSeqMember(Classify, lines, QuotedLine(text));
    line :| line in lines && Classify(line) == QuotedLine(text);
  }

  lemma {:induction false} ScanKeepsQuoted(kinds: seq<LineKind>, k: nat) returns (text: string)
    requires k < |Scan(kinds)|
    ensures text == Scan(kinds)[k] && QuotedLine(text) in kinds
  {
    text := Scan(kinds)[k];
    if kinds[0] == PurposeHeader {
      SectionKeepsQuoted(kinds[1..], k);
    } else {
      var t := ScanKeepsQuoted(kinds[1..], k);
    }
  }

  // ---------------------------------------------------------------------------
  // generate_tool_table

  /** A tool directory: its name and, when it has one, the lines of its README. */
  datatype ToolDir = ToolDir(name: string, readme: Option<seq<string>>)

  const NoDescription := "No description."

  /** The description cell: `No description.` for an empty Purpose, and a Purpose over 100
      characters cut to its first 97, right-stripped, followed by `...`. */
  function Describe(purpose: string): (d: string)
    ensures 0 < |d| <= 100
    ensures |purpose| == 0 ==> d == NoDescription
    ensures 0 < |purpose| <= 100 ==> d == purpose
    ensures |purpose| > 100 ==> EndsWith(d, "...") && StartsWith(purpose, d[..|d| - 3])
    ensures |purpose| > 100 ==>
              && |d| - 3 <= 97
              && (forall i :: |d| - 3 <= i < 97 ==> IsSpace(purpose[i]))
              && (|d| == 3 || !IsSpace(d[|d| - 4]))
  {
    if |purpose| == 0 then NoDescription
    else if |purpose| > 100 then RStrip(purpose[..97]) + "..."
    else purpose
  }

  /** The link cell: `[name/README.md](name/README.md)`. */
  function Link(name: string): string {
    "[" + name + "/README.md](" + name + "/README.md)"
  }

  /** One table row; an empty title is replaced by the directory name. */
  function Row(name: string, title: string, purpose: string): string {
    "| " + (if |title| == 0 then name else title) + " | " + Describe(purpose) + " | " + Link(name) + " |"
  }

  /** The rows contributed by one directory: none without a README. */
  function RowOf(d: ToolDir): seq<string> {
    match d.readme
    case None => []
    case Some(lines) => [Row(d.name, Title(lines), Purpose(lines))]
  }

  /** The rows, in directory order. */
  function Rows(dirs: seq<ToolDir>): seq<string> {
    FlatMap(RowOf, dirs)
  }

  /** The table: the header followed by the rows, one per line. */
  function ToolTable(dirs: seq<ToolDir>): string {
    Join("\n", [TableHeader] + Rows(dirs))
  }

  /** `generate_tool_table`: one row per directory that has a README. */
  method GenerateToolTable(dirs: seq<ToolDir>) returns (table: string)
    ensures table == ToolTable(dirs)
  {
    var rows: seq<string> := [];
    var i := 0;
    while i < |dirs|
      invariant 0 <= i <= |dirs|
      invariant Rows(dirs) == rows + Rows(dirs[i..])
    {
      var d := dirs[i];
      assert Rows(dirs[i..]) == RowOf(d) + Rows(dirs[i + 1..]);
      var row := RowFor(d);
      rows := rows + row;
      i := i + 1;
    }
    assert rows == Rows(dirs);
    table := Join("\n", [TableHeader] + rows);
  }

  /** The body of the loop: skip a directory without a README, otherwise extract and
      format its row. */
  method RowFor(d: ToolDir) returns (row: seq<string>)
    ensures row == RowOf(d)
  {
    if d.readme.None? {
      return [];
    }
    var title, purpose := ExtractTitleAndPurpose(d.readme.value);
    row := [Row(d.name, title, purpose)];
  }

  /** A directory without a README adds no row; one with a README adds exactly its row, at
      its place. */
  lemma RowsAround(a: seq<ToolDir>, d: ToolDir, b: seq<ToolDir>)
    ensures Rows(a + [d] + b) == Rows(a) + RowOf(d) + Rows(b)
    ensures |RowOf(d)| == (if d.readme.Some? then 1 else 0)
  {
    FlatMapConcat(RowOf, a + [d], b);
    FlatMapAppend(RowOf, a, d);
  }

  /** The table starts with the header line. */
  lemma TableStartsWithHeader(dirs: seq<ToolDir>)
    ensures StartsWith(ToolTable(dirs), TableHeader)
  {
    JoinStartsWith("\n", [TableHeader] + Rows(dirs));
  }

  // ---------------------------------------------------------------------------
  // update_readme_with_table

  /** `re.sub(start.*?end, rep, s, flags=re.DOTALL)`: every span from a start marker to the
      nearest end marker after it, scanning left to right, becomes `rep`. A start marker
      with no end marker after it leaves the rest of the text as it is. */
  function ReplaceSpans(s: string, start: string, end: string, rep: string): string
    requires |start| > 0 && |end| > 0
    decreases |s|
  {
    var first := Find(s, start, 0);
    if first.None? then s
    else
      var close := Find(s, end, first.value + |start|);
      if close.None? then s
      else s[..first.value] + rep + ReplaceSpans(s[close.value + |end|..], start, end, rep)
  }

  /** The block the table is put in: the markers on lines of their own around it. */
  function Block(table: string): string {
    Start + "\n" + table + "\n" + End
  }

  /** `update_readme_with_table`: with both markers each marked span becomes the new
      block; otherwise the block is appended after a blank line. */
  function UpdateReadme(content: string, table: string): string {
    if Contains(content, Start) && Contains(content, End) then ReplaceSpans(content, Start, End, Block(table))
    else RStrip(content) + "\n\n" + Block(table) + "\n"
  }

  /** Without a start marker nothing is replaced. */
  lemma ReplaceSpansNone(s: string, start: string, end: string, rep: string)
    requires |start| > 0 && |end| > 0 && !Contains(s, start)
    ensures ReplaceSpans(s, start, end, rep) == s
  {
  }

  /** A text holding one marked span has exactly that span replaced, and the text around
      it is kept. */
  lemma ReplaceOneSpan(a: string, start: string, m: string, end: string, b: string, rep: string)
    requires Unbordered(start) && Unbordered(end)
    requires !Contains(a, start) && !Contains(m, end) && !Contains(b, start)
    ensures ReplaceSpans(a + start + m + end + b, start, end, rep) == a + rep + b
  {
    var s := a + start + m + end + b;
    FirstAfter(a, start, m, end, b);
    SecondAfter(a, start, m, end, b);
    FrameParts(a, start, m, end, b);
    ReplaceSpansStep(s, start, end, rep);
    ReplaceSpansNone(b, start, end, rep);
  }

  lemma {:induction false} ReplaceSpansStep(s: string, start: string, end: string, rep: string)
    requires |start| > 0 && |end| > 0
    requires Find(s, start, 0).Some? && Find(s, end, Find(s, start, 0).value + |start|).Some?
    ensures ReplaceSpans(s, start, end, rep)
      == s[..Find(s, start, 0).value] + rep
        + ReplaceSpans(s[Find(s, end, Find(s, start, 0).value + |start|).value + |end|..], start, end, rep)
  {
  }

  /** Updating a README that holds one table between the markers replaces that table by
      the new one and keeps the text around it. */
  lemma UpdateReplacesTable(a: string, m: string, b: string, table: string)
    requires !Contains(a, Start) && !Contains(m, End) && !Contains(b, Start)
    ensures UpdateReadme(a + Start + m + End + b, table) == a + Block(table) + b
  {
    MarkersUnbordered();
    ContainsBoth(a, Start, m, End, b);
    ReplaceOneSpan(a, Start, m, End, b, Block(table));
  }

  /** A table without an end marker in it, framed by `Block`, is again a single span. */
  lemma BlockBody(table: string)
    requires !Contains(table, End)
    ensures Block(table) == Start + ("\n" + table + "\n") + End
    ensures !Contains("\n" + table + "\n", End)
  {
    MarkersUnbordered();
    PadLacks("\n", table, "\n", End);
  }

  /** Updating twice with the same table gives what updating once gives, for a README
      that holds one table. */
  lemma UpdateIdempotent(a: string, m: string, b: string, table: string)
    requires !Contains(a, Start) && !Contains(m, End) && !Contains(b, Start)
    requires !Contains(table, End)
    ensures var once := UpdateReadme(a + Start + m + End + b, table);
      UpdateReadme(once, table) == once
  {
    UpdateReplacesTable(a, m, b, table);
    BlockBody(table);
    var body := "\n" + table + "\n";
    Ungroup(a, Start, body, End, b);
    UpdateReplacesTable(a, body, b, table);
  }

  /** A README without a start marker gets the table appended; the next update then finds
      it and replaces it in place instead of appending a second one. */
  lemma AppendedTableIsReplacedNextTime(content: string, table: string)
    requires !Contains(content, Start) && !Contains(table, End)
    ensures var once := UpdateReadme(content, table);
      UpdateReadme(once, table) == once
  {
    var pre := RStrip(content) + "\n\n";
    var body := "\n" + table + "\n";
    AppendedBefore(content);
    NewlineLacksStart();
    BlockBody(table);
    Appends(content, table);
    var once := UpdateReadme(content, table);
    var framed := pre + Start + body + End + "\n";
    assert once == framed == pre + Block(table) + "\n";
    UpdateReplacesTable(pre, body, "\n", table);
  }

  /** Without a start marker the block is appended. */
  lemma Appends(content: string, table: string)
    requires !Contains(content, Start)
    ensures UpdateReadme(content, table) == RStrip(content) + "\n\n" + Block(table) + "\n"
  {
  }

  /** The text kept before an appended table holds no start marker. */
  lemma AppendedBefore(content: string)
    requires !Contains(content, Start)
    ensures !Contains(RStrip(content) + "\n\n", Start)
  {
    MarkersUnbordered();
    var pre := RStrip(content);
    SliceLacks(content, Start, 0, |pre|);
    assert content[0..|pre|] == pre;
    PadLacks("", pre, "\n\n", Start);
    assert "" + pre + "\n\n" == pre + "\n\n";
  }

  lemma NewlineLacksStart()
    ensures !Contains("\n", Start)
  {
    MarkersUnbordered();
    PadLacks("\n", "", "", Start);
    assert "\n" + "" + "" == "\n";
  }

  // ---------------------------------------------------------------------------
  // extract_main_docstring

  const TripleDouble := "\"\"\""
  const TripleSingle := "\'\'\'"

  /** A line holding a docstring delimiter. */
  predicate HasDelimiter(line: string) {
    Contains(line, TripleDouble) || Contains(line, TripleSingle)
  }

  /** `s.count(pat)`: the number of non-overlapping occurrences. */
  function Count(s: string, pat: string): nat
    requires |pat| > 0
  {
    |Split(s, pat)| - 1
  }

  /** A one-line docstring: exactly two delimiters of one kind on the line. */
  predicate OneLine(line: string) {
    Count(line, TripleDouble) == 2 || Count(line, TripleSingle) == 2
  }

  lemma SplitFound(s: string, pat: string)
    requires |pat| > 0 && Contains(s, pat)
    ensures |Split(s, pat)| >= 2
  {
  }

  /** The text of a one-line docstring: after the first `\"\"\"` when the line has one,
      otherwise after the first `\'\'\'`. */
  function Inline(line: string): string
    requires HasDelimiter(line)
  {
    if Contains(line, TripleDouble) then
      SplitFound(line, TripleDouble);
      Split(line, TripleDouble)[1]
    else
      SplitFound(line, TripleSingle);
      Split(line, TripleSingle)[1]
  }

  /** The docstring, before its opening delimiter is reached. */
  function DocFrom(lines: seq<string>): seq<string> {
    if |lines| == 0 then []
    else if HasDelimiter(lines[0]) then
      (if OneLine(lines[0]) then [Inline(lines[0])] else DocBody(lines[1..]))
    else DocFrom(lines[1..])
  }

  /** The docstring after its opening line: right-stripped lines up to the next delimiter. */
  function DocBody(lines: seq<string>): seq<string> {
    if |lines| == 0 then []
    else if HasDelimiter(lines[0]) then []
    else [RStrip(lines[0])] + DocBody(lines[1..])
  }

  /** `extract_main_docstring`: the `in_doc` flag turns on at the first delimiter line. */
  method ExtractMainDocstring(lines: seq<string>) returns (doc: seq<string>)
    ensures doc == DocFrom(lines)
  {
    doc := [];
    var inDoc := false;
    var i := 0;
    while i < |lines|
      invariant 0 <= i <= |lines|
      invariant !inDoc ==> doc == [] && DocFrom(lines) == DocFrom(lines[i..])
      invariant inDoc ==> DocFrom(lines) == doc + DocBody(lines[i..])
    {
      var line := lines[i];
      if HasDelimiter(line) {
        if !inDoc {
          inDoc := true;
          if OneLine(line) {
            doc := doc + [Inline(line)];
            assert DocFrom(lines[i..]) == doc;
            return;
          }
          i := i + 1;
          continue;
        } else {
          assert DocBody(lines[i..]) == [];
          assert doc + [] == doc;
          return;
        }
      }
      if inDoc {
        doc := doc + [RStrip(line)];
      }
      i := i + 1;
    }
    assert lines[i..] == [];
  }

  /** A one-line docstring is the text between its delimiters. */
  lemma {:induction false} OneLineDocstring(pre: seq<string>, line: string, rest: seq<string>)
    requires forall j :: 0 <= j < |pre| ==> !HasDelimiter(pre[j])
    requires HasDelimiter(line) && OneLine(line)
    ensures DocFrom(pre + [line] + rest) == [Inline(line)]
  {
    if |pre| > 0 {
      assert (pre + [line] + rest)[1..] == pre[1..] + [line] + rest;
      OneLineDocstring(pre[1..], line, rest);
    } else {
      assert pre + [line] + rest == [line] + rest;
    }
  }

  /** A block docstring is the right-stripped lines strictly between the opening and the
      closing delimiter lines. */
  lemma {:induction false} BlockDocstring(pre: seq<string>, open: string, body: seq<string>,
                                          close: string, rest: seq<string>)
    requires forall j :: 0 <= j < |pre| ==> !HasDelimiter(pre[j])
    requires HasDelimiter(open) && !OneLine(open)
    requires forall j :: 0 <= j < |body| ==> !HasDelimiter(body[j])
    requires HasDelimiter(close)
    ensures DocFrom(pre + [open] + body + [close] + rest) == MapSeq(RStrip, body)
  {
    if |pre| > 0 {
      assert (pre + [open] + body + [close] + rest)[1..] == pre[1..] + [open] + body + [close] + rest;
      BlockDocstring(pre[1..], open, body, close, rest);
    } else {
      assert (pre + [open] + body + [close] + rest)[1..] == body + [close] + rest;
      BodyUntilClose(body, close, rest);
    }
  }

  lemma {:induction false} BodyUntilClose(body: seq<string>, close: string, rest: seq<string>)
    requires forall j :: 0 <= j < |body| ==> !HasDelimiter(body[j])
    requires HasDelimiter(close)
    ensures DocBody(body + [close] + rest) == MapSeq(RStrip, body)
  {
    if |body| > 0 {
      assert (body + [close] + rest)[1..] == body[1..] + [close] + rest;
      BodyUntilClose(body[1..], close, rest);
    } else {
      assert body + [close] + rest == [close] + rest;
    }
  }

  /** A script without any delimiter has no docstring. */
  lemma {:induction false} NoDelimiterNoDocstring(lines: seq<string>)
    requires forall j :: 0 <= j < |lines| ==> !HasDelimiter(lines[j])
    ensures DocFrom(lines) == []
  {
    if |lines| > 0 {
      NoDelimiterNoDocstring(lines[1..]);
    }
  }

  /** A pattern whose first character `x` does not contain is first found right after `x`. */
  lemma FirstAfterFree(x: string, pat: string, y: string)
    requires |pat| > 0 && pat[0] !in x
    ensures Find(x + pat + y, pat, 0) == Some(|x|)
  {
    var s := x + pat + y;
    assert s[|x|..|x| + |pat|] == pat;
    forall j | 0 <= j < |x| ensures !OccursAt(s, pat, j) {
      if j + |pat| <= |s| {
        assert s[j..j + |pat|][0] == x[j];
      }
    }
    FindIs(s, pat, 0, |x|);
  }

  /** A text without the pattern's first character is not split. */
  lemma SplitFree(x: string, pat: string)
    requires |pat| > 0 && pat[0] !in x
    ensures Split(x, pat) == [x]
  {
    FindFacts(x, pat, 0);
    forall j | 0 <= j <= |x| ensures !OccursAt(x, pat, j) {
      if j + |pat| <= |x| {
        assert x[j..j + |pat|][0] == x[j];
      }
    }
  }

  /** `a"""t"""b` with no double quote in `a`, `t` or `b` is a one-line docstring whose
      text is `t`. */
  lemma InlineBetweenQuotes(a: string, t: string, b: string)
    requires '"' !in a && '"' !in t && '"' !in b
    ensures var line := a + TripleDouble + t + TripleDouble + b;
      HasDelimiter(line) && OneLine(line) && Inline(line) == t
  {
    var line := a + TripleDouble + t + TripleDouble + b;
    var rest := t + TripleDouble + b;
    assert line == a + TripleDouble + rest;
    FirstAfterFree(a, TripleDouble, rest);
    FirstAfterFree(t, TripleDouble, b);
    SplitFree(b, TripleDouble);
    assert line[..|a|] == a && line[|a| + 3..] == rest;
    assert rest[..|t|] == t && rest[|t| + 3..] == b;
    assert Split(rest, TripleDouble) == [t, b];
    assert Split(line, TripleDouble) == [a, t, b];
  }

  // ---------------------------------------------------------------------------
  // clean_docstring_lines

  /** `name.replace('.py', '')` */
  function BaseName(name: string): string {
    ReplaceAll(name, ".py", "")
  }

  /** A line naming the script, by file name or by base name. */
  predicate IsNameLine(line: string, name: string) {
    Strip(line) == name || Strip(line) == BaseName(name)
  }

  /** `l.rstrip("\n")` */
  function ChompNewlines(line: string): string {
    RStripChars(line, {'\n'})
  }

  /** How `clean_docstring_lines` sees a line: it names the script, or it is text
      (blank or not) that, when kept, is kept without its trailing newlines. */
  datatype DocLine = NameLine | DocText(blank: bool, text: string)

  function ClassifyDoc(line: string, name: string): DocLine {
    if IsNameLine(line, name) then NameLine
    else DocText(|Strip(line)| == 0, ChompNewlines(line))
  }

  function DocKinds(lines: seq<string>, name: string): (r: seq<DocLine>)
    ensures |r| == |lines|
  {
    if |lines| == 0 then [] else [ClassifyDoc(lines[0], name)] + DocKinds(lines[1..], name)
  }

  lemma {:induction false} DocKindsAt(lines: seq<string>, name: string, j: nat)
    requires j < |lines|
    ensures DocKinds(lines, name)[j] == ClassifyDoc(lines[j], name)
  {
    if j > 0 {
      DocKindsAt(lines[1..], name, j - 1);
    }
  }

  /** The cleaned lines; `skip` is the `skip_next_blank` flag. */
  function CleanFrom(kinds: seq<DocLine>, skip: bool): seq<string> {
    if |kinds| == 0 then []
    else match kinds[0]
      case NameLine => CleanFrom(kinds[1..], true)
      case DocText(blank, text) =>
        if skip && blank then CleanFrom(kinds[1..], false)
        else [text] + CleanFrom(kinds[1..], false)
  }

  function Clean(lines: seq<string>, name: string): seq<string> {
    CleanFrom(DocKinds(lines, name), false)
  }

  /** `clean_docstring_lines` */
  method CleanDocstringLines(docLines: seq<string>, name: string) returns (cleaned: seq<string>)
    ensures cleaned == Clean(docLines, name)
  {
    ghost var kinds := DocKinds(docLines, name);
    cleaned := [];
    var skipNextBlank := false;
    var i := 0;
    while i < |docLines|
      invariant 0 <= i <= |docLines|
      invariant CleanFrom(kinds, false) == cleaned + CleanFrom(kinds[i..], skipNextBlank)
    {
      assert kinds[i..][0] == kinds[i] && kinds[i..][1..] == kinds[i + 1..];
      var kind := DocLineAt(docLines, name, i);
      match kind {
        case NameLine =>
          skipNextBlank := true;
        case DocText(blank, text) =>
          if skipNextBlank && blank {
            skipNextBlank := false;
          } else {
            skipNextBlank := false;
            cleaned := cleaned + [text];
          }
      }
      i := i + 1;
    }
    assert kinds[i..] == [];
  }

  method DocLineAt(lines: seq<string>, name: string, i: nat) returns (kind: DocLine)
    requires i < |lines|
    ensures kind == DocKinds(lines, name)[i]
  {
    DocKindsAt(lines, name, i);
    kind := ClassifyDoc(lines[i], name);
  }

  /** Without a name line every line is kept, with its trailing newlines removed. */
  lemma {:induction false} CleanKeepsAll(kinds: seq<DocLine>, skip: bool)
    requires forall j :: 0 <= j < |kinds| ==> kinds[j].DocText? && !kinds[j].blank
    ensures CleanFrom(kinds, skip) == MapSeq((k: DocLine) => if k.DocText? then k.text else "", kinds)
  {
    if |kinds| > 0 {
      CleanKeepsAll(kinds[1..], false);
    }
  }

  /** A docstring without name lines or blank lines comes through whole, each line
      without its trailing newlines. */
  lemma CleanKeepsAllLines(lines: seq<string>, name: string)
    requires forall j :: 0 <= j < |lines| ==> !IsNameLine(lines[j], name) && |Strip(lines[j])| > 0
    ensures Clean(lines, name) == MapSeq(ChompNewlines, lines)
  {
    var kinds := DocKinds(lines, name);
    forall j | 0 <= j < |kinds| ensures kinds[j].DocText? && !kinds[j].blank {
      DocKindsAt(lines, name, j);
    }
    CleanKeepsAll(kinds, false);
    var f := (k: DocLine) => if k.DocText? then k.text else "";
    forall j | 0 <= j < |lines| ensures MapSeq(f, kinds)[j] == MapSeq(ChompNewlines, lines)[j] {
      DocKindsAt(lines, name, j);
      MapSeqAt(f, kinds, j);
      MapSeqAt(ChompNewlines, lines, j);
    }
  }

  /** The name line drops one blank line after it, but not a second one. */
  lemma DropsOneBlank(rest: seq<DocLine>, b1: string, b2: string)
    ensures CleanFrom([NameLine, DocText(true, b1), DocText(true, b2)] + rest, false)
      == [b2] + CleanFrom(rest, false)
  {
    var ks := [NameLine, DocText(true, b1), DocText(true, b2)] + rest;
    assert ks[1..] == [DocText(true, b1), DocText(true, b2)] + rest;
    assert ks[1..][1..] == [DocText(true, b2)] + rest;
    assert ks[1..][1..][1..] == rest;
    assert CleanFrom(ks[1..][1..], false) == [b2] + CleanFrom(rest, false);
  }

  /** A line after the name line that is not blank is kept. */
  lemma KeepsTextAfterName(rest: seq<DocLine>, t: string)
    ensures CleanFrom([NameLine, DocText(false, t)] + rest, false) == [t] + CleanFrom(rest, false)
  {
    var ks := [NameLine, DocText(false, t)] + rest;
    assert ks[1..] == [DocText(false, t)] + rest;
    assert ks[1..][1..] == rest;
  }

  /** Each kept line is the text of a line that does not name the script. */
  lemma {:induction false} CleanKeptFrom(kinds: seq<DocLine>, skip: bool, k: nat)
    returns (j: nat)
    requires k < |CleanFrom(kinds, skip)|
    ensures j < |kinds| && kinds[j].DocText?
    ensures CleanFrom(kinds, skip)[k] == kinds[j].text
  {
    var rest := kinds[1..];
    match kinds[0]
    case NameLine =>
      var j' := CleanKeptFrom(rest, true, k);
      j := j' + 1;
    case DocText(blank, text) =>
      if skip && blank {
        var j' := CleanKeptFrom(rest, false, k);
        j := j' + 1;
      } else if k == 0 {
        j := 0;
      } else {
        var j' := CleanKeptFrom(rest, false, k - 1);
        j := j' + 1;
      }
  }

  /** Each cleaned line is an input line that does not name the script, without its
      trailing newlines. */
  lemma CleanKeptLine(lines: seq<string>, name: string, k: nat) returns (j: nat)
    requires k < |Clean(lines, name)|
    ensures j < |lines| && !IsNameLine(lines[j], name)
    ensures Clean(lines, name)[k] == ChompNewlines(lines[j])
  {
    j := CleanKeptFrom(DocKinds(lines, name), false, k);
    DocKindsAt(lines, name, j);
  }

  // ---------------------------------------------------------------------------
  // format_html_tags_for_md and blockquote_markdown

  /** `re.sub(r'(<[^>]+>)', r'`\1`', line)`: scanning left to right, a `<` followed by at
      least one character other than `>` and then a `>` is a tag, and is wrapped in
      backticks; any other character is copied. */
  function WrapTags(s: string): string
    decreases |s|
  {
    if |s| == 0 then ""
    else
      var inner := BeforeChar(s[1..], '>');
      if s[0] == '<' && 0 < |inner| < |s| - 1 then
        var n := |inner| + 2;
        "`" + s[..n] + "`" + WrapTags(s[n..])
      else [s[0]] + WrapTags(s[1..])
  }

  /** The text with every backtick removed. */
  function DropTicks(s: string): string {
    if |s| == 0 then "" else (if s[0] == '`' then "" else [s[0]]) + DropTicks(s[1..])
  }

  lemma {:induction false} DropTicksAppend(a: string, b: string)
    ensures DropTicks(a + b) == DropTicks(a) + DropTicks(b)
  {
    if |a| == 0 {
      assert a + b == b;
    } else {
      assert (a + b)[0] == a[0];
      assert (a + b)[1..] == a[1..] + b;
      DropTicksAppend(a[1..], b);
    }
  }

  /** Wrapping tags only adds backticks: with them removed the text is what it was. */
  lemma {:induction false} WrapTagsOnlyAddsTicks(s: string)
    ensures DropTicks(WrapTags(s)) == DropTicks(s)
    decreases |s|
  {
    if |s| > 0 {
      var inner := BeforeChar(s[1..], '>');
      if s[0] == '<' && 0 < |inner| < |s| - 1 {
        var n := |inner| + 2;
        WrapTagsOnlyAddsTicks(s[n..]);
        DropTicksAppend("`" + s[..n] + "`", WrapTags(s[n..]));
        DropTicksAppend("`" + s[..n], "`");
        DropTicksAppend("`", s[..n]);
        assert s == s[..n] + s[n..];
        DropTicksAppend(s[..n], s[n..]);
      } else {
        WrapTagsOnlyAddsTicks(s[1..]);
        DropTicksAppend([s[0]], WrapTags(s[1..]));
      }
    }
  }

  /** A text without `<` is left unchanged. */
  lemma {:induction false} NoTagUnchanged(s: string)
    requires '<' !in s
    ensures WrapTags(s) == s
    decreases |s|
  {
    if |s| > 0 {
      NoTagUnchanged(s[1..]);
    }
  }

  /** A tag `<t>` at the front is wrapped in backticks, and the scan goes on after it. */
  lemma WrapsTag(t: string, rest: string)
    requires |t| > 0 && '>' !in t
    ensures WrapTags("<" + t + ">" + rest) == "`<" + t + ">`" + WrapTags(rest)
  {
    var s := "<" + t + ">" + rest;
    assert s[1..] == t + ['>'] + rest;
    BeforeCharOf(t, '>', rest);
    var n := |t| + 2;
    assert s[..n] == "<" + t + ">";
    assert s[n..] == rest;
  }

  lemma {:induction false} BeforeCharOf(x: string, c: char, y: string)
    requires c !in x
    ensures BeforeChar(x + [c] + y, c) == x
  {
    if |x| > 0 {
      assert (x + [c] + y)[1..] == x[1..] + [c] + y;
      BeforeCharOf(x[1..], c, y);
    }
  }

  /** Wrapping tags brings in no character other than a backtick. */
  lemma {:induction false} WrapTagsChars(s: string, c: char)
    requires c in WrapTags(s) && c != '`'
    ensures c in s
    decreases |s|
  {
    var inner := BeforeChar(s[1..], '>');
    if s[0] == '<' && 0 < |inner| < |s| - 1 {
      var n := |inner| + 2;
      if c !in s[..n] {
        WrapTagsChars(s[n..], c);
      }
    } else if c != s[0] {
      WrapTagsChars(s[1..], c);
    }
  }

  /** `format_html_tags_for_md` */
  function FormatHtmlTags(docstring: string): string {
    Join("\n", MapSeq(WrapTags, SplitLines(docstring)))
  }

  /** One line of `blockquote_markdown`: `> ` before a non-blank line, `>` for a blank one. */
  function QuoteLine(line: string): (q: string)
    ensures StartsWith(q, ">")
  {
    if |Strip(line)| > 0 then "> " + line else ">"
  }

  /** `blockquote_markdown` */
  function Blockquote(text: string): string {
    Join("\n", MapSeq(QuoteLine, SplitLines(text)))
  }

  /** Formatting keeps the lines: split at newlines, the result is the wrapped lines. */
  lemma FormatKeepsLines(docstring: string)
    requires |docstring| > 0
    ensures Split(FormatHtmlTags(docstring), "\n") == MapSeq(WrapTags, SplitLines(docstring))
  {
    var lines := SplitLines(docstring);
    var out := MapSeq(WrapTags, lines);
    SplitLinesNoNewline(docstring);
    forall k | 0 <= k < |out| ensures '\n' !in out[k] {
      MapSeqAt(WrapTags, lines, k);
      if '\n' in out[k] {
        WrapTagsChars(lines[k], '\n');
      }
    }
    SplitJoinNewline(out);
  }

  /** The blockquote keeps the line count; each line is the input line behind `> `, or
      `>` for a blank line. */
  lemma BlockquoteKeepsLines(text: string)
    requires |text| > 0
    ensures var out := Split(Blockquote(text), "\n");
      |out| == |SplitLines(text)| &&
      forall k :: 0 <= k < |out| ==> out[k] == QuoteLine(SplitLines(text)[k])
  {
    var lines := SplitLines(text);
    var out := MapSeq(QuoteLine, lines);
    SplitLinesNoNewline(text);
    forall k | 0 <= k < |out| ensures '\n' !in out[k] && out[k] == QuoteLine(lines[k]) {
      MapSeqAt(QuoteLine, lines, k);
      assert '\n' !in lines[k];
    }
    SplitJoinNewline(out);
  }

  /** The docstring `SyncPurposeTask` syncs: the cleaned lines, joined and stripped. */
  function PurposeText(script: seq<string>, name: string): string {
    Strip(Join("\n", Clean(DocFrom(script), name)))
  }

  /** The Purpose body `SyncPurposeTask` writes for a script: the cleaned docstring,
      stripped, tags wrapped, as a blockquote; nothing when the docstring is empty. */
  function PurposeMarkdown(script: seq<string>, name: string): (r: Option<string>)
    ensures r.None? <==> |PurposeText(script, name)| == 0
    ensures r.Some? ==> exists quoted: seq<string> ::
      r.value == Join("\n", quoted) && forall k :: 0 <= k < |quoted| ==> StartsWith(quoted[k], ">")
  {
    var docstring := PurposeText(script, name);
    if |docstring| == 0 then None
    else
      var lines := SplitLines(FormatHtmlTags(docstring));
      var quoted := MapSeq(QuoteLine, lines);
      assert forall k :: 0 <= k < |quoted| ==> StartsWith(quoted[k], ">") by {
        forall k | 0 <= k < |quoted| ensures StartsWith(quoted[k], ">") {
          MapSeqAt(QuoteLine, lines, k);
        }
      }
      assert Blockquote(FormatHtmlTags(docstring)) == Join("\n", quoted);
      Some(Blockquote(FormatHtmlTags(docstring)))
  }

  /** Each line of the synced Purpose is the matching line of the tag-wrapped docstring
      behind `> `, or `>` where that line is blank; there are as many lines as the
      wrapped docstring has. */
  lemma PurposeMarkdownLines(script: seq<string>, name: string)
    ensures var r := PurposeMarkdown(script, name);
      var formatted := FormatHtmlTags(PurposeText(script, name));
      r.Some? ==>
        && (|formatted| == 0 ==> r.value == "")
        && (|formatted| > 0 ==>
              var out := Split(r.value, "\n");
              |out| == |SplitLines(formatted)| &&
              forall k :: 0 <= k < |out| ==> out[k] == QuoteLine(SplitLines(formatted)[k]))
  {
    var formatted := FormatHtmlTags(PurposeText(script, name));
    if |formatted| > 0 {
      BlockquoteKeepsLines(formatted);
    } else {
      assert SplitLines(formatted) == [];
    }
  }
}
