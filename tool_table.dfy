/** `generate_tool_table.py`: the older table generator.  It takes each tool's title from
    its header lines and its description from the first paragraph line, scans every
    directory (nothing is excluded), and splices the table into the root README exactly
    as `readme_updater.py` does. */
module ToolTable {
  import opened Opt
  import opened Strings
  import opened Splice
  import ReadmeTool
  import ReadmeUpdater

  // ---------------------------------------------------------------------------
  // extract_summary

  /** What the scan reads from one line: a header line gives a title, the first
      non-blank line that is not a `#` line gives the description, and every other
      line is passed over. */
  datatype Kind = TitleLine(title: string) | Paragraph(text: string) | Skipped

  /** A paragraph line: stripped, it is non-empty and does not start with `#`. */
  predicate IsParagraphLine(line: string) {
    |Strip(line)| > 0 && Strip(line)[0] != '#'
  }

  function Classify(line: string): Kind {
    if ReadmeUpdater.IsTitleLine(line) then TitleLine(ReadmeUpdater.TitleText(line))
    else if IsParagraphLine(line) then Paragraph(Strip(line))
    else Skipped
  }

  /** The scan: a header line replaces the title, and the first paragraph line ends the
      scan as the description. */
  function SummaryFrom(ks: seq<Kind>, title: string): (string, string) {
    if |ks| == 0 then (title, "")
    else match ks[0]
      case TitleLine(t) => SummaryFrom(ks[1..], t)
      case Paragraph(text) => (title, text)
      case Skipped => SummaryFrom(ks[1..], title)
  }

  function Summary(lines: seq<string>): (string, string) {
    SummaryFrom(MapSeq(Classify, lines), ReadmeUpdater.NoTitle)
  }

  /** The title of the last header line of `ks`, or `default` when there is none. */
  function LastTitle(ks: seq<Kind>, default: string): string {
    if |ks| == 0 then default
    else if ks[|ks| - 1].TitleLine? then ks[|ks| - 1].title
    else LastTitle(ks[..|ks| - 1], default)
  }

  /** `ks` holds the classification of each line; the trigger keeps a line's
      classification folded until that line is looked at. */
  predicate Classified(lines: seq<string>, ks: seq<Kind>) {
    |ks| == |lines| && forall i {:trigger Classify(lines[i])} :: 0 <= i < |lines| ==> ks[i] == Classify(lines[i])
  }

  lemma ClassifiedMap(lines: seq<string>)
    ensures Classified(lines, MapSeq(Classify, lines))
  {
    forall i | 0 <= i < |lines| ensures MapSeq(Classify, lines)[i] == Classify(lines[i]) {
      MapSeqAt(Classify, lines, i);
    }
  }

  method KindAt(lines: seq<string>, ghost ks: seq<Kind>, i: nat) returns (kind: Kind)
    requires Classified(lines, ks) && i < |lines|
    ensures kind == ks[i]
  {
    kind := Classify(lines[i]);
  }

  /** `extract_summary`: the loop over the lines, left at the first paragraph line. */
  method ExtractSummary(lines: seq<string>) returns (title: string, desc: string)
    ensures (title, desc) == Summary(lines)
  {
    ghost var ks := MapSeq(Classify, lines);
    ClassifiedMap(lines);
    title := ReadmeUpdater.NoTitle;
    desc := "";
    var i := 0;
    while i < |lines|
      invariant 0 <= i <= |lines|
      invariant desc == ""
      invariant SummaryFrom(ks, ReadmeUpdater.NoTitle) == SummaryFrom(ks[i..], title)
    {
      assert ks[i..][0] == ks[i] && ks[i..][1..] == ks[i + 1..];
      var kind := KindAt(lines, ks, i);
      if kind.TitleLine? {
        title := kind.title;
      } else if kind.Paragraph? {
        desc := kind.text;
        return;
      }
      i := i + 1;
    }
    assert ks[i..] == [];
  }

  /** Reading the titles from the front agrees with taking the last one. */
  lemma {:induction false} LastTitleFront(ks: seq<Kind>, default: string)
    requires |ks| > 0
    ensures LastTitle(ks, default)
      == LastTitle(ks[1..], if ks[0].TitleLine? then ks[0].title else default)
    decreases |ks|
  {
    if |ks| > 1 {
      var init := ks[..|ks| - 1];
      assert init[1..] == ks[1..][..|ks[1..]| - 1];
      assert ks[1..][|ks[1..]| - 1] == ks[|ks| - 1];
      assert init[0] == ks[0];
      LastTitleFront(init, default);
    }
  }

  /** The scan up to the first paragraph line keeps the last title seen before it and
      takes that line as the description. */
  lemma {:induction false} SummaryAtParagraph(pre: seq<Kind>, p: Kind, post: seq<Kind>, title: string)
    requires forall j :: 0 <= j < |pre| ==> !pre[j].Paragraph?
    requires p.Paragraph?
    ensures SummaryFrom(pre + [p] + post, title) == (LastTitle(pre, title), p.text)
  {
    var s := pre + [p] + post;
    if |pre| == 0 {
      assert s[0] == p;
    } else {
      assert s[0] == pre[0] && s[1..] == pre[1..] + [p] + post;
      var t := if pre[0].TitleLine? then pre[0].title else title;
      SummaryAtParagraph(pre[1..], p, post, t);
      LastTitleFront(pre, title);
    }
  }

  /** Without a paragraph line the description is empty and the title is the last one. */
  lemma {:induction false} SummaryNoParagraph(ks: seq<Kind>, title: string)
    requires forall j :: 0 <= j < |ks| ==> !ks[j].Paragraph?
    ensures SummaryFrom(ks, title) == (LastTitle(ks, title), "")
  {
    if |ks| > 0 {
      var t := if ks[0].TitleLine? then ks[0].title else title;
      SummaryNoParagraph(ks[1..], t);
      LastTitleFront(ks, title);
    }
  }

  /** A header line starts with `#` once stripped, so it is never a paragraph line. */
  lemma TitleLineIsNotParagraph(line: string)
    requires ReadmeUpdater.IsTitleLine(line)
    ensures !IsParagraphLine(line)
  {
    assert Strip(line)[..2] == "# ";
  }

  /** On lines: the description is the stripped text of the first paragraph line, and
      the title is the last header line before it (`(No Title)` when there is none). */
  lemma FirstParagraphIsDescription(pre: seq<string>, line: string, post: seq<string>)
    requires forall j :: 0 <= j < |pre| ==> !IsParagraphLine(pre[j])
    requires IsParagraphLine(line)
    ensures Summary(pre + [line] + post)
      == (LastTitle(MapSeq(Classify, pre), ReadmeUpdater.NoTitle), Strip(line))
  {
    var kpre := MapSeq(Classify, pre);
    NoParagraphKinds(pre);
    var k := ParagraphKind(line);
    MapSeqSplit(pre, line, post);
    SummaryAtParagraph(kpre, k, MapSeq(Classify, post), ReadmeUpdater.NoTitle);
  }

  lemma NoParagraphKinds(lines: seq<string>)
    requires forall j :: 0 <= j < |lines| ==> !IsParagraphLine(lines[j])
    ensures forall j :: 0 <= j < |lines| ==> !MapSeq(Classify, lines)[j].Paragraph?
  {
    forall j | 0 <= j < |lines| ensures !MapSeq(Classify, lines)[j].Paragraph? {
      MapSeqAt(Classify, lines, j);
    }
  }

  lemma ParagraphKind(line: string) returns (k: Kind)
    requires IsParagraphLine(line)
    ensures k == Classify(line) && k == Paragraph(Strip(line))
  {
    k := Classify(line);
    if ReadmeUpdater.IsTitleLine(line) {
      TitleLineIsNotParagraph(line);
    }
  }

  lemma MapSeqSplit(pre: seq<string>, line: string, post: seq<string>)
    ensures MapSeq(Classify, pre + [line] + post) == MapSeq(Classify, pre) + [Classify(line)] + MapSeq(Classify, post)
  {
    MapSeqAppend(Classify, pre + [line], post);
    MapSeqAppend(Classify, pre, [line]);
    assert MapSeq(Classify, [line]) == [Classify(line)];
  }

  /** On lines: a README without a paragraph line has an empty description. */
  lemma NoParagraphNoDescription(lines: seq<string>)
    requires forall j :: 0 <= j < |lines| ==> !IsParagraphLine(lines[j])
    ensures Summary(lines).1 == ""
    ensures Summary(lines).0 == LastTitle(MapSeq(Classify, lines), ReadmeUpdater.NoTitle)
  {
    NoParagraphKinds(lines);
    SummaryNoParagraph(MapSeq(Classify, lines), ReadmeUpdater.NoTitle);
  }

  /** No header line follows position `j`. */
  predicate NoTitleAfter(ks: seq<Kind>, j: nat) {
    forall m :: j < m < |ks| ==> !ks[m].TitleLine?
  }

  /** The title is the text of the last header line of the scanned lines, or the default
      when they hold none. */
  lemma {:induction false} LastTitleIsLastHeader(ks: seq<Kind>, default: string)
    ensures (forall j :: 0 <= j < |ks| ==> !ks[j].TitleLine?) ==> LastTitle(ks, default) == default
    ensures forall j :: 0 <= j < |ks| && ks[j].TitleLine? && NoTitleAfter(ks, j) ==> LastTitle(ks, default) == ks[j].title
    decreases |ks|
  {
    if |ks| > 0 && !ks[|ks| - 1].TitleLine? {
      var init := ks[..|ks| - 1];
      LastTitleIsLastHeader(init, default);
      forall j | 0 <= j < |ks| && ks[j].TitleLine? && NoTitleAfter(ks, j)
        ensures LastTitle(ks, default) == ks[j].title
      {
        assert j < |ks| - 1;
        assert init[j] == ks[j];
        assert NoTitleAfter(init, j) by {
          forall m | j < m < |init| ensures !init[m].TitleLine? {
            assert init[m] == ks[m];
          }
        }
      }
      if forall j :: 0 <= j < |ks| ==> !ks[j].TitleLine? {
        forall j | 0 <= j < |init| ensures !init[j].TitleLine? {
          assert init[j] == ks[j];
        }
      }
    }
  }

  /** A description is never a `#` line and never blank. */
  lemma DescriptionIsParagraph(lines: seq<string>)
    ensures var desc := Summary(lines).1;
      desc == "" || (desc[0] != '#' && !IsSpace(desc[0]))
  {
    var ks := MapSeq(Classify, lines);
    forall j | 0 <= j < |ks| ensures ks[j].Paragraph? ==> |ks[j].text| > 0 && ks[j].text[0] != '#' && !IsSpace(ks[j].text[0]) {
      MapSeqAt(Classify, lines, j);
    }
    ParagraphTexts(ks, ReadmeUpdater.NoTitle);
  }

  lemma {:induction false} ParagraphTexts(ks: seq<Kind>, title: string)
    requires forall j :: 0 <= j < |ks| ==> ks[j].Paragraph? ==> |ks[j].text| > 0 && ks[j].text[0] != '#' && !IsSpace(ks[j].text[0])
    ensures var desc := SummaryFrom(ks, title).1;
      desc == "" || (desc[0] != '#' && !IsSpace(desc[0]))
  {
    if |ks| > 0 && !ks[0].Paragraph? {
      ParagraphTexts(ks[1..], if ks[0].TitleLine? then ks[0].title else title);
    }
  }

  // ---------------------------------------------------------------------------
  // find_tool_readmes

  /** `| title | desc | link |` */
  function SummaryRow(name: string, lines: seq<string>): string {
    var (title, desc) := Summary(lines);
    "| " + title + " | " + desc + " | " + ReadmeTool.Link(name) + " |"
  }

  /** The rows one entry contributes: one for every directory with a README. */
  function EntryRow(e: ReadmeUpdater.Entry): seq<string> {
    if e.isDir && e.readme.Some? then [SummaryRow(e.name, e.readme.value)] else []
  }

  function SummaryRows(entries: seq<ReadmeUpdater.Entry>): seq<string> {
    FlatMap(EntryRow, entries)
  }

  /** The rows of a run of entries are the rows of each entry, in order; every directory
      with a README has a row, `debug_demo` included. */
  lemma SummaryRowsAround(a: seq<ReadmeUpdater.Entry>, e: ReadmeUpdater.Entry, b: seq<ReadmeUpdater.Entry>)
    ensures SummaryRows(a + [e] + b) == SummaryRows(a) + EntryRow(e) + SummaryRows(b)
    ensures |EntryRow(e)| == (if e.isDir && e.readme.Some? then 1 else 0)
  {
    FlatMapConcat(EntryRow, a + [e], b);
    FlatMapAppend(EntryRow, a, e);
  }

  /** The loop of `find_tool_readmes`, over the entries in directory order. */
  method ScanEntries(entries: seq<ReadmeUpdater.Entry>) returns (rows: seq<string>)
    ensures rows == SummaryRows(entries)
  {
    rows := [];
    var i := 0;
    while i < |entries|
      invariant 0 <= i <= |entries|
      invariant rows == SummaryRows(entries[..i])
    {
      FlatMapPrefix(EntryRow, entries, i);
      var row := EntryRowFor(entries[i]);
      rows := rows + row;
      i := i + 1;
    }
    assert entries[..i] == entries;
  }

  /** The body of the scanning loop, for one entry. */
  method EntryRowFor(e: ReadmeUpdater.Entry) returns (row: seq<string>)
    ensures row == EntryRow(e)
  {
    if !e.isDir || e.readme.None? {
      return [];
    }
    var title, desc := ExtractSummary(e.readme.value);
    row := ["| " + title + " | " + desc + " | " + ReadmeTool.Link(e.name) + " |"];
  }

  // ---------------------------------------------------------------------------
  // update_root_readme

  /** The state the script works on: the module-level `TOOL_ROWS` list and the root
      README, which may be missing. */
  class Generator {
    var toolRows: seq<string>
    var readme: Option<string>

    constructor(readme: Option<string>)
      ensures this.toolRows == [] && this.readme == readme
    {
      this.toolRows := [];
      this.readme := readme;
    }

    /** `find_tool_readmes`: appends one row per directory with a README; rows left by an
        earlier call stay in front. */
    method FindToolReadmes(entries: seq<ReadmeUpdater.Entry>)
      modifies this
      ensures toolRows == old(toolRows) + SummaryRows(entries)
      ensures readme == old(readme)
    {
      var rows := ScanEntries(entries);
      toolRows := toolRows + rows;
    }

    /** `update_root_readme`: a missing README leaves everything as it was; otherwise the
        README gets the table of the current rows. */
    method UpdateRootReadme()
      modifies this
      ensures toolRows == old(toolRows)
      ensures old(readme).None? ==> readme.None?
      ensures old(readme).Some? ==> readme == Some(SpliceTable(old(readme).value, FullTable(toolRows)))
    {
      if readme.None? {
        return;
      }
      var full := FullTable(toolRows);
      readme := Some(SpliceTable(readme.value, full));
    }

    /** The script's main block. */
    method Run(entries: seq<ReadmeUpdater.Entry>)
      modifies this
      ensures toolRows == old(toolRows) + SummaryRows(entries)
      ensures readme == ReadmeUpdater.Updated(old(readme), toolRows)
    {
      FindToolReadmes(entries);
      UpdateRootReadme();
    }
  }
}
