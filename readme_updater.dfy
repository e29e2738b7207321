/** `readme_updater.py`: the root README's tool table built from the Purpose section of
    each tool's README, and the task that rebuilds it. */
module ReadmeUpdater {
  import opened Opt
  import opened Strings
  import opened Splice
  import ReadmeTool

  const NoTitle := "(No Title)"

  /** Directories never scanned for a README. */
  const ExcludedDirs: set<string> := {"debug_demo"}

  // ---------------------------------------------------------------------------
  // extract_summary

  /** A first-level header line: stripped, it starts with `# `. */
  predicate IsTitleLine(line: string) {
    StartsWith(Strip(line), "# ")
  }

  /** The title of a header line: every `#` removed, then stripped. */
  function TitleText(line: string): (t: string)
    ensures '#' !in t
  {
    ReplaceAllRemoves(Strip(line), '#');
    Strip(ReplaceAll(Strip(line), "#", ""))
  }

  /** What `extract_summary` reads from a line: its title when it is a header line,
      whether it opens the Purpose section, whether it is blank, and its text with the
      leading `>` and space characters removed. */
  datatype SummaryLine = SummaryLine(title: Option<string>, header: bool, blank: bool, text: string)

  function Classify(line: string): SummaryLine {
    SummaryLine(
      if IsTitleLine(line) then Some(TitleText(line)) else None,
      ReadmeTool.IsPurposeHeader(line),
      |Strip(line)| == 0,
      ReadmeTool.Unquote(line))
  }

  /** The description lines: the texts up to the first blank line. */
  function Desc(ks: seq<SummaryLine>): seq<string> {
    if |ks| == 0 || ks[0].blank then [] else [ks[0].text] + Desc(ks[1..])
  }

  /** The scan: a header line replaces the title, and the first Purpose header ends the
      scan with the description read from the lines after it. */
  function SummaryFrom(ks: seq<SummaryLine>, title: string): (string, string) {
    if |ks| == 0 then (title, "")
    else if ks[0].title.Some? then SummaryFrom(ks[1..], ks[0].title.value)
    else if ks[0].header then (title, Join(" ", Desc(ks[1..])))
    else SummaryFrom(ks[1..], title)
  }

  function Summary(lines: seq<string>): (string, string) {
    SummaryFrom(MapSeq(Classify, lines), NoTitle)
  }

  /** The title of the last header line of `ks`, or `default` when there is none. */
  function LastTitle(ks: seq<SummaryLine>, default: string): string {
    if |ks| == 0 then default
    else if ks[|ks| - 1].title.Some? then ks[|ks| - 1].title.value
    else LastTitle(ks[..|ks| - 1], default)
  }

  /** `extract_summary`: the outer loop over the lines, the inner one over the lines
      after the Purpose header. */
  method ExtractSummary(lines: seq<string>) returns (title: string, desc: string)
    ensures (title, desc) == Summary(lines)
  {
    ghost var ks := MapSeq(Classify, lines);
    ClassifiedMap(lines);
    title := NoTitle;
    desc := "";
    var i := 0;
    while i < |lines|
      invariant 0 <= i <= |lines|
      invariant SummaryFrom(ks, NoTitle) == SummaryFrom(ks[i..], title)
    {
      assert ks[i..][0] == ks[i] && ks[i..][1..] == ks[i + 1..];
      var kind := SummaryLineAt(lines, ks, i);
      if kind.title.Some? {
        title := kind.title.value;
      } else if kind.header {
        var descLines := ReadDesc(lines, ks, i + 1);
        desc := Join(" ", descLines);
        return;
      }
      i := i + 1;
    }
    assert ks[i..] == [];
  }

  /** The inner loop: the texts of the lines from `from` up to the first blank one. */
  method ReadDesc(lines: seq<string>, ghost ks: seq<SummaryLine>, from: nat)
    returns (descLines: seq<string>)
    requires Classified(lines, ks) && from <= |lines|
    ensures descLines == Desc(ks[from..])
  {
    descLines := [];
    var j := from;
    while j < |lines|
      invariant from <= j <= |lines|
      invariant Desc(ks[from..]) == descLines + Desc(ks[j..])
    {
      DescAt(ks, j);
      var kind := SummaryLineAt(lines, ks, j);
      if kind.blank {
        assert descLines + [] == descLines;
        return;
      }
      AppendAssoc(descLines, [kind.text], Desc(ks[j + 1..]));
      descLines := descLines + [kind.text];
      j := j + 1;
    }
    assert ks[j..] == [];
  }

  lemma DescAt(ks: seq<SummaryLine>, j: nat)
    requires j < |ks|
    ensures Desc(ks[j..]) == if ks[j].blank then [] else [ks[j].text] + Desc(ks[j + 1..])
  {
    assert ks[j..][0] == ks[j] && ks[j..][1..] == ks[j + 1..];
  }

  /** `ks` holds the classification of each line. The trigger keeps the classification
      of a line folded until a line is actually classified. */
  predicate Classified(lines: seq<string>, ks: seq<SummaryLine>) {
    |ks| == |lines| && forall i {:trigger Classify(lines[i])} :: 0 <= i < |lines| ==> ks[i] == Classify(lines[i])
  }

  lemma ClassifiedMap(lines: seq<string>)
    ensures Classified(lines, MapSeq(Classify, lines))
  {
    forall i | 0 <= i < |lines| ensures MapSeq(Classify, lines)[i] == Classify(lines[i]) {
      MapSeqAt(Classify, lines, i);
    }
  }

  method SummaryLineAt(lines: seq<string>, ghost ks: seq<SummaryLine>, i: nat) returns (kind: SummaryLine)
    requires Classified(lines, ks) && i < |lines|
    ensures kind == ks[i]
  {
    kind := Classify(lines[i]);
  }

  /** A header line is never a Purpose header. */
  lemma TitleLineIsNotHeader(line: string)
    requires IsTitleLine(line)
    ensures !ReadmeTool.IsPurposeHeader(line)
  {
    var s := Strip(line);
    assert s[0] == '#' && LowerChar(s[0]) == '#';
  }

  /** The scan up to the first Purpose header keeps the last title seen before it, and
      the description comes from the lines after it. */
  lemma {:induction false} SummaryAtHeader(pre: seq<SummaryLine>, h: SummaryLine,
                                           post: seq<SummaryLine>, title: string)
    requires forall j :: 0 <= j < |pre| ==> pre[j].title.Some? || !pre[j].header
    requires h.title.None? && h.header
    ensures SummaryFrom(pre + [h] + post, title) == (LastTitle(pre, title), Join(" ", Desc(post)))
  {
    var s := pre + [h] + post;
    if |pre| == 0 {
      assert s == [h] + post;
      assert s[1..] == post;
    } else {
      assert s[0] == pre[0] && s[1..] == pre[1..] + [h] + post;
      var t := if pre[0].title.Some? then pre[0].title.value else title;
      SummaryAtHeader(pre[1..], h, post, t);
      LastTitleFront(pre, title);
    }
  }

  /** Reading the titles from the front agrees with taking the last one. */
  lemma {:induction false} LastTitleFront(ks: seq<SummaryLine>, default: string)
    requires |ks| > 0
    ensures LastTitle(ks, default)
      == LastTitle(ks[1..], if ks[0].title.Some? then ks[0].title.value else default)
    decreases |ks|
  {
    if |ks| > 1 {
      var init := ks[..|ks| - 1];
      assert init[1..] == ks[1..][..|ks[1..]| - 1];
      assert ks[1..][|ks[1..]| - 1] == ks[|ks| - 1];
      assert init[0] == ks[0];
      LastTitleFront(init, default);
    }
  }

  /** Without a Purpose header the description is empty and the title is the last one. */
  lemma {:induction false} SummaryNoHeader(ks: seq<SummaryLine>, title: string)
    requires forall j :: 0 <= j < |ks| ==> ks[j].title.Some? || !ks[j].header
    ensures SummaryFrom(ks, title) == (LastTitle(ks, title), "")
  {
    if |ks| > 0 {
      var t := if ks[0].title.Some? then ks[0].title.value else title;
      SummaryNoHeader(ks[1..], t);
      LastTitleFront(ks, title);
    }
  }

  /** The description stops at the first blank line: nothing after it is read. */
  lemma {:induction false} DescStops(texts: seq<SummaryLine>, blank: SummaryLine, rest: seq<SummaryLine>)
    requires forall j :: 0 <= j < |texts| ==> !texts[j].blank
    requires blank.blank
    ensures Desc(texts + [blank] + rest) == MapSeq((k: SummaryLine) => k.text, texts)
  {
    var s := texts + [blank] + rest;
    if |texts| == 0 {
      assert s[0] == blank;
    } else {
      assert s[0] == texts[0] && s[1..] == texts[1..] + [blank] + rest;
      DescStops(texts[1..], blank, rest);
    }
  }

  /** On lines: for a README whose first Purpose header is `header`, the description is
      read from the lines after it and the title is the last header line before it. */
  lemma SummaryOfLines(pre: seq<string>, header: string, post: seq<string>)
    requires forall j :: 0 <= j < |pre| ==> !ReadmeTool.IsPurposeHeader(pre[j])
    requires ReadmeTool.IsPurposeHeader(header)
    ensures Summary(pre + [header] + post)
      == (LastTitle(MapSeq(Classify, pre), NoTitle), Join(" ", Desc(MapSeq(Classify, post))))
  {
    var kpre := MapSeq(Classify, pre);
    forall j | 0 <= j < |kpre| ensures kpre[j].title.Some? || !kpre[j].header {
      MapSeqAt(Classify, pre, j);
    }
    var h := Classify(header);
    if IsTitleLine(header) {
      TitleLineIsNotHeader(header);
    }
    MapSeqAppend(Classify, pre + [header], post);
    MapSeqAppend(Classify, pre, [header]);
    assert MapSeq(Classify, [header]) == [h];
    SummaryAtHeader(kpre, h, MapSeq(Classify, post), NoTitle);
  }

  // ---------------------------------------------------------------------------
  // find_tool_readmes

  /** An entry of the root directory: its name, whether it is a directory, and the
      lines of its README when it has one. */
  datatype Entry = Entry(name: string, isDir: bool, readme: Option<seq<string>>)

  /** `| title | desc | link |` */
  function SummaryRow(name: string, lines: seq<string>): string {
    var (title, desc) := Summary(lines);
    "| " + title + " | " + desc + " | " + ReadmeTool.Link(name) + " |"
  }

  /** The rows one entry contributes: one for a directory outside the excluded set that
      has a README, none otherwise. */
  function EntryRow(e: Entry): seq<string> {
    if e.isDir && e.name !in ExcludedDirs && e.readme.Some? then [SummaryRow(e.name, e.readme.value)]
    else []
  }

  function SummaryRows(entries: seq<Entry>): seq<string> {
    FlatMap(EntryRow, entries)
  }

  /** The rows of a run of entries are the rows of each entry, in order, and an entry
      has a row exactly when it is a scanned directory with a README. */
  lemma SummaryRowsAround(a: seq<Entry>, e: Entry, b: seq<Entry>)
    ensures SummaryRows(a + [e] + b) == SummaryRows(a) + EntryRow(e) + SummaryRows(b)
    ensures |EntryRow(e)| == (if e.isDir && e.name !in ExcludedDirs && e.readme.Some? then 1 else 0)
  {
    FlatMapConcat(EntryRow, a + [e], b);
    FlatMapAppend(EntryRow, a, e);
  }

  /** Every row comes from a scanned directory with a README; the excluded ones give none. */
  lemma RowsFromScannedDirs(entries: seq<Entry>, row: string) returns (e: Entry)
    requires row in SummaryRows(entries)
    ensures e in entries && e.isDir && e.name !in ExcludedDirs && e.readme.Some?
    ensures row == SummaryRow(e.name, e.readme.value)
  {
    FlatMapMember(EntryRow, entries, row);
    e :| e in entries && row in EntryRow(e);
  }

  // ---------------------------------------------------------------------------
  // update_root_readme and ToolTableTask

  /** The root README after `update_root_readme` with the given rows; a missing README
      stays missing. */
  function Updated(readme: Option<string>, rows: seq<string>): Option<string> {
    match readme
    case None => None
    case Some(content) => Some(SpliceTable(content, FullTable(rows)))
  }

  /** The table framed by the markers, as the splice lemmas take it. */
  lemma FullTableFramed(rows: seq<string>)
    ensures FullTable(rows) == Start + ("\n" + TableHeader + "\n" + Join("\n", rows) + "\n") + End
  {
    Bracket(Start, "\n", TableHeader, "\n", Join("\n", rows), "\n", End);
  }

  lemma Bracket(s: string, a: string, b: string, c: string, d: string, f: string, e: string)
    ensures s + a + b + c + d + f + e == s + (a + b + c + d + f) + e
  {
  }

  /** Running the task again with the same tools changes the README no more: from the
      second update on the text stays the same, and a README that already holds both
      markers is settled after the first. */
  lemma UpdateSettles(readme: Option<string>, rows: seq<string>)
    ensures Updated(Updated(Updated(readme, rows), rows), rows) == Updated(Updated(readme, rows), rows)
    ensures readme.Some? && Contains(readme.value, Start) && Contains(readme.value, End) ==>
      Updated(Updated(readme, rows), rows) == Updated(readme, rows)
  {
    if readme.Some? {
      var mid := "\n" + TableHeader + "\n" + Join("\n", rows) + "\n";
      FullTableFramed(rows);
      SpliceSettles(readme.value, mid);
      if Contains(readme.value, Start) && Contains(readme.value, End) {
        SpliceIdempotent(readme.value, mid);
      }
    }
  }

  /** The state `readme_updater.py` works on: the `TOOL_ROWS` list and the root README,
      which may be missing. */
  class Updater {
    var toolRows: seq<string>
    var readme: Option<string>

    constructor(readme: Option<string>)
      ensures this.toolRows == [] && this.readme == readme
    {
      this.toolRows := [];
      this.readme := readme;
    }

    /** `find_tool_readmes`: appends one row per scanned directory with a README. */
    method FindToolReadmes(entries: seq<Entry>)
      modifies this
      ensures toolRows == old(toolRows) + SummaryRows(entries)
      ensures readme == old(readme)
    {
      var rows := ScanEntries(entries);
      toolRows := toolRows + rows;
    }

    /** `update_root_readme`: the README, when there is one, gets the table of the
        current rows. */
    method UpdateRootReadme()
      modifies this
      ensures toolRows == old(toolRows)
      ensures readme == Updated(old(readme), toolRows)
    {
      if readme.None? {
        return;
      }
      var full := FullTable(toolRows);
      readme := Some(SpliceTable(readme.value, full));
    }

    /** `ToolTableTask.execute`: the rows are cleared first, so the table holds the
        current tools only, whatever rows an earlier run left. */
    method ToolTableTask(entries: seq<Entry>)
      modifies this
      ensures toolRows == SummaryRows(entries)
      ensures readme == Updated(old(readme), SummaryRows(entries))
    {
      toolRows := [];
      FindToolReadmes(entries);
      UpdateRootReadme();
    }
  }

  /** The loop of `find_tool_readmes`, over the entries in directory order. */
  method ScanEntries(entries: seq<Entry>) returns (rows: seq<string>)
    ensures rows == SummaryRows(entries)
  {
    rows := [];
    var i := 0;
    while i < |entries|
      invariant 0 <= i <= |entries|
      invariant rows == SummaryRows(entries[..i])
    {
      FlatMapPrefix(EntryRow, entries, i);
      var row := EntryRowFor(entries[i]);
      rows := rows + row;
      i := i + 1;
    }
    assert entries[..i] == entries;
  }

  /** The body of the scanning loop, for one entry. */
  method EntryRowFor(e: Entry) returns (row: seq<string>)
    ensures row == EntryRow(e)
  {
    if !e.isDir || e.name in ExcludedDirs || e.readme.None? {
      return [];
    }
    var title, desc := ExtractSummary(e.readme.value);
    row := ["| " + title + " | " + desc + " | " + ReadmeTool.Link(e.name) + " |"];
  }
}
