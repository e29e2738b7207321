# FreelanceScripts in Dafny: selector suggestions, robots.txt analysis, README tables

This project models the computational core of the FreelanceScripts toolkit and proves
properties of it.

**Selector-suggestion engine (`scraper/scraper_tool.py`).** Given a parsed HTML document,
the engine walks every element. For each element it builds a nested CSS-like selector path
(`tag.class#id > ...`, at most `max_depth` ancestors deep) and gives the element:

- a raw "usable links" score;
- a preference score.

It then counts the paths and averages both scores per path. The paths are ranked by
(average score, count), descending, with a stable sort. The top entries are labelled with a
composite tier (trophy, gold, silver, bronze, medal, plain).

**Simpler variant (`scraper/simple_scraper_tool.py`).** Its scores differ slightly, and it
keeps the per-path maximum instead of the mean.

**Tag, class and id counters.** The scraper also counts tags, class tokens and ids, and names
its output files from the URL.

**Other cores:**

- `robots_analyzer/robot_analyzer_tool.py` parses robots.txt text into user-agent groups,
  sitemaps, hosts, request rates, clean-params, comments and non-standard lines. It then
  writes a scraping-guidance report for the recommended user agent.
- `readme_updater/readme_updater_tool.py`:
  - reads each tool README's title and `> ## Purpose` blockquote;
  - builds the tool table;
  - replaces the table between `<!-- TOOL_TABLE_START -->` / `<!-- TOOL_TABLE_END -->`;
  - extracts, cleans, formats and blockquotes a script's main docstring.
- `readme_updater/readme_updater.py` and `generate_tool_table.py` rebuild the root README
  table. The first takes each tool's description from its Purpose section, the second from
  its first paragraph. Both splice the table between the same markers.
- `functions.js` (landing page):
  - the per-folder style map;
  - card angles and carousel radio links;
  - the Purpose / Key Features splitter;
  - the Use Cases list.
- `executioner/executioner_tool.py` normalises the line endings of each script's bytes to
  `\n`. `executioner/executioner.py` means to do the same on text, but reads the file with
  universal newlines, so it never finds anything to change.

**How the model is built.**

- An HTML document is a tree of `Markup.Element` values. A traversal (`Markup.Walk`) pairs
  each element with its ancestor chain, in document order.
- Functions that only compute are Dafny functions.
- Python loops that build dictionaries and lists are methods with loop invariants, each
  proved equal to a specification function.
- Objects that keep state between calls are classes:
  - the module-level `TOOL_ROWS` list and the README file become `ReadmeUpdater.Updater`
    and `ToolTable.Generator`;
  - a text file rewritten in place becomes `LineEndings.TextFile`.
- Python dictionaries are maps. Where insertion order matters (Counter iteration, sorting),
  they are paired with a sequence of keys in first-insertion order.

**Where the code departs from what its comments and names suggest, the model follows the code:**

- `max_depth <= 0` gives the empty selector rather than an error.
- Ranked paths with equal keys keep their document order; there is no further tie-break.
- The main engine scores `ul`/`ol` 60 with a linked descendant and 25 without. In the
  simple engine `ul`/`ol` are already caught by the container branch, so its separate
  `ul`/`ol` branch (60) can never be reached: they score 80 or 30.
- The preference score takes only the values 0, 2, 3 and 4.
- The robots.txt parser opens one group per `User-agent` line, even when several
  `User-agent` lines follow each other.
- `url_to_filename` replaces every `.` before testing for a `.json` suffix, so `.json` is
  always appended.
- `ensure_unix_line_endings` in `executioner.py` compares the text that `read_text` has
  already normalised, so it never rewrites a file (see Findings).

## Model

| member | source | states |
|---|---|---|
| Markup.Walk | scraper/scraper_tool.py:146-151 | the visits are the document's elements in `find_all(True)` order, one per element |
| Markup.WalkChainsAreAncestors | scraper/scraper_tool.py:118-131 | every visit's chain is parent-linked and ends with the starting ancestors, and the element just before them is one of the walked elements: from the top-level elements with no ancestors, every chain climbs to a top-level element, as `current.parent` does up to `[document]` |
| Markup.WalkEndsInForest | scraper/scraper_tool.py:118-131 | every chain of the walk ends with the starting ancestors, preceded by an element of the walked forest |
| Markup.AnyLinkAnchorInPreorder | scraper/scraper_tool.py:160-164 | `tag.find('a', href=True)` holds exactly when some descendant in document order is an `a` carrying `href` |
| Selectors.SelectorPath | scraper/scraper_tool.py:118-131 | the loop builds the `" > "`-joined descriptors of the element and its ancestors, outermost first, at most `max_depth` of them |
| Selectors.NonPositiveDepthGivesEmptyPath | scraper/scraper_tool.py:118-131 | a non-positive depth yields the empty selector |
| Selectors.DescriptorReadable | scraper/scraper_tool.py:123-129 | a descriptor begins with its tag name and holds no `>` when names, classes and id hold none |
| Selectors.SplitSelectorTokens | scraper/scraper_tool.py:96-108 | the loop keeps, for each `>`-separated part, the bare tag before the first `.` or `#` of the stripped part, skipping empty parts |
| Selectors.TokensOfPath | scraper/scraper_tool.py:96-131 | round trip: splitting a built selector gives back exactly the tag names of the path's elements, in path order |
| Selectors.ListAncestorOfPath | scraper/scraper_tool.py:110-131 | `selector_has_list_ancestor` holds on a built path iff some ancestor in the path, other than the element itself, is a `ul`, `ol` or `li` |
| Scoring.RawScore | scraper/scraper_tool.py:154-169 | the score is one of 10, 20, 25, 30, 60, 70, 80, 100; it is 100 iff the element is an `a` with a truthy href; above 30 only when the element or a descendant carries a link |
| Scoring.LinkedDescendantRaisesScore | scraper/scraper_tool.py:154-169 | a linked descendant never lowers the score, and strictly raises it for containers, list wrappers and headings |
| Scoring.PrefScore | scraper/scraper_tool.py:133-144 | the preference is 0, 2, 3 or 4: 4 iff an `a` under a list ancestor, 2 iff `li`/`ul`/`ol`, 0 iff none of `a`, `li`, `ul`, `ol` |
| Scoring.PrefScoreOfVisit | scraper/scraper_tool.py:133-144 | on a visited element the top preference is given exactly to links that have a list element among their path ancestors |
| Counting.TallyIsSum | scraper/scraper_tool.py:146-173 | the running per-key total equals the sum of that key's values |
| Counting.SumForBounds | scraper/scraper_tool.py:146-173 | a key's total lies between its count times the smallest and times the largest value |
| Counting.DistinctKeys | scraper/scraper_tool.py:146-153 | the insertion-ordered key list has no duplicates and holds exactly the keys that occur |
| Counting.CountsAddUp | scraper/scraper_tool.py:146-153 | the counts over the distinct keys add up to the number of items counted |
| Counting.CounterIsOccurrences | scraper/scraper_tool.py:146-153 | `Counter` maps exactly the occurring keys, each to its number of occurrences |
| Counting.PeakIsMax | scraper/simple_scraper_tool.py:149-152 | the running `max(d.get(k, 0), v)` of non-negative values is the largest value seen under each key, and is attained |
| Suggest.Averages | scraper/scraper_tool.py:174-181 | the average dictionary has the counter's keys and each average times its count is the total |
| Suggest.CountersAndRanking | scraper/scraper_tool.py:146-182 | the loop's key order, counter, average ranking and average preference equal their specification functions over the document |
| Suggest.CountsAreOccurrences | scraper/scraper_tool.py:146-153 | a path is counted iff some element has it, and its count is its number of elements |
| Suggest.KeysAgree | scraper/scraper_tool.py:146-182 | ranking and preference have exactly the counter's keys; the key order lists each counted path once and has no more entries than the document has elements |
| Suggest.CountsCoverDocument | scraper/scraper_tool.py:146-153 | the counts add up to the number of elements in the document |
| Suggest.AveragesWithin | scraper/scraper_tool.py:174-181 | per-key averages of totals bounded by count times bounds lie within the bounds |
| Suggest.RankingBounds | scraper/scraper_tool.py:154-181 | every average ranking lies between 10 and 100 |
| Suggest.PreferenceBounds | scraper/scraper_tool.py:133-181 | every average preference lies between 0 and 4 |
| Summary.SortDescPermutes | scraper/scraper_tool.py:252 | sorting is a permutation of the items |
| Summary.SortDescOrders | scraper/scraper_tool.py:252 | the sorted items have non-increasing (ranking, count) keys |
| Summary.SortDescIsStable | scraper/scraper_tool.py:252 | the items sharing a key keep their original relative order, as Python's stable `sorted(..., reverse=True)` does |
| Summary.PyTake | scraper/scraper_tool.py:227 | `s[:n]` is the prefix of length `n`, the whole list when `n` exceeds it, and all but the last `-n` items for negative `n` |
| Summary.TopCountsAreTop | scraper/scraper_tool.py:184-199 | the printed tag, class and id summaries are a prefix of the items sorted by descending count, which is a permutation of the items |
| Summary.RankedSelectorsOrder | scraper/scraper_tool.py:252 | the ranked selectors are the counter's items, in non-increasing (ranking, count) order, stable among equal keys |
| Summary.TierOf | scraper/scraper_tool.py:210-226 | each tier holds exactly on its composite interval: above 0.9, (0.75, 0.9], (0.6, 0.75], (0.4, 0.6], (0.2, 0.4], at most 0.2 |
| Summary.TierMonotone | scraper/scraper_tool.py:210-226 | a higher composite never gets a lower tier |
| Summary.CompositeRange | scraper/scraper_tool.py:210-215 | the weighted composite of normalised rank, preference and count lies in [0, 1], and is 1 when all three are at their maxima |
| Summary.MaxPref | scraper/scraper_tool.py:208 | the loop finds the largest preference value, or 1 for an empty dictionary |
| Summary.MaxCount | scraper/scraper_tool.py:209 | the largest count among the ranked selectors, attained by one of them, or 1 when there are none |
| Summary.Label | scraper/scraper_tool.py:231 | `{sel:<50.50}`: exactly 50 characters, the selector padded with spaces or cut at 50 |
| Summary.SelectorSummary | scraper/scraper_tool.py:201-232 | one row per entry of `ranked[:top_n]`, showing its label, ranking, preference and count, with the composite tier only for the first five rows |
| Summary.ShownCompositesInRange | scraper/scraper_tool.py:208-215 | with mean scores in [0, 100] and no negative preference or count, the composite of every ranked selector, taken against the table's own maxima, lies in [0, 1] |
| SuggestReport.RankedEntries | scraper/scraper_tool.py:251-252 | every ranked selector is a path of the document, paired with its positive element count, and has a mean score and a mean preference |
| SuggestReport.ReportCompositesInRange | scraper/scraper_tool.py:201-253 | for any document, the composite of every ranked selector lies in [0, 1], so the tier intervals cover it |
| SuggestReport.SelectorReport | scraper/scraper_tool.py:251-253 | the table rows for a document show its ranked selectors, each with a mean score in [10, 100], a mean preference in [0, 4], a count of at least 1 and a composite in [0, 1] |
| PageCounts.TagCounts | scraper/scraper_tool.py:77-82 | the loop yields the distinct tag names in first-seen order and their Counter |
| PageCounts.ClassCounts | scraper/scraper_tool.py:83-89 | the loop yields the distinct class tokens in first-seen order and their Counter |
| PageCounts.IdCounts | scraper/scraper_tool.py:90-94 | the loop yields the distinct ids in first-seen order and their Counter |
| PageCounts.TagCountsMeaning | scraper/scraper_tool.py:77-82 | a tag is counted iff some element has that name; its count is its number of elements, and the counts add up to the element count |
| PageCounts.ClassCountsMeaning | scraper/scraper_tool.py:83-89 | a class is counted iff some element carries it |
| PageCounts.IdCountsMeaning | scraper/scraper_tool.py:90-94 | an id is counted iff some element carries it |
| PageCounts.UrlToFilenameShape | scraper/scraper_tool.py:45-51 | the file name is the location and path with each `/` and `.` turned into `_`, always followed by `.json` |
| SimpleScraper.SimpleRawScore | scraper/simple_scraper_tool.py:128-148 | the score is 10, 20, 30, 60, 70, 80 or 100; it is 100 iff the element is a linked `a`; `ul`/`ol` score 80 with a linked descendant and 30 without; every other element scores as in the main engine |
| SimpleScraper.SimplePrefScore | scraper/simple_scraper_tool.py:107-118 | 4 iff an `a` whose selector mentions `li`, `ul` or `ol` anywhere; 3 iff any other `a`; 2 iff a list element |
| SimpleScraper.ListAncestorIsMentioned | scraper/simple_scraper_tool.py:107-118 | a path that has a list ancestor also mentions a list tag, so the substring test is at least as generous |
| SimpleScraper.SimplePrefAtLeastMain | scraper/simple_scraper_tool.py:107-118 | on every visited element, the simple preference is at least the main engine's |
| SimpleScraper.OwnDescriptorTriggersBonus | scraper/simple_scraper_tool.py:107-118 | a link whose own descriptor contains `li` (e.g. a class `slider`) gets 4 from the simple engine but 3 from the main one |
| SimpleScraper.SimpleCountersAndRanking | scraper/simple_scraper_tool.py:120-153 | the loop's key order, counter, peak ranking and peak preference equal their specification functions |
| SimpleScraper.PeakRankingIsMax | scraper/simple_scraper_tool.py:149 | each path's ranking is the largest score of its elements, attained by one of them, over exactly the counter's keys |
| SimpleScraper.PeakPreferenceIsMax | scraper/simple_scraper_tool.py:152 | each path's preference is the largest preference of its elements, attained by one of them, over exactly the counter's keys |
| SimpleScraper.PeakBounds | scraper/simple_scraper_tool.py:128-152 | peak rankings lie in [10, 100] and peak preferences in [0, 4] |
| SimpleScraper.AsReal | scraper/simple_scraper_tool.py:172-203 | the integer dictionaries enter the shared summary with the same keys and values |
| Robots.Classify | robots_analyzer/robot_analyzer_tool.py:41-68 | blank iff the stripped line is empty, comment iff it starts with `#`, and a directive kind only when the lowercased line starts with its prefix |
| Robots.ClassifyAgentLine | robots_analyzer/robot_analyzer_tool.py:48 | a line is a user-agent line iff, lowercased, it starts with `user-agent:` |
| Robots.ClassifySitemapLine | robots_analyzer/robot_analyzer_tool.py:63 | a line is a sitemap line iff, lowercased, it starts with `sitemap:` |
| Robots.ClassifyHostLine | robots_analyzer/robot_analyzer_tool.py:65 | a line is a host line iff, lowercased, it starts with `host:` |
| Robots.RuleLineMatchesNothingElse | robots_analyzer/robot_analyzer_tool.py:51-62 | a rule line's prefix is its own and it matches no other directive prefix |
| Robots.ValueAfterDirective | robots_analyzer/robot_analyzer_tool.py:49-66 | `split(':',1)[1].strip()` is the stripped text after the directive |
| Robots.Attach | robots_analyzer/robot_analyzer_tool.py:51-62 | a rule line appends to Allow, Disallow or Clean-param, or overwrites Crawl-delay or Request-rate, of the last group, and changes nothing else |
| Robots.ParseRobotsTxt | robots_analyzer/robot_analyzer_tool.py:30-69 | the parser's result is the specification `Parse` of the text's lines |
| Robots.ParseLines | robots_analyzer/robot_analyzer_tool.py:39-69 | the loop's seven lists equal the specification over the lines read so far, and the current agent is the latest user-agent value |
| Robots.ParseLine | robots_analyzer/robot_analyzer_tool.py:40-68 | one step of the if/elif chain is the specification step, and the agent changes only on a user-agent line |
| Robots.ParseOfStep | robots_analyzer/robot_analyzer_tool.py:39-68 | parsing one more line is one specification step on the parse so far |
| Robots.GroupPerAgentLine | robots_analyzer/robot_analyzer_tool.py:48-50 | there is one group per user-agent line, in file order, each named by that line's value |
| Robots.CleanParamsAreGrouped | robots_analyzer/robot_analyzer_tool.py:60-62 | the global clean-param list is the groups' clean-params concatenated, and is empty when there is no group |
| Robots.GroupsKeepTheirRules | robots_analyzer/robot_analyzer_tool.py:50-59 | a group's request rate was recorded globally too, and a group named by an empty agent never receives rules |
| Robots.CurrentAgentIsLatest | robots_analyzer/robot_analyzer_tool.py:32-49 | the current agent is the value of the latest user-agent line, or None before any |
| Robots.LaterValueWins | robots_analyzer/robot_analyzer_tool.py:55-58 | a later Crawl-delay or Request-rate overwrites the last group's value and leaves the other groups alone |
| Robots.RuleWithoutAgentIsDropped | robots_analyzer/robot_analyzer_tool.py:51-62 | a rule line seen while no truthy agent is current changes nothing |
| Robots.RecommendedAgent | robots_analyzer/robot_analyzer_tool.py:77-81 | the recommendation is `*` iff some group is for `*`, otherwise the first group's agent |
| Robots.FirstGroupFor | robots_analyzer/robot_analyzer_tool.py:84-88 | the chosen group is the first one whose agent is the recommendation |
| Robots.GenerateReport | robots_analyzer/robot_analyzer_tool.py:71-149 | the method builds exactly the specification report text |
| Robots.AppendGroup | robots_analyzer/robot_analyzer_tool.py:89-106 | the group section is the allowed and disallowed bullets, with `(none specified)` for empty lists, then the limits |
| Robots.AppendTips | robots_analyzer/robot_analyzer_tool.py:132-148 | the tips section is the specification's tips for the chosen group and file |
| Robots.NoRulesMessage | robots_analyzer/robot_analyzer_tool.py:72-73 | the report is the no-rules message iff there are no groups |
| Robots.ReportDescribesChosenGroup | robots_analyzer/robot_analyzer_tool.py:77-99 | the second entry of the report's line list names the chosen agent, and the report lists every allowed and disallowed path of the chosen group |
| Robots.DelayTipFollowsTheGroup | robots_analyzer/robot_analyzer_tool.py:133-136 | the crawl-delay tip appears when the group has a truthy delay; the default-delay tip appears iff it has none |
| Robots.PathTipsFollowTheGroup | robots_analyzer/robot_analyzer_tool.py:137-142 | the do-not-scrape tip appears iff the group's disallow list is non-empty and is not exactly `["(none specified)"]`, the broadly-permitted tip iff not; the focus tip iff the allow list is non-empty and not exactly `["(none specified)"]` |
| Robots.TipsFollowTheFile | robots_analyzer/robot_analyzer_tool.py:143-146 | the non-standard tip appears iff there are non-standard lines; the sitemap tip iff there are sitemaps |
| Robots.TipsAppend | robots_analyzer/robot_analyzer_tool.py:132-148 | the tips appended to a report do not depend on the lines before them |
| Robots.ReportEndsWithTips | robots_analyzer/robot_analyzer_tool.py:71-149 | the report of a file with groups ends with exactly the tips for the chosen group, which the three tip lemmas describe |
| ReadmeTool.ExtractTitleAndPurpose | readme_updater/readme_updater_tool.py:32-62 | the title and purpose read are the specification's title and purpose of the lines |
| ReadmeTool.FindTitle | readme_updater/readme_updater_tool.py:38-41 | the loop returns the specification title |
| ReadmeTool.ReadPurpose | readme_updater/readme_updater_tool.py:43-61 | the loop keeps exactly the specification's purpose lines |
| ReadmeTool.TitleIsFirstHeading | readme_updater/readme_updater_tool.py:38-41 | the title is the text of the first `#` heading |
| ReadmeTool.NoHeadingNoTitle | readme_updater/readme_updater_tool.py:35-41 | without a heading the title is empty |
| ReadmeTool.PurposeAfterFirstHeader | readme_updater/readme_updater_tool.py:43-61 | the purpose is the quoted section after the first `> ## Purpose` header |
| ReadmeTool.NoHeaderNoPurpose | readme_updater/readme_updater_tool.py:43-61 | without a Purpose header the purpose is empty |
| ReadmeTool.SectionStops | readme_updater/readme_updater_tool.py:50-58 | the section ends at the first non-quoted line |
| ReadmeTool.PurposeKeepsQuoted | readme_updater/readme_updater_tool.py:50-58 | every purpose line is the unquoted text of a quoted line of the README |
| ReadmeTool.Describe | readme_updater/readme_updater_tool.py:71-79 | the cell is never empty and at most 100 characters: a placeholder for no purpose, the purpose itself up to 100; a longer purpose gives its first 97 characters with trailing whitespace removed (only whitespace is removed, and the kept part ends in a non-space), followed by `...` |
| ReadmeTool.GenerateToolTable | readme_updater/readme_updater_tool.py:64-81 | the loop builds the header followed by one row per tool directory with a README |
| ReadmeTool.RowsAround | readme_updater/readme_updater_tool.py:66-79 | rows compose over directory lists, one row per directory with a README and none otherwise |
| ReadmeTool.TableStartsWithHeader | readme_updater/readme_updater_tool.py:29-81 | the table starts with the fixed header |
| ReadmeTool.UpdateReplacesTable | readme_updater/readme_updater_tool.py:83-100 | an old table between the markers is replaced by the new one and the text around it is kept |
| ReadmeTool.UpdateIdempotent | readme_updater/readme_updater_tool.py:83-100 | updating twice with the same table equals updating once |
| ReadmeTool.Appends | readme_updater/readme_updater_tool.py:94-97 | without markers the marked table is appended after the right-stripped text |
| ReadmeTool.AppendedTableIsReplacedNextTime | readme_updater/readme_updater_tool.py:83-100 | after an append, a second update changes nothing |
| ReadmeTool.ExtractMainDocstring | readme_updater/readme_updater_tool.py:103-126 | the loop returns the specification docstring lines |
| ReadmeTool.OneLineDocstring | readme_updater/readme_updater_tool.py:108-115 | a docstring opened and closed on one line gives that line's inner text |
| ReadmeTool.InlineBetweenQuotes | readme_updater/readme_updater_tool.py:108-115 | the inner text of `"""t"""` is `t` |
| ReadmeTool.BlockDocstring | readme_updater/readme_updater_tool.py:116-125 | a block docstring gives its body lines, right-stripped, up to the closing delimiter |
| ReadmeTool.NoDelimiterNoDocstring | readme_updater/readme_updater_tool.py:103-126 | a script without triple quotes gives no docstring |
| ReadmeTool.CleanDocstringLines | readme_updater/readme_updater_tool.py:128-147 | the loop returns the specification's cleaned lines |
| ReadmeTool.CleanKeepsAllLines | readme_updater/readme_updater_tool.py:128-147 | lines that are neither blank nor the script name are all kept, newline-chomped |
| ReadmeTool.DropsOneBlank | readme_updater/readme_updater_tool.py:134-145 | after the script-name line exactly one blank line is dropped |
| ReadmeTool.KeepsTextAfterName | readme_updater/readme_updater_tool.py:134-145 | text right after the script-name line is kept |
| ReadmeTool.CleanKeptLine | readme_updater/readme_updater_tool.py:128-147 | every cleaned line is a chomped input line that is not the script name |
| ReadmeTool.WrapTagsOnlyAddsTicks | readme_updater/readme_updater_tool.py:149-157 | tag wrapping only inserts backticks: dropping them gives back the line |
| ReadmeTool.NoTagUnchanged | readme_updater/readme_updater_tool.py:149-157 | a line without `<` is unchanged |
| ReadmeTool.WrapsTag | readme_updater/readme_updater_tool.py:156 | a leading `<tag>` is wrapped in backticks |
| ReadmeTool.WrapTagsChars | readme_updater/readme_updater_tool.py:149-157 | wrapping adds no character other than backticks |
| ReadmeTool.FormatKeepsLines | readme_updater/readme_updater_tool.py:149-157 | formatting maps the docstring line by line |
| ReadmeTool.QuoteLine | readme_updater/readme_updater_tool.py:163 | every blockquoted line starts with `>` |
| ReadmeTool.BlockquoteKeepsLines | readme_updater/readme_updater_tool.py:159-163 | the blockquote has one `>`-line per text line |
| ReadmeTool.PurposeMarkdown | readme_updater/readme_updater_tool.py:183-191 | nothing is synced exactly when the stripped docstring is empty; otherwise the Purpose markdown is a sequence of `>`-quoted lines |
| ReadmeTool.PurposeMarkdownLines | readme_updater/readme_updater_tool.py:188-191 | the synced Purpose has one line per line of the tag-wrapped docstring, each that line behind `> `, or `>` where it is blank |
| ReadmeUpdater.ExtractSummary | readme_updater/readme_updater.py:28-47 | the loop returns the specification's title and description |
| ReadmeUpdater.TitleText | readme_updater/readme_updater.py:37 | a title holds no `#` |
| ReadmeUpdater.SummaryAtHeader | readme_updater/readme_updater.py:34-46 | at the first Purpose header the title is the last title seen before it and the description is the joined lines after it |
| ReadmeUpdater.SummaryNoHeader | readme_updater/readme_updater.py:34-47 | without a Purpose header the description is empty and the title is the last title line |
| ReadmeUpdater.DescStops | readme_updater/readme_updater.py:41-44 | the description stops at the first blank line |
| ReadmeUpdater.SummaryOfLines | readme_updater/readme_updater.py:28-47 | the summary of a README whose first Purpose header is at a given line, stated on the raw lines |
| ReadmeUpdater.SummaryRowsAround | readme_updater/readme_updater.py:53-61 | rows compose over entry lists; an entry gives a row iff it is a directory, not excluded, and has a README |
| ReadmeUpdater.RowsFromScannedDirs | readme_updater/readme_updater.py:53-61 | every row comes from a non-excluded directory with a README and is its summary row |
| ReadmeUpdater.UpdateSettles | readme_updater/readme_updater.py:67-96 | a README that has both markers stops changing after one update; any README stops changing after two |
| ReadmeUpdater.Updater.FindToolReadmes | readme_updater/readme_updater.py:53-61 | appends the scanned rows to `TOOL_ROWS` and leaves the README alone |
| ReadmeUpdater.Updater.UpdateRootReadme | readme_updater/readme_updater.py:67-96 | the README becomes the spliced text, or stays missing |
| ReadmeUpdater.Updater.ToolTableTask | readme_updater/readme_updater.py:105-109 | after clearing, `TOOL_ROWS` holds exactly the scanned rows, and the README is updated with them |
| ReadmeUpdater.ScanEntries | readme_updater/readme_updater.py:55-61 | the loop produces the specification rows |
| Splice.FullTable | readme_updater/readme_updater.py:77-79 | the full table is the start marker, header, rows and end marker |
| Splice.FullTableLines | readme_updater/readme_updater.py:77-79 | the full table's lines are the marker, two header lines, the rows and the marker |
| Splice.SpliceReplacesTable | readme_updater/readme_updater.py:84-91 | the text between the first start marker and the last end marker is replaced by the new table; the text before is right-stripped and the text after is left-stripped |
| Splice.SpliceIdempotent | readme_updater/readme_updater.py:84-91 | for a README that already holds both markers, splicing the same table twice equals splicing once |
| Splice.SpliceHasMarkers | readme_updater/readme_updater.py:84-91 | a spliced README always holds both markers |
| Splice.SpliceSettles | readme_updater/readme_updater.py:84-91 | once any README has been spliced, splicing it again with the same table changes nothing |
| ToolTable.ExtractSummary | generate_tool_table.py:16-28 | the loop returns the specification's title and description |
| ToolTable.FirstParagraphIsDescription | generate_tool_table.py:22-27 | the description is the first non-blank, non-heading line, stripped, and the title the last title before it |
| ToolTable.NoParagraphNoDescription | generate_tool_table.py:16-28 | without such a line the description is empty |
| ToolTable.LastTitleIsLastHeader | generate_tool_table.py:23-24 | the title is the last `# ` header seen, or the default when there is none |
| ToolTable.DescriptionIsParagraph | generate_tool_table.py:25-26 | a description never starts with `#` or whitespace |
| ToolTable.SummaryRowsAround | generate_tool_table.py:31-39 | rows compose; every directory with a README gives one row (no exclusions here) |
| ToolTable.ScanEntries | generate_tool_table.py:31-39 | the loop produces the specification rows |
| ToolTable.Generator.FindToolReadmes | generate_tool_table.py:31-39 | appends the scanned rows to `TOOL_ROWS` and leaves the README alone |
| ToolTable.Generator.UpdateRootReadme | generate_tool_table.py:42-71 | a missing README stays missing; otherwise it becomes the spliced text |
| ToolTable.Generator.Run | generate_tool_table.py:74-77 | the script's two steps: rows appended, README spliced with all rows |
| LandingPage.GenerateStyleMap | functions.js:45-57 | the `reduce` loop yields the specification style map |
| LandingPage.StyleMapKeys | functions.js:45-57 | the map's keys are exactly the folders |
| LandingPage.StyleMapLastPosition | functions.js:47-56 | a folder's style is the colour of its last position in the list |
| LandingPage.StyleOfInjective | functions.js:49-55 | different colours give different styles |
| LandingPage.StylesRepeatEveryEight | functions.js:46-48 | two positions share a style iff they are equal modulo 8 |
| LandingPage.CardAngle | functions.js:197 | the card angle is one of the seven listed angles |
| LandingPage.PrevRadio | functions.js:198 | the previous radio id wraps from the first card to the last |
| LandingPage.NextRadio | functions.js:199 | the next radio id wraps from the last card to the first |
| LandingPage.PrevNextInverse | functions.js:198-211 | previous and next are inverse carousel moves |
| LandingPage.JsUnquote | functions.js:163 | stripping the quote marker keeps a suffix of the line |
| LandingPage.KeyFeaturesIndexIsFirst | functions.js:172-176 | the split happens at the first `key features` line |
| LandingPage.SplitPurposeAndFeatures | functions.js:168-182 | the purpose lines are those before the first marker and the feature lines those after it, the marker dropped |
| LandingPage.SplitAtFirst | functions.js:168-182 | the `foundKeyFeatures` loop splits around the first marked line |
| LandingPage.Keep | functions.js:185-186 | the filter keeps only accepted lines, drawn from the input |
| LandingPage.TrimFilterAround | functions.js:185-186 | trimming and filtering work line by line |
| LandingPage.ExtractPurposeAndFeatures | functions.js:153-193 | no match gives empty purpose and features; otherwise the trimmed, non-empty lines before and after the marker, joined by newlines; `features` is this markdown text before `mdToHtml` converts it |
| LandingPage.UseCases | functions.js:320-323 | every use case is non-empty and does not start with `#` |
| LandingPage.TrimmedLines | functions.js:320-323 | every kept line is trimmed at both ends |
| LineEndings.ReplaceChainIsUnix | executioner/executioner_tool.py:46 | the two `replace` calls equal one pass that turns each `\r\n` and each lone `\r` into `\n` |
| LineEndings.UnixHasNoCR | executioner/executioner_tool.py:46 | no `\r` survives and the text never grows |
| LineEndings.UnixWithoutCR | executioner/executioner_tool.py:46 | a text without `\r` is unchanged |
| LineEndings.UnixIdempotent | executioner/executioner_tool.py:46 | normalising twice is normalising once |
| LineEndings.CRLFBecomesOneLF | executioner/executioner_tool.py:46 | each `\r\n` gives exactly one `\n` |
| LineEndings.LoneCRBecomesLF | executioner/executioner_tool.py:46 | a lone `\r` gives one `\n` |
| LineEndings.ConvertToUnixLineEndings | executioner/executioner_tool.py:42-48 | the converted bytes are the one-pass normalisation, hold no CR, and equal the input when it has none |
| LineEndings.ConvertIdempotent | executioner/executioner_tool.py:42-48 | converting a converted script changes nothing |
| LineEndings.UnixText | executioner/executioner.py:37 | the normalised text holds no `\r` and is the one-pass normalisation |
| LineEndings.ReadTextIsNormalised | executioner/executioner.py:36 | the text `read_text` returns (universal newlines) holds no `\r` and already equals the normalised text |
| LineEndings.TextFile.EnsureUnixLineEndings | executioner/executioner.py:34-40 | as written: the comparison never finds a change, so the file is never rewritten and stays as it was |
| LineEndings.AsWrittenNeverRewrites | executioner/executioner.py:36-38 | normalising the text that was read gives the same text, for every file |
| LineEndings.CarriageReturnSurvives | executioner/executioner.py:36-38 | a file stored as `a\r\nb` holds a `\r` and differs from its normalised form, yet the compared text is `a\nb` and is left alone |
| LineEndings.TextFile.EnsureUnixLineEndingsUntranslated | executioner/executioner.py:34-40 | corrected: comparing the stored characters, the file is rewritten with the normalised text, once, exactly when it holds a `\r` |
| LineEndings.RewriteOnlyWithCR | executioner/executioner.py:37-39 | the corrected comparison differs iff the file contains `\r`, and a second run never rewrites it |

## Left out

- Network access is not modelled: HTTP fetching, robots.txt download, retries and user-agent headers. The fetched text is an input.
- Command-line parsing, prompts, printing and exit codes are not modelled. The printed summaries are modelled as the rows they would print.
- HTML parsing (BeautifulSoup) is not modelled. The document is given as an element tree. `urlparse` is not modelled either; the location and path are inputs.
- Floating point is not modelled. Averages, normalisations and the composite are exact reals, and the `.1f` rounding of printed numbers is left out. Column formatting other than the 50-character selector cell is left out.
- Filesystem access is not modelled. Directory listings, README contents and script contents are inputs, and the order of `iterdir()` is the order of the input list.
- The `.excluded` marker check in the executioner and on the landing page is left out, because it is a filesystem query.
- The symlink creation and `chmod` in the executioner scripts are filesystem side effects and are left out.
- LineEndings.TextFile: `write_text` is taken to store `\n` as `\n`; its translation of `\n` to a platform line separator other than `\n` is not modelled.
- Whitespace is the six characters space, `\t`, `\n`, `\r`, `\v` and `\f`. The other characters Python's `strip()` removes (`\x1c`-`\x1f`, `\x85`, `\xa0` and other Unicode spaces) and those JavaScript's `trim()` removes (`\xa0`, `\ufeff` and other Unicode spaces) are not modelled. Lowercasing is ASCII lowercasing; case folding is not modelled.
- ReadmeTool.UpdateReadme: `re.sub` processing of backslashes in the replacement template is not modelled. The table is inserted literally.
- ReadmeTool.PurposeMarkdown: the `re.sub` replacement of the Purpose section in SyncPurposeTask is not modelled. Only the markdown it inserts is produced.
- ConsolidateConceptsTask (readme_updater/readme_updater_tool.py:214-277) is left out: it picks concept titles out of each README's Concepts bullets with a regular expression, normalises and groups them, sorts the groups and their examples, and splices the HTML into the root README with `re.sub`. None of this feeds the modelled table or Purpose logic, and its regular expressions are outside the string model.
- The regular-expression matches in `functions.js` (the Purpose blockquote and the Use Cases section) are inputs: the captured text, or None when there is no match.
- `mdToHtml`, the DOM manipulation and the random icon animation in `functions.js` are left out.
- Robots: the seven lists returned by `parse_robots_txt` travel together in one `Parsed` record.
- Tools outside the selector, robots, README, landing-page and executioner cores are not part of this model: freqhue, watch_automation, package_toolkit, the converters, portfolio_generator, debug_demo, logAnalyzer, nice_main, streamlit_app and toolkit_runner.
- The unit tests' literal pages are not restated one by one. What their assertions check is stated for every input by general lemmas: PageCounts.UrlToFilenameShape (output file names), Selectors.TokensOfPath (selector tokens), Selectors.ListAncestorOfPath (list ancestors), Suggest.CountsAreOccurrences (selector counts) and Suggest.Averages (mean scores).

## Findings

| source | as written | input that shows it | evidently intended | confidence | as-written member | corrected member |
|---|---|---|---|---|---|---|
| executioner/executioner.py:36-40 | the file is read with `read_text`, whose universal-newline mode already turns `\r\n` and `\r` into `\n`, so `content != new_content` is never true and no file is rewritten | a file stored as `a\r\nb` | a file holding `\r` is rewritten with `\n` line breaks, as `executioner_tool.py` does on bytes | high; not executed | LineEndings.CarriageReturnSurvives | LineEndings.TextFile.EnsureUnixLineEndingsUntranslated |
