/** The robots.txt analyzer: a line-by-line parser that opens one group per `User-agent`
    line and attaches the following rule lines to it, and a report builder that picks one
    group and lists its rules with the file-wide directives and some advice. */
module Robots {
  import opened Opt
  import opened Strings

  /** One `User-agent` group as the parser builds it. */
  datatype Group = Group(
    agent: string,
    allow: seq<string>,
    disallow: seq<string>,
    crawlDelay: Option<string>,
    requestRate: Option<string>,
    cleanParam: seq<string>)

  /** The seven results of the parser. */
  datatype Parsed = Parsed(
    rules: seq<Group>,
    sitemaps: seq<string>,
    hosts: seq<string>,
    requestRates: seq<string>,
    cleanParams: seq<string>,
    comments: seq<string>,
    nonstandard: seq<string>)

  /** A group just opened: no rules, no delay, no rate. */
  function Fresh(agent: string): Group {
    Group(agent, [], [], None, None, [])
  }

  /** Python truthiness of an optional string: present and non-empty. */
  predicate Truthy(a: Option<string>) {
    a.Some? && a.value != ""
  }

  function Last(rules: seq<Group>): Group
    requires rules != []
  {
    rules[|rules| - 1]
  }

  /** `rules[-1] = g` */
  function WithLast(rules: seq<Group>, g: Group): (r: seq<Group>)
    requires rules != []
    ensures |r| == |rules| && r[..|rules| - 1] == rules[..|rules| - 1] && Last(r) == g
  {
    rules[..|rules| - 1] + [g]
  }

  /** The part after the first `:`, or nothing if there is none. */
  function AfterColon(s: string): (r: string)
    ensures |r| <= |s|
  {
    if s == [] then []
    else if s[0] == ':' then s[1..]
    else AfterColon(s[1..])
  }

  /** `line.split(':', 1)[1].strip()` */
  function ValueOf(line: string): string {
    Strip(AfterColon(line))
  }

  /** What a stripped line is, by the first prefix of its lower-cased text that matches
      in the parser's order of tests. */
  datatype LineKind = Blank | Comment | UserAgent | Allow | Disallow | CrawlDelay
                    | RequestRate | CleanParam | Sitemap | Host | Nonstandard | Ignored

  /** The directive prefixes, lower case, in the parser's order of tests. */
  function Prefix(k: LineKind): string {
    match k
    case UserAgent => "user-agent:"
    case Allow => "allow:"
    case Disallow => "disallow:"
    case CrawlDelay => "crawl-delay:"
    case RequestRate => "request-rate:"
    case CleanParam => "clean-param:"
    case Sitemap => "sitemap:"
    case Host => "host:"
    case _ => ""
  }

  /** The rule lines that need a current agent. */
  predicate NeedsAgent(k: LineKind) {
    k.Allow? || k.Disallow? || k.CrawlDelay? || k.RequestRate? || k.CleanParam?
  }

  function Classify(line: string): (k: LineKind)
    ensures k == Blank <==> line == ""
    ensures k == Comment <==> line != "" && StartsWith(line, "#")
    ensures k.UserAgent? || NeedsAgent(k) || k.Sitemap? || k.Host? ==> StartsWith(Lower(line), Prefix(k))
  {
    if line == "" then Blank
    else if StartsWith(line, "#") then Comment
    else
      var lc := Lower(line);
      if StartsWith(lc, "user-agent:") then UserAgent
      else if StartsWith(lc, "allow:") then Allow
      else if StartsWith(lc, "disallow:") then Disallow
      else if StartsWith(lc, "crawl-delay:") then CrawlDelay
      else if StartsWith(lc, "request-rate:") then RequestRate
      else if StartsWith(lc, "clean-param:") then CleanParam
      else if StartsWith(lc, "sitemap:") then Sitemap
      else if StartsWith(lc, "host:") then Host
      else if StartsWith(lc, "noindex") || StartsWith(lc, "nofollow") then Nonstandard
      else Ignored
  }

  /** A rule line's effect on the group it is attached to. */
  function Attach(g: Group, k: LineKind, v: string): (r: Group)
    ensures r.agent == g.agent
    ensures r.allow == g.allow + (if k == Allow then [v] else [])
    ensures r.disallow == g.disallow + (if k == Disallow then [v] else [])
    ensures r.crawlDelay == (if k == CrawlDelay then Some(v) else g.crawlDelay)
    ensures r.requestRate == (if k == RequestRate then Some(v) else g.requestRate)
    ensures r.cleanParam == g.cleanParam + (if k == CleanParam then [v] else [])
  {
    match k
    case Allow => g.(allow := g.allow + [v])
    case Disallow => g.(disallow := g.disallow + [v])
    case CrawlDelay => g.(crawlDelay := Some(v))
    case RequestRate => g.(requestRate := Some(v))
    case CleanParam => g.(cleanParam := g.cleanParam + [v])
    case _ => g
  }

  /** One line of the file, stripped, with its kind and the value after its first colon. */
  datatype Line = Line(kind: LineKind, text: string, value: string)

  function Classified(raw: string): Line {
    var t := Strip(raw);
    Line(Classify(t), t, ValueOf(t))
  }

  /** `text.splitlines()`, each line stripped and classified. */
  function Lines(text: string): seq<Line> {
    MapSeq(Classified, SplitLines(text))
  }

  /** `current_agent` is truthy: a group is open and its agent is non-empty. */
  predicate Active(rules: seq<Group>) {
    rules != [] && Last(rules).agent != ""
  }

  /** One line's effect on the groups: a `User-agent` line opens a group, a rule line
      changes the last group while that group's agent is non-empty, and nothing else
      touches them. */
  function NextGroups(rules: seq<Group>, line: Line): seq<Group> {
    var v := line.value;
    if line.kind == UserAgent then rules + [Fresh(v)]
    else if NeedsAgent(line.kind) && Active(rules) then WithLast(rules, Attach(Last(rules), line.kind, v))
    else rules
  }

  /** The groups after the given lines. */
  function Groups(ls: seq<Line>): seq<Group> {
    if ls == [] then [] else NextGroups(Groups(ls[..|ls| - 1]), ls[|ls| - 1])
  }

  /** `current_agent` after the given lines: the agent of the last group opened. */
  function CurrentAgent(ls: seq<Line>): Option<string> {
    var rules := Groups(ls);
    if rules == [] then None else Some(Last(rules).agent)
  }

  /** The texts of the lines of kind `k`, in order. */
  function TextsOf(ls: seq<Line>, k: LineKind): seq<string> {
    if ls == [] then []
    else
      var n := |ls| - 1;
      TextsOf(ls[..n], k) + (if ls[n].kind == k then [ls[n].text] else [])
  }

  /** The values of the lines of kind `k`, in order. */
  function ValuesOf(ls: seq<Line>, k: LineKind): seq<string> {
    if ls == [] then []
    else
      var n := |ls| - 1;
      ValuesOf(ls[..n], k) + (if ls[n].kind == k then [ls[n].value] else [])
  }

  /** The values of the lines of kind `k` that were attached to a group, in order. */
  function AttachedValues(ls: seq<Line>, k: LineKind): seq<string> {
    if ls == [] then []
    else
      var n := |ls| - 1;
      AttachedValues(ls[..n], k)
        + (if ls[n].kind == k && NeedsAgent(k) && Active(Groups(ls[..n])) then [ls[n].value] else [])
  }

  /** `parse_robots_txt(text)` */
  function Parse(text: string): Parsed {
    ParseOf(Lines(text))
  }

  /** The parser's seven results after the given lines. */
  function ParseOf(ls: seq<Line>): Parsed {
    Parsed(Groups(ls), ValuesOf(ls, Sitemap), ValuesOf(ls, Host),
           AttachedValues(ls, RequestRate), AttachedValues(ls, CleanParam),
           TextsOf(ls, Comment), TextsOf(ls, Nonstandard))
  }

  lemma PrefixStep(ls: seq<Line>, i: nat)
    requires i < |ls|
    ensures var pre := ls[..i]; var line := ls[i]; var v := line.value;
      var attached := NeedsAgent(line.kind) && Active(Groups(pre));
      && Groups(ls[..i + 1]) == NextGroups(Groups(pre), line)
      && TextsOf(ls[..i + 1], Comment) == TextsOf(pre, Comment) + (if line.kind == Comment then [line.text] else [])
      && TextsOf(ls[..i + 1], Nonstandard) == TextsOf(pre, Nonstandard) + (if line.kind == Nonstandard then [line.text] else [])
      && ValuesOf(ls[..i + 1], Sitemap) == ValuesOf(pre, Sitemap) + (if line.kind == Sitemap then [v] else [])
      && ValuesOf(ls[..i + 1], Host) == ValuesOf(pre, Host) + (if line.kind == Host then [v] else [])
      && AttachedValues(ls[..i + 1], RequestRate) == AttachedValues(pre, RequestRate)
           + (if line.kind == RequestRate && attached then [v] else [])
      && AttachedValues(ls[..i + 1], CleanParam) == AttachedValues(pre, CleanParam)
           + (if line.kind == CleanParam && attached then [v] else [])
  {
    assert ls[..i + 1][..i] == ls[..i];
  }

  /** Only a `User-agent` line changes the current agent, and a rule line is attached
      exactly when the current agent is truthy. */
  lemma AgentStep(ls: seq<Line>, i: nat)
    requires i < |ls|
    ensures CurrentAgent(ls[..i + 1]) == if ls[i].kind == UserAgent then Some(ls[i].value) else CurrentAgent(ls[..i])
    ensures Truthy(CurrentAgent(ls[..i])) <==> Active(Groups(ls[..i]))
  {
    PrefixStep(ls, i);
  }

  /** The seven results after one more line. */
  function Step(acc: Parsed, line: Line): Parsed {
    var k, v := line.kind, line.value;
    var attached := NeedsAgent(k) && Active(acc.rules);
    Parsed(
      NextGroups(acc.rules, line),
      acc.sitemaps + (if k == Sitemap then [v] else []),
      acc.hosts + (if k == Host then [v] else []),
      acc.requestRates + (if k == RequestRate && attached then [v] else []),
      acc.cleanParams + (if k == CleanParam && attached then [v] else []),
      acc.comments + (if k == Comment then [line.text] else []),
      acc.nonstandard + (if k == Nonstandard then [line.text] else []))
  }

  lemma ParseOfStep(ls: seq<Line>, i: nat)
    requires i < |ls|
    ensures ParseOf(ls[..i + 1]) == Step(ParseOf(ls[..i]), ls[i])
  {
    PrefixStep(ls, i);
  }

  /** `parse_robots_txt`: one pass over the lines, updating the current agent, the last
      group and the file-wide lists. */
  method ParseRobotsTxt(text: string) returns (p: Parsed)
    ensures p == Parse(text)
  {
    var ls := MapSeq(Classified, SplitLines(text));
    p := ParseLines(ls);
  }

  /** The loop of `parse_robots_txt` over the stripped, classified lines; the seven
      result lists travel together in `p`. */
  method ParseLines(ls: seq<Line>) returns (p: Parsed)
    ensures p == ParseOf(ls)
  {
    p := Parsed([], [], [], [], [], [], []);
    var currentAgent: Option<string> := None;
    for i := 0 to |ls|
      invariant p == ParseOf(ls[..i])
      invariant currentAgent == CurrentAgent(ls[..i])
    {
      ParseOfStep(ls, i);
      AgentStep(ls, i);
      p, currentAgent := ParseLine(p, currentAgent, ls[i]);
    }
    TakeAll(ls);
  }

  /** The body of the parser's loop for one stripped, classified line. */
  method ParseLine(p: Parsed, currentAgent: Option<string>, l: Line) returns (next: Parsed, agent: Option<string>)
    requires Truthy(currentAgent) <==> Active(p.rules)
    ensures next == Step(p, l)
    ensures agent == if l.kind == UserAgent then Some(l.value) else currentAgent
  {
    next, agent := p, currentAgent;
    var line, kind, value := l.text, l.kind, l.value;
    if kind == Comment {
      next := next.(comments := p.comments + [line]);
    } else if kind == UserAgent {
      agent := Some(value);
      next := next.(rules := p.rules + [Fresh(value)]);
    } else if NeedsAgent(kind) && Truthy(currentAgent) {
      next := next.(rules := WithLast(p.rules, Attach(Last(p.rules), kind, value)));
      if kind == RequestRate {
        next := next.(requestRates := p.requestRates + [value]);
      } else if kind == CleanParam {
        next := next.(cleanParams := p.cleanParams + [value]);
      }
    } else if kind == Sitemap {
      next := next.(sitemaps := p.sitemaps + [value]);
    } else if kind == Host {
      next := next.(hosts := p.hosts + [value]);
    } else if kind == Nonstandard {
      next := next.(nonstandard := p.nonstandard + [line]);
    }
  }

  // ---------------------------------------------------------------------------
  // The classifier

  /** A stripped line opening with the directive `d` (a lower-case prefix), in any letter case. */
  predicate IsDirective(line: string, d: string) {
    StartsWith(Lower(line), d)
  }

  /** A directive line is neither blank nor a comment: its first character is a letter. */
  lemma DirectiveIsNotComment(line: string, d: string)
    requires IsDirective(line, d) && d != [] && 'a' <= d[0] <= 'z'
    ensures line != "" && !StartsWith(line, "#")
  {
    assert Lower(line)[0] == d[0];
  }

  /** Directive names match in any letter case: `User-agent`, `USER-AGENT`, `user-agent`. */
  lemma ClassifyAgentLine(line: string)
    ensures Classify(line) == UserAgent <==> IsDirective(line, "user-agent:")
  {
    if IsDirective(line, "user-agent:") {
      DirectiveIsNotComment(line, "user-agent:");
    }
  }

  /** A line is a Sitemap line exactly when it opens with `sitemap:`: no earlier test can take it. */
  lemma ClassifySitemapLine(line: string)
    ensures Classify(line) == Sitemap <==> IsDirective(line, "sitemap:")
  {
    if IsDirective(line, "sitemap:") {
      DirectiveIsNotComment(line, "sitemap:");
      assert Lower(line)[0] == 's';
    }
  }

  /** A line is a Host line exactly when it opens with `host:`. */
  lemma ClassifyHostLine(line: string)
    ensures Classify(line) == Host <==> IsDirective(line, "host:")
  {
    if IsDirective(line, "host:") {
      DirectiveIsNotComment(line, "host:");
      assert Lower(line)[0] == 'h';
    }
  }

  /** Everything the parser tests a lower-cased line for, in order. */
  const Tests: seq<string> := ["user-agent:", "allow:", "disallow:", "crawl-delay:", "request-rate:",
                               "clean-param:", "sitemap:", "host:", "noindex", "nofollow"]

  /** Two prefixes that differ somewhere both are defined cannot open the same string. */
  lemma PrefixesDiffer(s: string, p: string, q: string, j: nat)
    requires j < |p| && j < |q| && p[j] != q[j]
    ensures !(StartsWith(s, p) && StartsWith(s, q))
  {
    if StartsWith(s, p) {
      assert s[j] == s[..|p|][j] == p[j];
      if |q| <= |s| {
        assert s[..|q|][j] == s[j];
      }
    }
  }

  /** A rule line opens with its own directive and with nothing else the parser tests
      for; so when the current agent is unset, every later test fails and the line is
      dropped. */
  lemma RuleLineMatchesNothingElse(line: string)
    requires NeedsAgent(Classify(line))
    ensures IsDirective(line, Prefix(Classify(line)))
    ensures forall p :: p in Tests && p != Prefix(Classify(line)) ==> !IsDirective(line, p)
  {
    var q := Prefix(Classify(line));
    forall p | p in Tests && p != q ensures !IsDirective(line, p) {
      PrefixesDiffer(Lower(line), p, q, if p[0] == q[0] then 1 else 0);
    }
  }

  /** The part after the first `:` is found by walking to that colon. */
  lemma {:induction false} AfterColonAt(s: string, k: nat)
    requires k < |s| && s[k] == ':' && forall j :: 0 <= j < k ==> s[j] != ':'
    ensures AfterColon(s) == s[k + 1..]
  {
    if k > 0 {
      AfterColonAt(s[1..], k - 1);
    }
  }

  /** The value of a directive line is what follows the directive name and its colon,
      stripped: the case folding moves no colon. */
  lemma ValueAfterDirective(line: string, d: string)
    requires IsDirective(line, d) && d != [] && d[|d| - 1] == ':'
    requires forall j :: 0 <= j < |d| - 1 ==> d[j] != ':'
    ensures ValueOf(line) == Strip(line[|d|..])
  {
    var k := |d| - 1;
    assert Lower(line)[k] == ':';
    forall j | 0 <= j < k ensures line[j] != ':' {
      assert Lower(line)[j] == d[j];
    }
    AfterColonAt(line, k);
  }

  // ---------------------------------------------------------------------------
  // What the parser collects

  /** There is one group per `User-agent` line, in order, named by that line's value;
      so the current agent is the value of the latest `User-agent` line. */
  lemma {:induction false} GroupPerAgentLine(ls: seq<Line>)
    ensures |Groups(ls)| == |ValuesOf(ls, UserAgent)|
    ensures forall i :: 0 <= i < |Groups(ls)| ==> Groups(ls)[i].agent == ValuesOf(ls, UserAgent)[i]
  {
    if ls != [] {
      GroupPerAgentLine(ls[..|ls| - 1]);
    }
  }

  /** The Clean-param values of all groups, group after group. */
  function AllCleanParams(rules: seq<Group>): seq<string> {
    if rules == [] then [] else AllCleanParams(rules[..|rules| - 1]) + Last(rules).cleanParam
  }

  lemma AllCleanParamsOfSnoc(rules: seq<Group>, g: Group)
    ensures AllCleanParams(rules + [g]) == AllCleanParams(rules) + g.cleanParam
  {
    assert (rules + [g])[..|rules|] == rules;
  }

  lemma AllCleanParamsOfWithLast(rules: seq<Group>, g: Group, extra: seq<string>)
    requires rules != [] && g.cleanParam == Last(rules).cleanParam + extra
    ensures AllCleanParams(WithLast(rules, g)) == AllCleanParams(rules) + extra
  {
    var init := rules[..|rules| - 1];
    assert rules == init + [Last(rules)];
    AllCleanParamsOfSnoc(init, g);
    AllCleanParamsOfSnoc(init, Last(rules));
  }

  /** The global Clean-param list is the groups' lists one after another, and before
      the first group there is nothing in either global list. */
  lemma {:induction false} CleanParamsAreGrouped(ls: seq<Line>)
    ensures AttachedValues(ls, CleanParam) == AllCleanParams(Groups(ls))
    ensures Groups(ls) == [] ==> AttachedValues(ls, RequestRate) == [] && AttachedValues(ls, CleanParam) == []
  {
    if ls != [] {
      var n := |ls| - 1;
      CleanParamsAreGrouped(ls[..n]);
      var rules := Groups(ls[..n]);
      var k := ls[n].kind;
      var v := ls[n].value;
      if k == UserAgent {
        AllCleanParamsOfSnoc(rules, Fresh(v));
      } else if NeedsAgent(k) && Active(rules) {
        AllCleanParamsOfWithLast(rules, Attach(Last(rules), k, v), if k == CleanParam then [v] else []);
      }
    }
  }

  /** Every group's request rate is among the global ones, and a group opened by an
      empty `User-agent` value keeps no rules at all. */
  lemma {:induction false} GroupsKeepTheirRules(ls: seq<Line>)
    ensures forall g :: g in Groups(ls) && g.requestRate.Some? ==> g.requestRate.value in AttachedValues(ls, RequestRate)
    ensures forall g :: g in Groups(ls) && g.agent == "" ==> g == Fresh("")
  {
    if ls != [] {
      var n := |ls| - 1;
      GroupsKeepTheirRules(ls[..n]);
      var rules := Groups(ls[..n]);
      var k := ls[n].kind;
      if k != UserAgent && NeedsAgent(k) && Active(rules) {
        var r := Groups(ls);
        forall g | g in r ensures g in rules || g == Last(r) {
          var i :| 0 <= i < |r| && r[i] == g;
          if i < |rules| - 1 {
            assert r[..|rules| - 1][i] == g;
          }
        }
      }
    }
  }

  /** The current agent is the value of the latest `User-agent` line, if there is one. */
  lemma CurrentAgentIsLatest(ls: seq<Line>)
    ensures ValuesOf(ls, UserAgent) == [] ==> CurrentAgent(ls) == None
    ensures ValuesOf(ls, UserAgent) != [] ==>
      CurrentAgent(ls) == Some(ValuesOf(ls, UserAgent)[|ValuesOf(ls, UserAgent)| - 1])
  {
    GroupPerAgentLine(ls);
  }

  /** A later Crawl-delay or Request-rate in the same group overwrites the earlier one
      and changes nothing else in the groups. */
  lemma LaterValueWins(ls: seq<Line>, line: Line)
    requires (line.kind == CrawlDelay || line.kind == RequestRate) && Active(Groups(ls))
    ensures var before := Groups(ls); var after := Groups(ls + [line]);
      && |after| == |before| && after[..|before| - 1] == before[..|before| - 1]
      && Last(after) == (if line.kind == CrawlDelay then Last(before).(crawlDelay := Some(line.value))
                         else Last(before).(requestRate := Some(line.value)))
  {
    assert (ls + [line])[..|ls|] == ls;
  }

  /** A rule line read while the current agent is unset or empty changes no result. */
  lemma RuleWithoutAgentIsDropped(ls: seq<Line>, line: Line)
    requires NeedsAgent(line.kind) && !Truthy(CurrentAgent(ls))
    ensures ParseOf(ls + [line]) == ParseOf(ls)
  {
    var all := ls + [line];
    assert all[..|ls|] == ls;
    ParseOfStep(all, |ls|);
    AgentStep(all, |ls|);
  }

  // ---------------------------------------------------------------------------
  // The report

  const NoRules := "No robots.txt rules found."
  const Title := "# ROBOTS.TXT SCRAPING GUIDANCE\n"
  const NoneSpecified := "(none specified)"
  // Each tip is written as its opening word and the rest, so that the opening, which tells
  // the tips apart, is a short literal.
  const TipsTitle := "# Scraping Tips based on robots.txt:"
  const NoDelayTip := "- No " + "crawl-delay specified; use a reasonable delay (e.g., 1-2 seconds) to avoid blocking."
  const DisallowTip := "- Do " + "NOT scrape disallowed paths listed above."
  const NoDisallowTip := "- No " + "disallowed paths; scraping is broadly permitted."
  const FocusTip := "- Focus" + " scraping on allowed paths for best compliance."
  const NonstandardTip := "- Non" + "-standard directives found; review them for additional restrictions."
  const SitemapTip := "- Sitemaps" + " may help you discover content to scrape."
  const IdentifyTip := "- Always identify your bot with a User-Agent string and follow site policies."

  function DelayTip(delay: string): string {
    "- Respect" + " the crawl-delay of " + delay + " seconds between requests."
  }

  /** A line that is written only when `c` holds. */
  function When(c: bool, line: string): (r: seq<string>)
    ensures |r| <= 1
    ensures line in r <==> c
  {
    if c then [line] else []
  }

  /** `prefix + item` for each item, in order. */
  function Bulleted(prefix: string, items: seq<string>): (r: seq<string>)
    ensures |r| == |items|
    ensures forall i :: 0 <= i < |items| ==> r[i] == prefix + items[i]
  {
    if items == [] then [] else Bulleted(prefix, items[..|items| - 1]) + [prefix + items[|items| - 1]]
  }

  /** `for item in items: report.append(prefix + item)` */
  method AppendBullets(report: seq<string>, prefix: string, items: seq<string>) returns (r: seq<string>)
    ensures r == report + Bulleted(prefix, items)
  {
    r := report;
    for k := 0 to |items|
      invariant r == report + Bulleted(prefix, items[..k])
    {
      assert items[..k + 1][..k] == items[..k];
      r := r + [prefix + items[k]];
    }
    TakeAll(items);
  }

  /** A titled block of the report: the title, one line per item, a blank line; nothing
      at all when there are no items. */
  function WithListing(report: seq<string>, title: string, prefix: string, items: seq<string>): seq<string> {
    if items == [] then report else report + [title] + Bulleted(prefix, items) + [""]
  }

  /** `if items: ...`, one of the four global blocks. */
  method AppendListing(report: seq<string>, title: string, prefix: string, items: seq<string>)
    returns (r: seq<string>)
    ensures r == WithListing(report, title, prefix, items)
  {
    r := report;
    if items != [] {
      r := r + [title];
      r := AppendBullets(r, prefix, items);
      r := r + [""];
    }
  }

  /** `rule['Allow'] if rule['Allow'] else ['(none specified)']` */
  function OrNone(paths: seq<string>): (r: seq<string>)
    ensures r != []
    ensures paths != [] ==> r == paths
    ensures r != [NoneSpecified] <==> paths != [] && paths != [NoneSpecified]
  {
    if paths != [] then paths else [NoneSpecified]
  }

  /** `'*'` if some group is for every agent, else the first group's agent. */
  function RecommendedAgent(rules: seq<Group>): (a: string)
    requires rules != []
    ensures exists i :: 0 <= i < |rules| && rules[i].agent == a
    ensures a == "*" <==> exists i :: 0 <= i < |rules| && rules[i].agent == "*"
    ensures a != "*" ==> a == rules[0].agent
  {
    if exists i :: 0 <= i < |rules| && rules[i].agent == "*" then "*" else rules[0].agent
  }

  /** The first group for agent `a`: the one the report describes. */
  function FirstGroupFor(rules: seq<Group>, a: string): (i: nat)
    requires exists i :: 0 <= i < |rules| && rules[i].agent == a
    ensures i < |rules| && rules[i].agent == a
    ensures forall j :: 0 <= j < i ==> rules[j].agent != a
  {
    if rules[0].agent == a then 0
    else
      assert exists i :: 0 <= i < |rules[1..]| && rules[1..][i].agent == a by {
        var i :| 0 <= i < |rules| && rules[i].agent == a;
        assert rules[1..][i - 1].agent == a;
      }
      1 + FirstGroupFor(rules[1..], a)
  }

  /** The group the report describes. */
  function ChosenGroup(rules: seq<Group>): Group
    requires rules != []
  {
    rules[FirstGroupFor(rules, RecommendedAgent(rules))]
  }

  /** The opening lines: the title and the recommended agent. */
  function Head(agent: string): seq<string> {
    [Title] + ["Recommended User-agent for scraping: '" + agent + "'\n"]
  }

  /** A list of paths under its heading. */
  function WithPaths(report: seq<string>, heading: string, paths: seq<string>): seq<string> {
    report + [heading] + Bulleted("  - ", paths)
  }

  /** The group's crawl delay, request rate and clean parameters, when it has them. */
  function WithLimits(report: seq<string>, g: Group): seq<string> {
    report
    + When(Truthy(g.crawlDelay), "Crawl-delay: " + g.crawlDelay.GetOr("") + " seconds (wait this long between requests)")
    + When(Truthy(g.requestRate), "Request-rate: " + g.requestRate.GetOr(""))
    + Bulleted("Clean-param: ", g.cleanParam)
  }

  /** The crawl-delay tip: the group's own delay, or a default suggestion. */
  function WithDelayTip(report: seq<string>, g: Group): seq<string> {
    report + [if Truthy(g.crawlDelay) then DelayTip(g.crawlDelay.value) else NoDelayTip]
  }

  /** The disallow tip, chosen by whether the group lists real disallowed paths. */
  function WithDisallowTip(report: seq<string>, g: Group): seq<string> {
    report + [if OrNone(g.disallow) != [NoneSpecified] then DisallowTip else NoDisallowTip]
  }

  /** The advice at the end of the report. */
  function WithTips(report: seq<string>, g: Group, p: Parsed): seq<string> {
    WithDisallowTip(WithDelayTip(report + [TipsTitle], g), g)
    + When(OrNone(g.allow) != [NoneSpecified], FocusTip)
    + When(p.nonstandard != [], NonstandardTip)
    + When(p.sitemaps != [], SitemapTip)
    + [IdentifyTip]
    + [""]
  }

  /** The description of the chosen group, up to its closing blank line. */
  function WithGroup(report: seq<string>, g: Group): seq<string> {
    WithLimits(WithPaths(WithPaths(report, "Allowed paths:", OrNone(g.allow)),
                         "Disallowed paths:", OrNone(g.disallow)), g) + [""]
  }

  /** The lines of the report for a file with at least one group. */
  function ReportLines(p: Parsed): seq<string>
    requires p.rules != []
  {
    var g := ChosenGroup(p.rules);
    WithTips(Globals(WithGroup(Head(RecommendedAgent(p.rules)), g), p), g, p)
  }

  /** The sitemaps, hosts, non-standard directives and comments of the whole file. */
  function Globals(report: seq<string>, p: Parsed): seq<string> {
    WithListing(WithListing(WithListing(WithListing(report,
      "Sitemaps:", "  - ", p.sitemaps),
      "Host directives:", "  - ", p.hosts),
      "Non-standard directives:", "  ", p.nonstandard),
      "# Comments found in robots.txt:", "  ", p.comments)
  }

  /** The text `generate_report` returns. */
  function Report(p: Parsed): string {
    if p.rules == [] then NoRules else Join("\n", ReportLines(p))
  }

  /** `generate_report`: build the report line by line and join the lines. */
  method GenerateReport(p: Parsed) returns (text: string)
    ensures text == Report(p)
  {
    if p.rules == [] {
      return NoRules;
    }
    var report := [Title];
    var recommended := RecommendedAgent(p.rules);
    report := report + ["Recommended User-agent for scraping: '" + recommended + "'\n"];
    // the search always succeeds: the recommended agent names some group
    var idx := 0;
    while p.rules[idx].agent != recommended
      invariant idx <= FirstGroupFor(p.rules, recommended)
      decreases FirstGroupFor(p.rules, recommended) - idx
    {
      idx := idx + 1;
    }
    assert idx == FirstGroupFor(p.rules, recommended);
    var rule := p.rules[idx];
    report := AppendGroup(report, rule);
    report := AppendListing(report, "Sitemaps:", "  - ", p.sitemaps);
    report := AppendListing(report, "Host directives:", "  - ", p.hosts);
    report := AppendListing(report, "Non-standard directives:", "  ", p.nonstandard);
    report := AppendListing(report, "# Comments found in robots.txt:", "  ", p.comments);
    report := AppendTips(report, rule, p);
    text := Join("\n", report);
  }

  /** The description of the chosen group, in `generate_report`. */
  method AppendGroup(report: seq<string>, rule: Group) returns (r: seq<string>)
    ensures r == WithGroup(report, rule)
  {
    r := report;
    var allowed := if rule.allow != [] then rule.allow else [NoneSpecified];
    var disallowed := if rule.disallow != [] then rule.disallow else [NoneSpecified];
    r := r + ["Allowed paths:"];
    r := AppendBullets(r, "  - ", allowed);
    r := r + ["Disallowed paths:"];
    r := AppendBullets(r, "  - ", disallowed);
    r := AppendLimits(r, rule);
    r := r + [""];
  }

  /** The crawl delay, request rate and Clean-param lines of the chosen group. */
  method AppendLimits(report: seq<string>, rule: Group) returns (r: seq<string>)
    ensures r == WithLimits(report, rule)
  {
    var crawlDelay := rule.crawlDelay;
    var requestRate := rule.requestRate;
    r := report;
    if Truthy(crawlDelay) {
      r := r + ["Crawl-delay: " + crawlDelay.value + " seconds (wait this long between requests)"];
    }
    if Truthy(requestRate) {
      r := r + ["Request-rate: " + requestRate.value];
    }
    r := AppendBullets(r, "Clean-param: ", rule.cleanParam);
  }

  /** The scraping tips, in `generate_report`. */
  method AppendTips(report: seq<string>, rule: Group, p: Parsed) returns (r: seq<string>)
    ensures r == WithTips(report, rule, p)
  {
    var allowed := if rule.allow != [] then rule.allow else [NoneSpecified];
    var disallowed := if rule.disallow != [] then rule.disallow else [NoneSpecified];
    var crawlDelay := rule.crawlDelay;
    r := report + [TipsTitle];
    if Truthy(crawlDelay) {
      r := r + [DelayTip(crawlDelay.value)];
    } else {
      r := r + [NoDelayTip];
    }
    if disallowed != [NoneSpecified] {
      r := r + [DisallowTip];
    } else {
      r := r + [NoDisallowTip];
    }
    assert r == WithDisallowTip(WithDelayTip(report + [TipsTitle], rule), rule);
    ghost var r0 := r;
    if allowed != [NoneSpecified] {
      r := r + [FocusTip];
    }
    assert r == r0 + When(allowed != [NoneSpecified], FocusTip);
    ghost var r1 := r;
    if p.nonstandard != [] {
      r := r + [NonstandardTip];
    }
    assert r == r1 + When(p.nonstandard != [], NonstandardTip);
    ghost var r2 := r;
    if p.sitemaps != [] {
      r := r + [SitemapTip];
    }
    assert r == r2 + When(p.sitemaps != [], SitemapTip);
    r := r + [IdentifyTip];
    r := r + [""];
  }

  /** A path list extends the report before it with a bullet per path. */
  lemma PathListed(report: seq<string>, heading: string, paths: seq<string>, i: nat)
    requires i < |paths|
    ensures report <= WithPaths(report, heading, paths)
    ensures "  - " + paths[i] in WithPaths(report, heading, paths)
  {
    assert WithPaths(report, heading, paths)[|report| + 1 + i] == Bulleted("  - ", paths)[i];
  }

  /** Every stage of the report only appends lines: the opening lines and the description
      of the chosen group are prefixes of the whole report. */
  lemma ReportExtendsGroup(p: Parsed)
    requires p.rules != []
    ensures var g := ChosenGroup(p.rules);
      var allowed := WithPaths(Head(RecommendedAgent(p.rules)), "Allowed paths:", OrNone(g.allow));
      var both := WithPaths(allowed, "Disallowed paths:", OrNone(g.disallow));
      Head(RecommendedAgent(p.rules)) <= allowed <= both <= ReportLines(p)
  {
    var g := ChosenGroup(p.rules);
    var head := Head(RecommendedAgent(p.rules));
    var allowed := WithPaths(head, "Allowed paths:", OrNone(g.allow));
    var both := WithPaths(allowed, "Disallowed paths:", OrNone(g.disallow));
    PathListed(head, "Allowed paths:", OrNone(g.allow), 0);
    PathListed(allowed, "Disallowed paths:", OrNone(g.disallow), 0);
    var group := WithGroup(head, g);
    assert WithLimits(both, g) <= group;
    PrefixTrans(both, WithLimits(both, g), group);
    var globals := Globals(group, p);
    GlobalsExtend(group, p);
    TipsExtend(globals, g, p);
    PrefixTrans(both, group, globals);
    PrefixTrans(both, globals, ReportLines(p));
  }

  /** The four global blocks only append to the report. */
  lemma GlobalsExtend(report: seq<string>, p: Parsed)
    ensures report <= Globals(report, p)
  {
    var l1 := WithListing(report, "Sitemaps:", "  - ", p.sitemaps);
    var l2 := WithListing(l1, "Host directives:", "  - ", p.hosts);
    var l3 := WithListing(l2, "Non-standard directives:", "  ", p.nonstandard);
    assert report <= l1 <= l2;
    PrefixTrans(report, l1, l2);
    assert l2 <= l3 <= Globals(report, p);
    PrefixTrans(l2, l3, Globals(report, p));
    PrefixTrans(report, l2, Globals(report, p));
  }

  /** The tips only append to the report. */
  lemma TipsExtend(report: seq<string>, g: Group, p: Parsed)
    ensures report <= WithTips(report, g, p)
  {
    var a := WithDisallowTip(WithDelayTip(report + [TipsTitle], g), g);
    assert report <= a;
    var b := a + When(OrNone(g.allow) != [NoneSpecified], FocusTip)
               + When(p.nonstandard != [], NonstandardTip);
    assert a <= b;
    PrefixTrans(report, a, b);
    var c := b + When(p.sitemaps != [], SitemapTip) + [IdentifyTip] + [""];
    assert b <= c;
    PrefixTrans(report, b, c);
  }

  lemma PrefixTrans<T>(a: seq<T>, b: seq<T>, c: seq<T>)
    requires a <= b <= c
    ensures a <= c
  {
    assert c[..|a|] == b[..|a|];
  }

  /** A line of a prefix is a line of the whole. */
  lemma InPrefix(x: string, part: seq<string>, whole: seq<string>)
    requires x in part && part <= whole
    ensures x in whole
  {
    var i :| 0 <= i < |part| && part[i] == x;
    assert whole[i] == x;
  }

  /** The fixed message appears exactly when there are no groups: any other report opens
      with its title. */
  lemma NoRulesMessage(p: Parsed)
    ensures Report(p) == NoRules <==> p.rules == []
  {
    if p.rules != [] {
      var lines := ReportLines(p);
      ReportExtendsGroup(p);
      assert lines[0] == Title;
      JoinStartsWith("\n", lines);
      assert Report(p)[0] == Title[0] == '#';
    }
  }

  /** The report names the recommended agent and describes the first group for `*` if
      there is one, else the first group; it lists each of that group's allowed and
      disallowed paths, or says there are none. */
  lemma ReportDescribesChosenGroup(p: Parsed)
    requires p.rules != []
    ensures var g := ChosenGroup(p.rules);
      && ReportLines(p)[1] == "Recommended User-agent for scraping: '" + g.agent + "'\n"
      && (forall x :: x in g.allow ==> "  - " + x in ReportLines(p))
      && (forall x :: x in g.disallow ==> "  - " + x in ReportLines(p))
      && (g.allow == [] || g.disallow == [] ==> "  - " + NoneSpecified in ReportLines(p))
  {
    var g := ChosenGroup(p.rules);
    var head := Head(RecommendedAgent(p.rules));
    var allowed := WithPaths(head, "Allowed paths:", OrNone(g.allow));
    var both := WithPaths(allowed, "Disallowed paths:", OrNone(g.disallow));
    ReportExtendsGroup(p);
    assert ReportLines(p)[1] == head[1];
    forall x | x in g.allow ensures "  - " + x in ReportLines(p) {
      var i :| 0 <= i < |g.allow| && g.allow[i] == x;
      PathListed(head, "Allowed paths:", OrNone(g.allow), i);
      InPrefix("  - " + x, allowed, ReportLines(p));
    }
    forall x | x in g.disallow ensures "  - " + x in ReportLines(p) {
      var i :| 0 <= i < |g.disallow| && g.disallow[i] == x;
      PathListed(allowed, "Disallowed paths:", OrNone(g.disallow), i);
      InPrefix("  - " + x, both, ReportLines(p));
    }
    if g.allow == [] {
      PathListed(head, "Allowed paths:", OrNone(g.allow), 0);
      InPrefix("  - " + NoneSpecified, allowed, ReportLines(p));
    } else if g.disallow == [] {
      PathListed(allowed, "Disallowed paths:", OrNone(g.disallow), 0);
      InPrefix("  - " + NoneSpecified, both, ReportLines(p));
    }
  }

  /** Strings that differ at some position differ. */
  lemma DifferAt(s: string, t: string, i: nat)
    requires i < |s| && i < |t| && s[i] != t[i]
    ensures s != t
  {
  }

  /** The lines the tips can hold are pairwise distinct, so each tip's presence tells
      which branch was taken. */
  lemma TipsDiffer(delay: string)
    ensures NonstandardTip != NoDelayTip && NonstandardTip != NoDisallowTip
    ensures NonstandardTip != DelayTip(delay)
    ensures FocusTip != DelayTip(delay) && SitemapTip != DelayTip(delay)
    ensures DisallowTip != DelayTip(delay) && NoDisallowTip != DelayTip(delay)
    ensures NoDelayTip != DelayTip(delay)
  {
    DifferAt(NonstandardTip, NoDelayTip, 4);
    DifferAt(NonstandardTip, NoDisallowTip, 4);
    var d := DelayTip(delay);
    DifferAt(NonstandardTip, d, 2);
    DifferAt(FocusTip, d, 2);
    DifferAt(SitemapTip, d, 2);
    DifferAt(DisallowTip, d, 2);
    DifferAt(NoDisallowTip, d, 2);
    DifferAt(NoDelayTip, d, 2);
  }

  /** The crawl-delay tip quotes the group's crawl delay when it has one, and gives the
      default advice exactly when it has none. */
  lemma DelayTipFollowsTheGroup(g: Group, p: Parsed)
    ensures Truthy(g.crawlDelay) ==> DelayTip(g.crawlDelay.value) in WithTips([], g, p)
    ensures !Truthy(g.crawlDelay) <==> NoDelayTip in WithTips([], g, p)
  {
    TipsDiffer(g.crawlDelay.GetOr(""));
  }

  /** The "do not scrape" and "focus" tips appear exactly when the group lists real
      disallowed or allowed paths. */
  lemma PathTipsFollowTheGroup(g: Group, p: Parsed)
    ensures DisallowTip in WithTips([], g, p) <==> g.disallow != [] && g.disallow != [NoneSpecified]
    ensures NoDisallowTip in WithTips([], g, p) <==> !(g.disallow != [] && g.disallow != [NoneSpecified])
    ensures FocusTip in WithTips([], g, p) <==> g.allow != [] && g.allow != [NoneSpecified]
  {
    TipsDiffer(g.crawlDelay.GetOr(""));
  }

  /** The tips about the whole file: the non-standard and sitemap tips appear exactly
      when the file has such lines. */
  lemma TipsFollowTheFile(g: Group, p: Parsed)
    ensures var tips := WithTips([], g, p);
      && (NonstandardTip in tips <==> p.nonstandard != [])
      && (SitemapTip in tips <==> p.sitemaps != [])
  {
    TipsDiffer(g.crawlDelay.GetOr(""));
  }

  /** The tips only depend on the group and the file, not on the lines before them. */
  lemma TipsAppend(report: seq<string>, g: Group, p: Parsed)
    ensures WithTips(report, g, p) == report + WithTips([], g, p)
  {
    var f := When(OrNone(g.allow) != [NoneSpecified], FocusTip);
    var n := When(p.nonstandard != [], NonstandardTip);
    var m := When(p.sitemaps != [], SitemapTip);
    var t0 := WithDisallowTip(WithDelayTip([] + [TipsTitle], g), g);
    assert WithDisallowTip(WithDelayTip(report + [TipsTitle], g), g) == report + t0;
    var t1, t2, t3, t4 := t0 + f, t0 + f + n, t0 + f + n + m, t0 + f + n + m + [IdentifyTip];
    assert report + t0 + f == report + t1;
    assert report + t1 + n == report + t2;
    assert report + t2 + m == report + t3;
    assert report + t3 + [IdentifyTip] == report + t4;
    assert report + t4 + [""] == report + (t4 + [""]);
  }

  /** The report of a file with groups ends with the tips for the chosen group, so the
      three lemmas above describe the last lines of every such report. */
  lemma ReportEndsWithTips(p: Parsed)
    requires p.rules != []
    ensures var tips := WithTips([], ChosenGroup(p.rules), p);
      |tips| <= |ReportLines(p)| && ReportLines(p)[|ReportLines(p)| - |tips|..] == tips
  {
    var g := ChosenGroup(p.rules);
    var before := Globals(WithGroup(Head(RecommendedAgent(p.rules)), g), p);
    TipsAppend(before, g, p);
    assert ReportLines(p) == before + WithTips([], g, p);
  }
}
