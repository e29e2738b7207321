/** Selector paths: the ancestor-chain strings `ul.nav > li.item > a` that key the
    suggestion counters, and the token splitter that reads tag names back out of them. */
module Selectors {
  import opened Strings
  import opened Markup

  /** One step of a path: the tag name, then `.` and the dot-joined classes if there
      are any, then `#id` if the id is non-empty. */
  function Descriptor(e: Element): string {
    e.name
    + (if |e.classes| > 0 then "." + Join(".", e.classes) else "")
    + (if HasId(e) then "#" + e.id.value else "")
  }

  /** How many descriptors the climb emits: it stops at the document root or once
      `max_depth` steps are taken; a `max_depth` of zero or less emits none. */
  function PathLength(chainLength: nat, maxDepth: int): nat {
    if maxDepth <= 0 then 0 else if maxDepth < chainLength then maxDepth else chainLength
  }

  /** The path of the node heading `chain`: its `PathLength` nearest chain elements,
      outermost first, joined by `" > "`. */
  function PathOf(chain: seq<Element>, maxDepth: int): string {
    Join(" > ", Descriptors(chain, PathLength(|chain|, maxDepth)))
  }

  /** The descriptors of the `n` nearest chain elements, outermost first. */
  function Descriptors(chain: seq<Element>, n: nat): (ds: seq<string>)
    requires n <= |chain|
    ensures |ds| == n
    ensures forall j :: 0 <= j < n ==> ds[j] == Descriptor(chain[n - 1 - j])
  {
    seq(n, j requires 0 <= j < n => Descriptor(chain[n - 1 - j]))
  }

  /** `get_selector_path`: climb from the node towards the root, collecting descriptors,
      then reverse and join them. */
  method SelectorPath(chain: seq<Element>, maxDepth: int) returns (p: string)
    ensures p == PathOf(chain, maxDepth)
  {
    var path: seq<string> := [];
    var depth := 0;
    while depth < |chain| && depth < maxDepth
      invariant depth <= |chain|
      invariant depth == 0 || depth <= maxDepth
      invariant |path| == depth
      invariant forall j :: 0 <= j < depth ==> path[j] == Descriptor(chain[j])
    {
      path := path + [Descriptor(chain[depth])];
      depth := depth + 1;
    }
    var n := PathLength(|chain|, maxDepth);
    assert depth == n;
    var ds := Descriptors(chain, n);
    assert Reverse(path) == ds;
    p := Join(" > ", Reverse(path));
  }

  /** `token.split('#', 1)[0].split('.', 1)[0]`: the bare tag of one stripped path step. */
  function BareTag(token: string): string {
    BeforeChar(BeforeChar(token, '#'), '.')
  }

  /** The token one `>`-separated part contributes: none if it is blank. */
  function PartToken(part: string): seq<string> {
    var token := Strip(part);
    if |token| == 0 then [] else [BareTag(token)]
  }

  /** What `split_selector_tokens` returns. */
  function SelectorTokens(selector: string): seq<string> {
    FlatMap(PartToken, Split(selector, ">"))
  }

  /** `split_selector_tokens`: split at `>`, skip blank parts, keep each part's bare tag. */
  method SplitSelectorTokens(selector: string) returns (tokens: seq<string>)
    ensures tokens == SelectorTokens(selector)
  {
    var parts := Split(selector, ">");
    tokens := [];
    for i := 0 to |parts|
      invariant tokens == FlatMap(PartToken, parts[..i])
    {
      FlatMapPrefix(PartToken, parts, i);
      var token := TokenOfPart(parts[i]);
      tokens := tokens + token;
    }
    TakeAll(parts);
  }

  /** The body of the splitter's loop for one part: nothing for a blank part (`continue`),
      otherwise the part's bare tag. */
  method TokenOfPart(part: string) returns (token: seq<string>)
    ensures token == PartToken(part)
  {
    var t := Strip(part);
    if |t| == 0 {
      return [];
    }
    t := BeforeChar(t, '#');
    t := BeforeChar(t, '.');
    token := [t];
  }

  predicate IsListTag(t: string) {
    t == "li" || t == "ul" || t == "ol"
  }

  /** Some token other than the last names a list element. */
  predicate ListTokenBeforeLast(tokens: seq<string>) {
    exists i :: 0 <= i < |tokens| - 1 && IsListTag(tokens[i])
  }

  /** `selector_has_list_ancestor`. */
  predicate SelectorHasListAncestor(selector: string) {
    ListTokenBeforeLast(SelectorTokens(selector))
  }

  // ---------------------------------------------------------------------------
  // Reading tag names back out of a path

  /** A tag name that survives the token splitter: non-empty, no `>`, `.`, `#` or whitespace. */
  predicate PlainName(n: string) {
    n != [] && forall i :: 0 <= i < |n| ==> n[i] != '>' && n[i] != '.' && n[i] != '#' && !IsSpace(n[i])
  }

  /** An element whose descriptor the splitter can read: a plain name and no `>` in classes or id. */
  predicate Readable(e: Element) {
    && PlainName(e.name)
    && (forall k :: 0 <= k < |e.classes| ==> '>' !in e.classes[k])
    && (e.id.Some? ==> '>' !in e.id.value)
  }

  /** The tag names of the path's elements, outermost first. */
  function PathNames(chain: seq<Element>, maxDepth: int): seq<string> {
    var n := PathLength(|chain|, maxDepth);
    seq(n, j requires 0 <= j < n => chain[n - 1 - j].name)
  }

  /** `d` is the name `n` followed by nothing, a class part or an id part. */
  predicate Describes(d: string, n: string) {
    PlainName(n) && StartsWith(d, n) && (|d| == |n| || d[|n|] == '.' || d[|n|] == '#')
  }

  lemma {:induction false} JoinAvoids(sep: string, parts: seq<string>, c: char)
    requires c !in sep
    requires forall k :: 0 <= k < |parts| ==> c !in parts[k]
    ensures c !in Join(sep, parts)
  {
    if |parts| > 1 {
      JoinAvoids(sep, parts[1..], c);
    }
  }

  lemma DescriptorReadable(e: Element)
    requires Readable(e)
    ensures Describes(Descriptor(e), e.name)
    ensures '>' !in Descriptor(e)
  {
    assert '>' !in e.name by {
      forall i | 0 <= i < |e.name| ensures e.name[i] != '>' { }
    }
    if |e.classes| > 0 {
      JoinAvoids(".", e.classes, '>');
    }
    var d := Descriptor(e);
    assert d[..|e.name|] == e.name;
  }

  /** Stripping a padded descriptor leaves a string that still describes the name. */
  lemma StripPadded(p: string, d: string, q: string, n: string)
    requires IsBlank(p) && IsBlank(q)
    requires Describes(d, n)
    ensures Strip(p + d + q) == RStrip(d)
    ensures Describes(RStrip(d), n)
  {
    assert p + d + q == p + (d + q);
    LStripBlankPrefix(p, d + q);
    assert LStrip(d + q) == d + q by {
      assert (d + q)[0] == n[0];
      assert !IsSpace(n[0]);
    }
    RStripBlankSuffix(d, q);
    var r := RStrip(d);
    assert d[|n| - 1] == n[|n| - 1];
    assert !IsSpace(n[|n| - 1]);
    assert |r| >= |n|;
    assert r[..|n|] == d[..|n|];
  }

  lemma BareTagOfDescribed(r: string, n: string)
    requires Describes(r, n)
    ensures BareTag(r) == n
  {
    var t := BeforeChar(r, '#');
    assert |t| >= |n| by {
      forall i | 0 <= i < |n| ensures r[i] != '#' { }
    }
    assert t[..|n|] == n;
    assert |t| > |n| ==> t[|n|] == '.';
    var u := BeforeChar(t, '.');
    assert |u| >= |n| by {
      forall i | 0 <= i < |n| ensures t[i] != '.' { assert t[i] == n[i]; }
    }
    assert u == n;
  }

  /** The bare tag of a padded descriptor is its name. */
  lemma TokenOfDescriptor(p: string, d: string, q: string, n: string)
    requires IsBlank(p) && IsBlank(q)
    requires Describes(d, n)
    ensures PartToken(p + d + q) == [n]
  {
    StripPadded(p, d, q, n);
    BareTagOfDescribed(RStrip(d), n);
  }

  lemma JoinStep(p: string, ds: seq<string>)
    requires |ds| > 1
    ensures p + Join(" > ", ds) == (p + ds[0] + " ") + ['>'] + (" " + Join(" > ", ds[1..]))
  {
    var rest := Join(" > ", ds[1..]);
    assert Join(" > ", ds) == ds[0] + " > " + rest;
    assert " > " == " " + ['>'] + " ";
  }

  lemma {:induction false} FlatMapCons<T, U>(f: T -> seq<U>, x: T, s: seq<T>)
    ensures FlatMap(f, [x] + s) == f(x) + FlatMap(f, s)
  {
    assert ([x] + s)[1..] == s;
  }

  lemma TokensOfBlank(p: string)
    requires p == "" || p == " "
    ensures FlatMap(PartToken, Split(p, ">")) == []
  {
    SplitNone(p, '>');
    assert PartToken(p) == [];
    FlatMapCons(PartToken, p, []);
  }

  lemma TokensOfLast(p: string, d: string, n: string)
    requires p == "" || p == " "
    requires '>' !in d && Describes(d, n)
    ensures FlatMap(PartToken, Split(p + d, ">")) == [n]
  {
    assert '>' !in p + d;
    SplitNone(p + d, '>');
    TokenOfDescriptor(p, d, "", n);
    assert p + d + "" == p + d;
    FlatMapCons(PartToken, p + d, []);
  }

  lemma TokensOfStep(p: string, d: string, n: string, rest: string)
    requires p == "" || p == " "
    requires '>' !in d && Describes(d, n)
    ensures FlatMap(PartToken, Split(p + d + " " + ['>'] + (" " + rest), ">"))
         == [n] + FlatMap(PartToken, Split(" " + rest, ">"))
  {
    var head := p + d + " ";
    assert '>' !in head;
    SplitCons(head, '>', " " + rest);
    TokenOfDescriptor(p, d, " ", n);
    FlatMapCons(PartToken, head, Split(" " + rest, ">"));
  }

  lemma {:induction false} TokensOfJoin(p: string, ds: seq<string>, names: seq<string>)
    requires p == "" || p == " "
    requires |ds| == |names|
    requires forall j :: 0 <= j < |ds| ==> '>' !in ds[j] && Describes(ds[j], names[j])
    ensures FlatMap(PartToken, Split(p + Join(" > ", ds), ">")) == names
    decreases |ds|
  {
    if |ds| == 0 {
      assert p + Join(" > ", ds) == p;
      TokensOfBlank(p);
    } else if |ds| == 1 {
      assert p + Join(" > ", ds) == p + ds[0];
      TokensOfLast(p, ds[0], names[0]);
    } else {
      var rest := Join(" > ", ds[1..]);
      JoinStep(p, ds);
      TokensOfStep(p, ds[0], names[0], rest);
      TokensOfJoin(" ", ds[1..], names[1..]);
      assert names == [names[0]] + names[1..];
    }
  }

  /** Round trip: the token splitter reads back the tag names the path builder wrote. */
  lemma TokensOfPath(chain: seq<Element>, maxDepth: int)
    requires forall e :: e in chain ==> Readable(e)
    ensures SelectorTokens(PathOf(chain, maxDepth)) == PathNames(chain, maxDepth)
  {
    var n := PathLength(|chain|, maxDepth);
    var ds := Descriptors(chain, n);
    var names := PathNames(chain, maxDepth);
    assert |ds| == n && |names| == n;
    forall j | 0 <= j < n ensures '>' !in ds[j] && Describes(ds[j], names[j]) {
      var e := chain[n - 1 - j];
      assert e in chain;
      assert ds[j] == Descriptor(e) && names[j] == e.name;
      DescriptorReadable(e);
    }
    TokensOfJoin("", ds, names);
    assert "" + Join(" > ", ds) == PathOf(chain, maxDepth);
  }

  /** The list test on the read-back names looks at the ancestors inside the window. */
  lemma ListTokenOfNames(chain: seq<Element>, maxDepth: int)
    ensures ListTokenBeforeLast(PathNames(chain, maxDepth))
        <==> exists j :: 1 <= j < PathLength(|chain|, maxDepth) && IsListTag(chain[j].name)
  {
    var n := PathLength(|chain|, maxDepth);
    var tokens := PathNames(chain, maxDepth);
    if exists i :: 0 <= i < |tokens| - 1 && IsListTag(tokens[i]) {
      var i :| 0 <= i < |tokens| - 1 && IsListTag(tokens[i]);
      assert IsListTag(chain[n - 1 - i].name);
    }
    if exists j :: 1 <= j < n && IsListTag(chain[j].name) {
      var j :| 1 <= j < n && IsListTag(chain[j].name);
      assert tokens[n - 1 - j] == chain[j].name;
    }
  }

  /** The list test on a path string holds exactly when one of the node's ancestors
      inside the depth window is an `li`, `ul` or `ol`. */
  lemma ListAncestorOfPath(chain: seq<Element>, maxDepth: int)
    requires forall e :: e in chain ==> Readable(e)
    ensures SelectorHasListAncestor(PathOf(chain, maxDepth))
        <==> exists j :: 1 <= j < PathLength(|chain|, maxDepth) && IsListTag(chain[j].name)
  {
    TokensOfPath(chain, maxDepth);
    ListTokenOfNames(chain, maxDepth);
  }

  /** `max_depth <= 0` is not rejected: the path is the empty string. */
  lemma NonPositiveDepthGivesEmptyPath(chain: seq<Element>, maxDepth: int)
    requires maxDepth <= 0
    ensures PathOf(chain, maxDepth) == ""
  {
  }
}
