/** The tag, class and id tallies of the suggestion report, and the file name a scraped
    page's results are saved under. */
module PageCounts {
  import opened Markup
  import opened Counting
  import opened Strings
  import opened Opt

  /** Every element's tag name, in document order. */
  function TagNames(document: seq<Element>): (names: seq<string>)
    ensures |names| == |Preorder(document)|
  {
    MapSeq((e: Element) => e.name, Preorder(document))
  }

  function ClassesOf(e: Element): seq<string> {
    e.classes
  }

  /** Every class token of every element, in document order. */
  function ClassTokens(elements: seq<Element>): seq<string> {
    FlatMap(ClassesOf, elements)
  }

  /** The id of an element that carries an id attribute, empty or not. */
  function IdOf(e: Element): seq<string> {
    if e.id.Some? then [e.id.value] else []
  }

  /** Every id value, in document order. */
  function IdValues(elements: seq<Element>): seq<string> {
    FlatMap(IdOf, elements)
  }

  /** `get_tag_counts`: how many elements have each tag name; `keys` is the dictionary's order. */
  method TagCounts(document: seq<Element>) returns (keys: seq<string>, counts: map<string, int>)
    ensures keys == Distinct(TagNames(document))
    ensures counts == Counter(TagNames(document))
  {
    var elements := Preorder(document);
    ghost var names := TagNames(document);
    ghost var seen: seq<string> := [];
    keys, counts := [], map[];
    for i := 0 to |elements|
      invariant seen == names[..i]
      invariant keys == Distinct(seen)
      invariant counts == Counter(seen)
    {
      var tag := elements[i];
      MapSeqAt((e: Element) => e.name, elements, i);
      CounterStep(seen, tag.name);
      if tag.name !in counts {
        keys := keys + [tag.name];
      }
      counts := Add(counts, tag.name, 1);
      seen := seen + [tag.name];
      assert seen == names[..i + 1];
    }
    TakeAll(names);
  }

  /** `get_class_counts`: how many times each class token occurs over all elements. */
  method ClassCounts(document: seq<Element>) returns (keys: seq<string>, counts: map<string, int>)
    ensures keys == Distinct(ClassTokens(Preorder(document)))
    ensures counts == Counter(ClassTokens(Preorder(document)))
  {
    var elements := Preorder(document);
    ghost var seen: seq<string> := [];
    keys, counts := [], map[];
    for i := 0 to |elements|
      invariant seen == ClassTokens(elements[..i])
      invariant keys == Distinct(seen)
      invariant counts == Counter(seen)
    {
      var tag := elements[i];
      TakeSnoc(elements, i);
      FlatMapAppend(ClassesOf, elements[..i], tag);
      keys, counts := CountEach(tag.classes, keys, counts, seen);
      seen := seen + tag.classes;
    }
    TakeAll(elements);
  }

  /** `get_id_counts`: how many elements carry each id.  `find_all(id=True)` matches an
      id attribute that is present, even an empty one. */
  method IdCounts(document: seq<Element>) returns (keys: seq<string>, counts: map<string, int>)
    ensures keys == Distinct(IdValues(Preorder(document)))
    ensures counts == Counter(IdValues(Preorder(document)))
  {
    var elements := Preorder(document);
    ghost var seen: seq<string> := [];
    keys, counts := [], map[];
    for i := 0 to |elements|
      invariant seen == IdValues(elements[..i])
      invariant keys == Distinct(seen)
      invariant counts == Counter(seen)
    {
      var tag := elements[i];
      TakeSnoc(elements, i);
      FlatMapAppend(IdOf, elements[..i], tag);
      if tag.id.Some? {
        var id := tag.id.value;
        CounterStep(seen, id);
        if id !in counts {
          keys := keys + [id];
        }
        counts := Add(counts, id, 1);
        seen := seen + [id];
      }
    }
    TakeAll(elements);
  }

  /** Every tag name met is a key, holding how many elements have that name, and the
      counts add up to the number of elements. */
  lemma TagCountsMeaning(document: seq<Element>)
    ensures forall t :: t in Counter(TagNames(document)) <==> exists e :: e in Preorder(document) && e.name == t
    ensures forall t :: t in Counter(TagNames(document)) ==>
      Counter(TagNames(document))[t] == Occurrences(TagNames(document), t)
    ensures SumValues(Distinct(TagNames(document)), Counter(TagNames(document))) == |Preorder(document)|
  {
    var names := TagNames(document);
    CounterIsOccurrences(names);
    CounterAddsUp(names);
    forall t ensures t in names <==> exists e :: e in Preorder(document) && e.name == t {
      MapSeqMember((e: Element) => e.name, Preorder(document), t);
    }
  }

  /** A class token is a key exactly when some element carries it. */
  lemma ClassCountsMeaning(document: seq<Element>)
    ensures forall c :: c in Counter(ClassTokens(Preorder(document))) <==>
      exists e :: e in Preorder(document) && c in e.classes
  {
    var tokens := ClassTokens(Preorder(document));
    CounterIsOccurrences(tokens);
    forall c ensures c in tokens <==> exists e :: e in Preorder(document) && c in e.classes {
      FlatMapMember(ClassesOf, Preorder(document), c);
    }
  }

  /** An id is a key exactly when some element carries the id attribute with that value;
      an empty id attribute is counted under the empty key. */
  lemma IdCountsMeaning(document: seq<Element>)
    ensures forall v :: v in Counter(IdValues(Preorder(document))) <==>
      exists e :: e in Preorder(document) && e.id == Some(v)
  {
    var ids := IdValues(Preorder(document));
    CounterIsOccurrences(ids);
    forall v ensures v in ids <==> exists e :: e in Preorder(document) && e.id == Some(v) {
      FlatMapMember(IdOf, Preorder(document), v);
    }
  }

  /** `url_to_filename`, given the URL's network location and path: slashes and dots
      become underscores and `.json` is appended. */
  function UrlToFilename(netloc: string, path: string): string {
    var base := ReplaceAll(ReplaceAll(netloc + path, "/", "_"), ".", "_");
    if EndsWith(base, ".json") then base else base + ".json"
  }

  /** Every dot is replaced before the `.json` test, so the test never succeeds and the
      suffix is always appended: the name is the location and path with each `/` and `.`
      turned into `_`, then `.json`. */
  lemma UrlToFilenameShape(netloc: string, path: string)
    ensures var u := netloc + path;
      var name := UrlToFilename(netloc, path);
      |name| == |u| + 5 && name[|u|..] == ".json" &&
      forall i :: 0 <= i < |u| ==> name[i] == (if u[i] == '/' || u[i] == '.' then '_' else u[i])
  {
    var u := netloc + path;
    var once := ReplaceAll(u, "/", "_");
    var base := ReplaceAll(once, ".", "_");
    ReplaceCharAt(u, '/', '_');
    ReplaceCharAt(once, '.', '_');
    assert !EndsWith(base, ".json") by {
      if |base| >= 5 {
        assert base[|base| - 5..][0] == base[|base| - 5] != '.';
      }
    }
    assert UrlToFilename(netloc, path) == base + ".json";
  }
}
