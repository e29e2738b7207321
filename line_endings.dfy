/** The line-ending normalisation of the two executioner scripts: every `\r\n` and every
    lone `\r` becomes `\n`.  `executioner_tool.py` applies it to the bytes of each tool
    script; `executioner.py` applies it to the text `read_text` returns, which has already been
    normalised by the read, so its comparison never finds a change. */
module LineEndings {
  import opened Strings

  newtype byte = x: int | 0 <= x < 256

  const CR: byte := 13
  const LF: byte := 10

  // ---------------------------------------------------------------------------
  // The reference definition, over any alphabet

  /** One left-to-right pass: a carriage return followed by a line feed becomes one line
      feed, a lone carriage return becomes a line feed, and everything else is copied. */
  function Unix<T(==)>(s: seq<T>, cr: T, lf: T): (r: seq<T>)
    decreases |s|
  {
    if |s| == 0 then []
    else if s[0] == cr && |s| > 1 && s[1] == lf then [lf] + Unix(s[2..], cr, lf)
    else if s[0] == cr then [lf] + Unix(s[1..], cr, lf)
    else [s[0]] + Unix(s[1..], cr, lf)
  }

  /** `content.replace(CRLF, LF).replace(CR, LF)`: the chain of two `replace` calls. */
  function ReplaceChain<T(==)>(s: seq<T>, cr: T, lf: T): seq<T> {
    ReplaceAll(ReplaceAll(s, [cr, lf], [lf]), [cr], [lf])
  }

  /** Replacing one element by another distributes over concatenation. */
  lemma ReplaceCharConcat<T>(a: seq<T>, b: seq<T>, x: T, y: T)
    ensures ReplaceAll(a + b, [x], [y]) == ReplaceAll(a, [x], [y]) + ReplaceAll(b, [x], [y])
  {
    ReplaceCharAt(a + b, x, y);
    ReplaceCharAt(a, x, y);
    ReplaceCharAt(b, x, y);
  }

  /** The two `replace` calls compute the one-pass definition. */
  lemma {:induction false} ReplaceChainIsUnix<T>(s: seq<T>, cr: T, lf: T)
    requires cr != lf
    ensures ReplaceChain(s, cr, lf) == Unix(s, cr, lf)
    decreases |s|
  {
    if |s| > 0 {
      var pair := [cr, lf];
      if s[0] == cr && |s| > 1 && s[1] == lf {
        assert s[..2] == pair;
        assert ReplaceAll(s, pair, [lf]) == [lf] + ReplaceAll(s[2..], pair, [lf]);
        ReplaceCharConcat([lf], ReplaceAll(s[2..], pair, [lf]), cr, lf);
        ReplaceChainIsUnix(s[2..], cr, lf);
      } else {
        assert ReplaceAll(s, pair, [lf]) == [s[0]] + ReplaceAll(s[1..], pair, [lf]) by {
          if |s| >= 2 {
            assert s[..2] != pair by {
              assert s[..2][0] == s[0] && s[..2][1] == s[1];
            }
          } else {
            assert s == [s[0]];
          }
        }
        ReplaceCharConcat([s[0]], ReplaceAll(s[1..], pair, [lf]), cr, lf);
        ReplaceCharAt([s[0]], cr, lf);
        ReplaceChainIsUnix(s[1..], cr, lf);
      }
    }
  }

  /** No carriage return survives, and the text never gets longer. */
  lemma {:induction false} UnixHasNoCR<T>(s: seq<T>, cr: T, lf: T)
    requires cr != lf
    ensures cr !in Unix(s, cr, lf)
    ensures |Unix(s, cr, lf)| <= |s|
    decreases |s|
  {
    if |s| > 1 && s[0] == cr && s[1] == lf {
      UnixHasNoCR(s[2..], cr, lf);
    } else if |s| > 0 {
      UnixHasNoCR(s[1..], cr, lf);
    }
  }

  /** A text without carriage returns is left as it is. */
  lemma {:induction false} UnixWithoutCR<T>(s: seq<T>, cr: T, lf: T)
    requires cr !in s
    ensures Unix(s, cr, lf) == s
    decreases |s|
  {
    if |s| > 0 {
      assert s[0] != cr;
      UnixWithoutCR(s[1..], cr, lf);
      assert s == [s[0]] + s[1..];
    }
  }

  /** Normalising twice is normalising once. */
  lemma UnixIdempotent<T>(s: seq<T>, cr: T, lf: T)
    requires cr != lf
    ensures Unix(Unix(s, cr, lf), cr, lf) == Unix(s, cr, lf)
  {
    UnixHasNoCR(s, cr, lf);
    UnixWithoutCR(Unix(s, cr, lf), cr, lf);
  }

  /** Normalisation works line break by line break: the text before a `\r\n` is copied
      and the pair yields exactly one `\n`. */
  lemma CRLFBecomesOneLF<T>(a: seq<T>, b: seq<T>, cr: T, lf: T)
    requires cr !in a
    ensures Unix(a + [cr, lf] + b, cr, lf) == a + [lf] + Unix(b, cr, lf)
  {
    var t := [cr, lf] + b;
    assert a + [cr, lf] + b == a + t;
    UnixPrefix(a, t, cr, lf);
    assert t[0] == cr && t[1] == lf && t[2..] == b;
  }

  /** A lone `\r` (one not followed by `\n`) yields one `\n`. */
  lemma LoneCRBecomesLF<T>(a: seq<T>, b: seq<T>, cr: T, lf: T)
    requires cr !in a
    requires |b| == 0 || b[0] != lf
    ensures Unix(a + [cr] + b, cr, lf) == a + [lf] + Unix(b, cr, lf)
  {
    var t := [cr] + b;
    assert a + [cr] + b == a + t;
    UnixPrefix(a, t, cr, lf);
    assert t[0] == cr && t[1..] == b;
    assert !(|t| > 1 && t[1] == lf) by {
      if |t| > 1 { assert t[1] == b[0]; }
    }
    assert Unix(t, cr, lf) == [lf] + Unix(b, cr, lf);
  }

  /** A prefix without carriage returns is copied unchanged. */
  lemma {:induction false} UnixPrefix<T>(a: seq<T>, b: seq<T>, cr: T, lf: T)
    requires cr !in a
    ensures Unix(a + b, cr, lf) == a + Unix(b, cr, lf)
    decreases |a|
  {
    if |a| > 0 {
      assert a[0] in a;
      assert (a + b)[0] == a[0] && (a + b)[1..] == a[1..] + b;
      assert Unix(a + b, cr, lf) == [a[0]] + Unix(a[1..] + b, cr, lf);
      assert cr !in a[1..] by {
        forall x | x in a[1..] ensures x != cr { assert x in a; }
      }
      UnixPrefix(a[1..], b, cr, lf);
      assert a == [a[0]] + a[1..];
    } else {
      assert a + b == b;
    }
  }

  // ---------------------------------------------------------------------------
  // executioner_tool.py

  /** `convert_to_unix_line_endings`, on the bytes read from the file. */
  function ConvertToUnixLineEndings(content: seq<byte>): (r: seq<byte>)
    ensures r == Unix(content, CR, LF)
    ensures CR !in r && |r| <= |content|
    ensures CR !in content ==> r == content
  {
    ReplaceChainIsUnix(content, CR, LF);
    UnixHasNoCR(content, CR, LF);
    if CR in content then ReplaceChain(content, CR, LF)
    else UnixWithoutCR(content, CR, LF); ReplaceChain(content, CR, LF)
  }

  /** Converting a converted script changes nothing. */
  lemma ConvertIdempotent(content: seq<byte>)
    ensures ConvertToUnixLineEndings(ConvertToUnixLineEndings(content)) == ConvertToUnixLineEndings(content)
  {
    UnixIdempotent(content, CR, LF);
  }

  // ---------------------------------------------------------------------------
  // executioner.py

  /** The text of `ensure_unix_line_endings` after its two `replace` calls. */
  function UnixText(content: string): (r: string)
    ensures r == Unix(content, '\r', '\n')
    ensures '\r' !in r && |r| <= |content|
    ensures '\r' !in content ==> r == content
  {
    ReplaceChainIsUnix(content, '\r', '\n');
    UnixHasNoCR(content, '\r', '\n');
    if '\r' in content then ReplaceChain(content, '\r', '\n')
    else UnixWithoutCR(content, '\r', '\n'); ReplaceChain(content, '\r', '\n')
  }

  /** `Path.read_text`, which opens the file in universal-newline mode: every `\r\n` and
      every lone `\r` stored in the file reaches the program as `\n`. */
  function ReadText(raw: string): string {
    Unix(raw, '\r', '\n')
  }

  /** The read already does what the two `replace` calls do: no `\r` reaches the program. */
  lemma ReadTextIsNormalised(raw: string)
    ensures '\r' !in ReadText(raw) && |ReadText(raw)| <= |raw|
    ensures ReadText(raw) == UnixText(raw)
  {
    UnixHasNoCR(raw, '\r', '\n');
  }

  /** One text file: the characters stored in it, line breaks as they are on disk, and the
      number of times it has been written. */
  class TextFile {
    var raw: string
    var writes: nat

    constructor(raw: string)
      ensures this.raw == raw && writes == 0
    {
      this.raw := raw;
      writes := 0;
    }

    /** `ensure_unix_line_endings` as written: it normalises the text `read_text` returned
        and compares it with that text.  The read has already turned every line break
        into `\n`, so the two never differ and the file is never rewritten. */
    method EnsureUnixLineEndings() returns (converted: bool)
      modifies this
      ensures !converted
      ensures raw == old(raw) && writes == old(writes)
    {
      var content := ReadText(raw);
      var newContent := UnixText(content);
      converted := content != newContent;
      if converted {
        raw := newContent;
        writes := writes + 1;
      }
      AsWrittenNeverRewrites(old(raw));
    }

    /** The evident intent of `ensure_unix_line_endings`: compare the characters stored in
        the file (as a read with `newline=''` returns them) with their normalised form, so
        that the file is rewritten with `\n` line breaks exactly when it holds a `\r`. */
    method EnsureUnixLineEndingsUntranslated() returns (converted: bool)
      modifies this
      ensures raw == UnixText(old(raw))
      ensures converted <==> '\r' in old(raw)
      ensures writes == old(writes) + (if converted then 1 else 0)
    {
      var content := raw;
      var newContent := UnixText(content);
      converted := content != newContent;
      if converted {
        raw := newContent;
        writes := writes + 1;
      }
      RewriteOnlyWithCR(old(raw));
    }
  }

  /** As written, normalising the text that was read changes nothing. */
  lemma AsWrittenNeverRewrites(raw: string)
    ensures UnixText(ReadText(raw)) == ReadText(raw)
  {
    ReadTextIsNormalised(raw);
  }

  /** A file stored as `a\r\nb` holds a carriage return that the intended conversion
      removes, yet the text the script compares is already `a\nb`. */
  lemma CarriageReturnSurvives()
    ensures var raw := "a\r\nb";
      && '\r' in raw
      && ReadText(raw) == "a\nb"
      && UnixText(ReadText(raw)) == ReadText(raw)
      && UnixText(raw) != raw
  {
    var raw := "a\r\nb";
    assert raw[1] == '\r';
    CRLFBecomesOneLF("a", "b", '\r', '\n');
    assert raw == "a" + ['\r', '\n'] + "b";
    UnixWithoutCR("b", '\r', '\n');
  }

  /** The intended conversion rewrites a file exactly when it holds a carriage return,
      and a second run never rewrites it. */
  lemma RewriteOnlyWithCR(content: string)
    ensures content != UnixText(content) <==> '\r' in content
    ensures UnixText(UnixText(content)) == UnixText(content)
  {
    UnixIdempotent(content, '\r', '\n');
  }
}
