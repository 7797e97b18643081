/**
 What the read callback does with the decoded text before rendering:
 `content.split(/\r?\n/).slice(0, 10)` and the test for an empty or
 whitespace-only file.
 */
module LineExtraction {

  /** The most lines the page shows. */
  const MaxLines: nat := 10

  /**
   The split on `\r?\n`: a `\n`, or a `\r` directly before it, ends a
   segment; a `\r` not followed by `\n` stays in its segment.
   */
  function SplitLines(s: string): (r: seq<string>)
    ensures |r| >= 1
  {
    if s == [] then [""]
    else if s[0] == '\n' then [""] + SplitLines(s[1..])
    else if |s| >= 2 && s[0] == '\r' && s[1] == '\n' then [""] + SplitLines(s[2..])
    else
      var rest := SplitLines(s[1..]);
      [[s[0]] + rest[0]] + rest[1..]
  }

  /** Number of `\n` characters in `s`. */
  function CountNewlines(s: string): nat {
    if s == [] then 0 else (if s[0] == '\n' then 1 else 0) + CountNewlines(s[1..])
  }

  /** `s` with every `\r\n` written as `\n`: what joining the segments with `\n` gives back. */
  function NormalizeNewlines(s: string): string {
    if s == [] then []
    else if |s| >= 2 && s[0] == '\r' && s[1] == '\n' then "\n" + NormalizeNewlines(s[2..])
    else [s[0]] + NormalizeNewlines(s[1..])
  }

  /** The segments written back one after the other, separated by `\n`. */
  function JoinLines(lines: seq<string>): string
    requires |lines| >= 1
  {
    if |lines| == 1 then lines[0] else lines[0] + "\n" + JoinLines(lines[1..])
  }

  /** The preview: the first ten segments of the split, in file order. */
  function Preview(content: string): (lines: seq<string>)
    ensures |lines| == if |SplitLines(content)| < MaxLines then |SplitLines(content)| else MaxLines
    ensures lines == SplitLines(content)[..|lines|]
  {
    var all := SplitLines(content);
    if |all| <= MaxLines then all else all[..MaxLines]
  }

  /** The split yields one segment more than there are `\n` characters. */
  lemma {:induction false} SplitCount(s: string)
    ensures |SplitLines(s)| == CountNewlines(s) + 1
  {
    if s == [] {
    } else if s[0] == '\n' {
      SplitCount(s[1..]);
    } else if |s| >= 2 && s[0] == '\r' && s[1] == '\n' {
      SplitCount(s[2..]);
      assert CountNewlines(s) == CountNewlines(s[1..]);
      assert s[1..][1..] == s[2..];
    } else {
      SplitCount(s[1..]);
    }
  }

  /** No segment holds a `\n`. */
  lemma {:induction false} SplitNoNewline(s: string)
    ensures forall i :: 0 <= i < |SplitLines(s)| ==> '\n' !in SplitLines(s)[i]
  {
    if s == [] {
    } else if s[0] == '\n' {
      SplitNoNewline(s[1..]);
    } else if |s| >= 2 && s[0] == '\r' && s[1] == '\n' {
      SplitNoNewline(s[2..]);
    } else {
      SplitNoNewline(s[1..]);
      var rest := SplitLines(s[1..]);
      assert SplitLines(s) == [[s[0]] + rest[0]] + rest[1..];
      forall i | 0 <= i < |SplitLines(s)| ensures '\n' !in SplitLines(s)[i] {
        if i > 0 {
          assert SplitLines(s)[i] == rest[i];
        }
      }
    }
  }

  /**
   Joining the segments with `\n` gives the text back with each `\r\n` written
   as `\n`: nothing but the separators is removed, a lone `\r` is kept, and the
   segments come in file order.
   */
  lemma {:induction false} SplitJoin(s: string)
    ensures JoinLines(SplitLines(s)) == NormalizeNewlines(s)
  {
    if s == [] {
    } else if s[0] == '\n' {
      SplitJoin(s[1..]);
      JoinAfterEmpty(SplitLines(s[1..]));
    } else if |s| >= 2 && s[0] == '\r' && s[1] == '\n' {
      SplitJoin(s[2..]);
      JoinAfterEmpty(SplitLines(s[2..]));
    } else {
      SplitJoin(s[1..]);
      JoinExtendFirst(s[0], SplitLines(s[1..]));
    }
  }

  /** An empty first segment joins to a leading `\n`. */
  lemma JoinAfterEmpty(lines: seq<string>)
    requires |lines| >= 1
    ensures JoinLines([""] + lines) == "\n" + JoinLines(lines)
  {
    assert ([""] + lines)[1..] == lines;
  }

  /** A character put before the first segment comes first in the joined text. */
  lemma {:induction false} JoinExtendFirst(c: char, lines: seq<string>)
    requires |lines| >= 1
    ensures JoinLines([[c] + lines[0]] + lines[1..]) == [c] + JoinLines(lines)
  {
    var r := [[c] + lines[0]] + lines[1..];
    assert r[0] == [c] + lines[0] && r[1..] == lines[1..];
    if |lines| > 1 {
      var tail := JoinLines(lines[1..]);
      calc {
        JoinLines(r);
        r[0] + "\n" + JoinLines(r[1..]);
        [c] + lines[0] + "\n" + tail;
        [c] + (lines[0] + "\n" + tail);
        [c] + JoinLines(lines);
      }
    }
  }

  /** For text without `\r` the split is undone exactly by joining with `\n`. */
  lemma {:induction false} NormalizeWithoutCarriageReturn(s: string)
    requires '\r' !in s
    ensures NormalizeNewlines(s) == s
  {
    if s != [] {
      assert s[0] != '\r';
      assert '\r' !in s[1..];
      NormalizeWithoutCarriageReturn(s[1..]);
      assert [s[0]] + s[1..] == s;
    }
  }

  /** Text without `\n` is a single segment: the whole text. */
  lemma {:induction false} SingleSegment(s: string)
    requires '\n' !in s
    ensures SplitLines(s) == [s]
  {
    if s != [] {
      assert s[0] != '\n';
      assert s[1..] == [] || s[1] != '\n';
      assert '\n' !in s[1..];
      SingleSegment(s[1..]);
      assert [s[0]] + s[1..] == s;
    }
  }

  /** Text of at most ten lines is shown whole; longer text is cut to exactly its first ten. */
  lemma PreviewWhole(content: string)
    ensures CountNewlines(content) < MaxLines ==> Preview(content) == SplitLines(content)
    ensures CountNewlines(content) >= MaxLines ==>
              |Preview(content)| == MaxLines && Preview(content) == SplitLines(content)[..MaxLines]
  {
    SplitCount(content);
  }

  /** The whitespace `String.prototype.trim` removes: WhiteSpace and LineTerminator of ECMAScript. */
  predicate IsJsWhitespace(c: char) {
    c == '\t' || c == '\U{000B}' || c == '\U{000C}' || c == ' ' || c == '\U{00A0}' || c == '\U{FEFF}'
    || c == '\n' || c == '\r' || c == '\U{2028}' || c == '\U{2029}'
    || c == '\U{1680}' || ('\U{2000}' <= c <= '\U{200A}') || c == '\U{202F}' || c == '\U{205F}' || c == '\U{3000}'
  }

  /** Leading whitespace removed: the longest suffix of `s` that does not start with whitespace. */
  function TrimStart(s: string): (r: string)
    ensures |r| <= |s| && r == s[|s| - |r|..]
    ensures forall i :: 0 <= i < |s| - |r| ==> IsJsWhitespace(s[i])
    ensures r == [] || !IsJsWhitespace(r[0])
  {
    if s != [] && IsJsWhitespace(s[0]) then TrimStart(s[1..]) else s
  }

  /** Trailing whitespace removed: the longest prefix of `s` that does not end with whitespace. */
  function TrimEnd(s: string): (r: string)
    ensures |r| <= |s| && r == s[..|r|]
    ensures forall i :: |r| <= i < |s| ==> IsJsWhitespace(s[i])
    ensures r == [] || !IsJsWhitespace(r[|r| - 1])
  {
    if s != [] && IsJsWhitespace(s[|s| - 1]) then TrimEnd(s[..|s| - 1]) else s
  }

  function Trim(s: string): string {
    TrimEnd(TrimStart(s))
  }

  /** A line trims to nothing exactly when every character of it is whitespace. */
  lemma TrimEmpty(s: string)
    ensures Trim(s) == [] <==> forall i :: 0 <= i < |s| ==> IsJsWhitespace(s[i])
  {
  }

  /** What the read callback decides: the whitespace-only message, or lines to render. */
  datatype ContentOutcome = WhitespaceOnly | ShowLines(lines: seq<string>)

  /**
   The test of the read callback on the preview; its first disjunct, an empty
   preview, cannot happen since a split always yields a segment.
   */
  function Examine(content: string): ContentOutcome
  {
    var lines := Preview(content);
    if |lines| == 0 || (|lines| == 1 && Trim(lines[0]) == []) then WhitespaceOnly
    else ShowLines(lines)
  }

  /**
   The whitespace-only message is given exactly when the text has no `\n` and
   nothing but whitespace; otherwise the preview is rendered.
   */
  lemma WhitespaceOnlyIff(content: string)
    ensures Examine(content) == WhitespaceOnly <==>
              '\n' !in content && forall i :: 0 <= i < |content| ==> IsJsWhitespace(content[i])
    ensures Examine(content) != WhitespaceOnly ==> Examine(content) == ShowLines(Preview(content))
  {
    SplitCount(content);
    if '\n' !in content {
      SingleSegment(content);
      TrimEmpty(content);
    } else {
      CountAtLeastOne(content);
    }
  }

  lemma {:induction false} CountAtLeastOne(s: string)
    requires '\n' in s
    ensures CountNewlines(s) >= 1
  {
    if s[0] != '\n' {
      assert '\n' in s[1..];
      CountAtLeastOne(s[1..]);
    }
  }

  /**
   A line without `\n`, followed by a separator, is the first segment, and the
   rest of the text is split on its own.
   */
  lemma {:induction false} SplitAtSeparator(a: string, sep: string, b: string)
    requires '\n' !in a
    requires sep == "\r\n" || (sep == "\n" && (a == [] || a[|a| - 1] != '\r'))
    ensures SplitLines(a + sep + b) == [a] + SplitLines(b)
  {
    var s := a + sep + b;
    if a == [] {
      assert s == sep + b;
      if sep == "\n" {
        assert s[1..] == b;
      } else {
        assert s[2..] == b;
      }
    } else {
      assert s[0] == a[0] && a[0] != '\n';
      assert |s| >= 2 && s[1] == (if |a| >= 2 then a[1] else sep[0]);
      assert s[1..] == a[1..] + sep + b;
      SplitAtSeparator(a[1..], sep, b);
      assert [a[0]] + a[1..] == a;
    }
  }

  /** A file of blank lines, such as three spaces then two line breaks, is rendered as three lines. */
  lemma BlankLinesRendered()
    ensures Examine("   \n\n") == ShowLines(["   ", "", ""])
  {
    SplitAtSeparator("", "\n", "");
    SplitAtSeparator("", "\n", "\n");
    assert "   \n\n" == "   " + "\n" + "\n";
    SplitAtSeparator("   ", "\n", "\n");
  }

  /** The three-line CSV text is split into its three rows. */
  lemma CsvRows()
    ensures Examine("a,b\n1,2\n3,4") == ShowLines(["a,b", "1,2", "3,4"])
  {
    var text := "a,b\n1,2\n3,4";
    assert text == "a,b" + "\n" + ("1,2" + "\n" + "3,4");
    assert SplitLines(text) == ["a,b", "1,2", "3,4"] by {
      SingleSegment("3,4");
      SplitAtSeparator("1,2", "\n", "3,4");
      SplitAtSeparator("a,b", "\n", "1,2" + "\n" + "3,4");
    }
    assert Preview(text) == ["a,b", "1,2", "3,4"];
  }

  /** A lone carriage return stays inside its line; a carriage return before a line feed does not. */
  lemma LoneCarriageReturnKept()
    ensures SplitLines("a\rb\r\nc") == ["a\rb", "c"]
  {
    SingleSegment("c");
    assert "a\rb\r\nc" == "a\rb" + "\r\n" + "c";
    SplitAtSeparator("a\rb", "\r\n", "c");
  }
}
