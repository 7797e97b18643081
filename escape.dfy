/**
 The HTML escaper of the page script: every `&`, `<`, `>`, `"` and `'` of a
 line is replaced by its entity, every other character is kept as it is.
 */
module HtmlEscape {

  import opened Wrappers

  /** The five characters the escaper rewrites. */
  predicate IsSpecial(c: char) {
    c == '&' || c == '<' || c == '>' || c == '"' || c == '\''
  }

  /** The replacement table of the escaper. */
  function Entity(c: char): (e: string)
    requires IsSpecial(c)
  {
    match c
    case '&' => "&amp;"
    case '<' => "&lt;"
    case '>' => "&gt;"
    case '"' => "&quot;"
    case '\'' => "&#039;"
  }

  /** The text one character of the input becomes. */
  function EscapeChar(c: char): (r: string)
    ensures IsSpecial(c) ==> |r| > 1 && r[0] == '&'
    ensures !IsSpecial(c) ==> r == [c]
    ensures forall i :: 0 < i < |r| ==> !IsSpecial(r[i])
  {
    if IsSpecial(c) then Entity(c) else [c]
  }

  /** The escaper: each character is replaced by the text `EscapeChar` gives it, in order. */
  function EscapeHtml(s: string): string
  {
    if s == [] then [] else EscapeChar(s[0]) + EscapeHtml(s[1..])
  }

  /** `t` starts with one of the five entities. */
  predicate StartsWithEntity(t: string) {
    "&amp;" <= t || "&lt;" <= t || "&gt;" <= t || "&quot;" <= t || "&#039;" <= t
  }

  /** No raw `<`, `>`, `"` or `'` remains, and every `&` begins one of the five entities. */
  predicate IsEscaped(t: string) {
    forall i :: 0 <= i < |t| ==>
      (t[i] != '<' && t[i] != '>' && t[i] != '"' && t[i] != '\'' &&
       (t[i] == '&' ==> StartsWithEntity(t[i..])))
  }

  /** The inverse of the escaper: it reads the five entities back and refuses raw special characters. */
  function Unescape(t: string): (r: Option<string>)
  {
    if t == [] then Some([])
    else if t[0] == '&' then
      if "&amp;" <= t then Prepend('&', Unescape(t[5..]))
      else if "&lt;" <= t then Prepend('<', Unescape(t[4..]))
      else if "&gt;" <= t then Prepend('>', Unescape(t[4..]))
      else if "&quot;" <= t then Prepend('"', Unescape(t[6..]))
      else if "&#039;" <= t then Prepend('\'', Unescape(t[6..]))
      else None
    else if IsSpecial(t[0]) then None
    else Prepend(t[0], Unescape(t[1..]))
  }

  function Prepend(c: char, o: Option<string>): Option<string> {
    match o
    case None => None
    case Some(s) => Some([c] + s)
  }

  /** How much longer one character's replacement is than the character. */
  function Growth(c: char): nat {
    if IsSpecial(c) then |Entity(c)| - 1 else 0
  }

  /** Escaping distributes over concatenation: each character is replaced on its own. */
  lemma {:induction false} EscapeAppend(a: string, b: string)
    ensures EscapeHtml(a + b) == EscapeHtml(a) + EscapeHtml(b)
  {
    if a == [] {
      assert a + b == b;
    } else {
      assert (a + b)[0] == a[0];
      assert (a + b)[1..] == a[1..] + b;
      EscapeAppend(a[1..], b);
    }
  }

  /** The output of the escaper holds no raw `<`, `>`, `"`, `'`, and each `&` in it starts an entity. */
  lemma {:induction false} EscapedOutput(s: string)
    ensures IsEscaped(EscapeHtml(s))
  {
    if s != [] {
      var head, tail := EscapeChar(s[0]), EscapeHtml(s[1..]);
      EscapedOutput(s[1..]);
      var t := head + tail;
      assert t == EscapeHtml(s);
      forall i | 0 <= i < |t|
        ensures t[i] != '<' && t[i] != '>' && t[i] != '"' && t[i] != '\''
        ensures t[i] == '&' ==> StartsWithEntity(t[i..])
      {
        if i < |head| {
          if i == 0 && IsSpecial(s[0]) {
            assert head <= t[i..];
          }
        } else {
          assert t[i] == tail[i - |head|];
          assert t[i..] == tail[i - |head|..];
        }
      }
    }
  }

  /** Unescaping the escaper's output gives back the input: nothing is lost and the order is kept. */
  lemma {:induction false} UnescapeEscape(s: string)
    ensures Unescape(EscapeHtml(s)) == Some(s)
  {
    if s != [] {
      var c, tail := s[0], EscapeHtml(s[1..]);
      var t := EscapeChar(c) + tail;
      assert t == EscapeHtml(s);
      UnescapeEscape(s[1..]);
      assert t[|EscapeChar(c)|..] == tail;
      assert EscapeChar(c) <= t;
      assert [c] + s[1..] == s;
      if c == '&' {
        assert Unescape(t) == Prepend('&', Unescape(t[5..]));
      } else if c == '<' {
        assert t[1] == EscapeChar(c)[1] == 'l';
        assert Unescape(t) == Prepend('<', Unescape(t[4..]));
      } else if c == '>' {
        assert t[1] == EscapeChar(c)[1] == 'g';
        assert Unescape(t) == Prepend('>', Unescape(t[4..]));
      } else if c == '"' {
        assert t[1] == EscapeChar(c)[1] == 'q';
        assert Unescape(t) == Prepend('"', Unescape(t[6..]));
      } else if c == '\'' {
        assert t[1] == EscapeChar(c)[1] == '#';
        assert Unescape(t) == Prepend('\'', Unescape(t[6..]));
      } else {
        assert Unescape(t) == Prepend(c, Unescape(t[1..]));
      }
    }
  }

  /** Two different lines never escape to the same text. */
  lemma EscapeInjective(a: string, b: string)
    requires EscapeHtml(a) == EscapeHtml(b)
    ensures a == b
  {
    UnescapeEscape(a);
    UnescapeEscape(b);
  }

  /** A line without special characters is left exactly as it is. */
  lemma {:induction false} EscapePlain(s: string)
    requires forall i :: 0 <= i < |s| ==> !IsSpecial(s[i])
    ensures EscapeHtml(s) == s
  {
    if s != [] {
      EscapePlain(s[1..]);
      assert [s[0]] + s[1..] == s;
    }
  }

  /** The output grows by a fixed amount at each special character and nowhere else. */
  lemma {:induction false} EscapeLength(s: string)
    ensures |EscapeHtml(s)| == |s| + SumGrowth(s)
    ensures |EscapeHtml(s)| >= |s|
    ensures |EscapeHtml(s)| == |s| <==> forall i :: 0 <= i < |s| ==> !IsSpecial(s[i])
  {
    if s != [] {
      EscapeLength(s[1..]);
      if forall i :: 0 <= i < |s| ==> !IsSpecial(s[i]) {
        assert !IsSpecial(s[0]);
        assert forall i :: 0 <= i < |s[1..]| ==> !IsSpecial(s[1..][i]) by {
          forall i | 0 <= i < |s[1..]| ensures !IsSpecial(s[1..][i]) {
            assert s[1..][i] == s[i + 1];
          }
        }
      } else if !IsSpecial(s[0]) {
        var k :| 0 <= k < |s| && IsSpecial(s[k]);
        assert s[1..][k - 1] == s[k];
      }
    }
  }

  /** Sum of `Growth` over a line. */
  function SumGrowth(s: string): nat {
    if s == [] then 0 else Growth(s[0]) + SumGrowth(s[1..])
  }
}
