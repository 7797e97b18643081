/**
 The markup the page writes into its output region: the messages of
 `showMessage` and the listing `displayLines` builds with `+=` in a loop.
 */
module Render {

  import opened HtmlEscape
  import opened Wrappers

  /** The decimal digit for `d`. */
  function Digit(d: nat): char
    requires d < 10
  {
    ('0' as int + d) as char
  }

  predicate IsDigit(c: char) {
    '0' <= c <= '9'
  }

  /** A natural number as a template literal writes it: decimal digits, no leading zero. */
  function DecimalString(n: nat): (r: string)
    ensures |r| >= 1
    ensures forall i :: 0 <= i < |r| ==> IsDigit(r[i])
    ensures r[0] == '0' ==> n == 0 && r == "0"
    decreases n
  {
    if n < 10 then [Digit(n)] else DecimalString(n / 10) + [Digit(n % 10)]
  }

  /** The number a string of decimal digits stands for. */
  function DecimalValue(s: string): nat
    requires forall i :: 0 <= i < |s| ==> IsDigit(s[i])
  {
    if s == [] then 0
    else 10 * DecimalValue(s[..|s| - 1]) + DigitValue(s[|s| - 1])
  }

  function DigitValue(c: char): nat
    requires IsDigit(c)
  {
    c as int - '0' as int
  }

  /** Reading back the digits gives the number: the label and the count are the numbers meant. */
  lemma {:induction false} DecimalRoundTrip(n: nat)
    ensures DecimalValue(DecimalString(n)) == n
    decreases n
  {
    var r := DecimalString(n);
    if n >= 10 {
      DecimalRoundTrip(n / 10);
      assert r[..|r| - 1] == DecimalString(n / 10);
    }
  }

  /** Different numbers are written differently. */
  lemma DecimalInjective(m: nat, n: nat)
    requires DecimalString(m) == DecimalString(n)
    ensures m == n
  {
    DecimalRoundTrip(m);
    DecimalRoundTrip(n);
  }

  /** The noun of the header, in the plural for every count but one. */
  function LineWord(count: nat): (w: string)
    ensures w == "line" <==> count == 1
    ensures w == "lines" <==> count != 1
  {
    "line" + (if count != 1 then "s" else "")
  }

  /** The markup `showMessage` writes for a message of a given kind. */
  function MessageHtml(message: string, kind: string): string {
    "<div class=\"" + kind + "\">" + message + "</div>"
  }

  /** The header of the listing, up to the file name. */
  function HeaderLead(count: nat): string {
    "<div class=\"success\">\n            \U{2705} Loaded <strong>" + DecimalString(count)
    + "</strong> " + LineWord(count) + " \n            from <strong>"
  }

  const HeaderTail: string := "</strong>\n        </div>"

  /** The header of the listing; the file name goes in as it is, without escaping. */
  function HeaderHtml(count: nat, filename: string): string {
    HeaderLead(count) + filename + HeaderTail
  }

  const ContentOpen: string := "<div class=\"output-content\">"
  const ContentClose: string := "</div>"
  const EntryOpen: string := "<div style=\"margin: 5px 0;\">"
  const SpanOpen: string :=
    "<span style=\"background: #f8f9fa; padding: 2px 6px; border-radius: 3px; font-family: monospace;\">"
  const SpanClose: string := "</span>"
  const EntryClose: string := "</div>"

  function LabelHtml(number: nat): string {
    "<strong style=\"color: #007bff;\">Line " + DecimalString(number) + ":</strong> "
  }

  /** One line of the listing: its 1-based number and its escaped text. */
  datatype Entry = Entry(number: nat, text: string)

  /** The listing of `lines`: entry `i` is line `i` escaped, labelled `i + 1`. */
  function Entries(lines: seq<string>): (es: seq<Entry>)
    ensures |es| == |lines|
    ensures forall i :: 0 <= i < |lines| ==> es[i] == Entry(i + 1, EscapeHtml(lines[i]))
  {
    if lines == [] then []
    else Entries(lines[..|lines| - 1]) + [Entry(|lines|, EscapeHtml(lines[|lines| - 1]))]
  }

  function SpanHtml(text: string): string {
    SpanOpen + text + SpanClose
  }

  /**
   The markup `acc` grows into when the entries `es` are appended to it, four
   pieces per entry, as the loop of `displayLines` appends them.
   */
  function AppendEntries(acc: string, es: seq<Entry>): string {
    if es == [] then acc
    else
      var e := es[|es| - 1];
      AppendEntries(acc, es[..|es| - 1]) + EntryOpen + LabelHtml(e.number) + SpanHtml(e.text) + EntryClose
  }

  /** The whole listing `displayLines` writes for `lines` read from `filename`. */
  function SuccessHtml(lines: seq<string>, filename: string): string {
    AppendEntries(HeaderHtml(|lines|, filename) + ContentOpen, Entries(lines)) + ContentClose
  }

  /** The loop of `displayLines`: the listing built up piece by piece, one line after another. */
  method BuildSuccessHtml(lines: seq<string>, filename: string) returns (html: string)
    ensures html == SuccessHtml(lines, filename)
  {
    var lineCount := |lines|;
    html := HeaderHtml(lineCount, filename);
    html := html + ContentOpen;
    ghost var lead := html;
    var index := 0;
    while index < |lines|
      invariant 0 <= index <= |lines|
      invariant html == AppendEntries(lead, Entries(lines[..index]))
    {
      html := html + EntryOpen;
      html := html + LabelHtml(index + 1);
      html := html + SpanHtml(EscapeHtml(lines[index]));
      html := html + EntryClose;
      EntriesSnoc(lines, index);
      AppendEntriesSnoc(lead, Entries(lines[..index]), Entry(index + 1, EscapeHtml(lines[index])));
      index := index + 1;
    }
    assert lines[..index] == lines;
    html := html + ContentClose;
  }

  lemma EntriesSnoc(lines: seq<string>, i: nat)
    requires i < |lines|
    ensures Entries(lines[..i + 1]) == Entries(lines[..i]) + [Entry(i + 1, EscapeHtml(lines[i]))]
  {
  }

  lemma AppendEntriesSnoc(acc: string, es: seq<Entry>, e: Entry)
    ensures AppendEntries(acc, es + [e]) ==
              AppendEntries(acc, es) + EntryOpen + LabelHtml(e.number) + SpanHtml(e.text) + EntryClose
  {
  }

  /** Every entry of the listing is escaped and unescapes back to its line: line text is never raw. */
  lemma EntriesEscaped(lines: seq<string>, i: nat)
    requires i < |lines|
    ensures IsEscaped(Entries(lines)[i].text)
    ensures Unescape(Entries(lines)[i].text) == Some(lines[i])
  {
    EscapedOutput(lines[i]);
    UnescapeEscape(lines[i]);
  }

  /**
   The listing begins with the header lead and then the file name exactly as
   given: the name is not escaped.
   */
  lemma FilenameVerbatim(lines: seq<string>, filename: string)
    ensures HeaderLead(|lines|) + filename <= SuccessHtml(lines, filename)
  {
    var named := HeaderLead(|lines|) + filename;
    var acc := HeaderHtml(|lines|, filename) + ContentOpen;
    var grown := AppendEntries(acc, Entries(lines));
    assert acc == named + HeaderTail + ContentOpen;
    PrefixOfAppend(named, named, HeaderTail);
    PrefixOfAppend(named, named + HeaderTail, ContentOpen);
    AppendEntriesExtends(acc, Entries(lines));
    PrefixOfAppend(acc, grown, ContentClose);
    PrefixTransitive(named, acc, grown + ContentClose);
  }

  lemma PrefixTransitive(a: string, b: string, c: string)
    requires a <= b && b <= c
    ensures a <= c
  {
  }

  lemma PrefixOfAppend(a: string, x: string, y: string)
    requires a <= x
    ensures a <= x + y
  {
  }

  /** Appending entries only adds after what is there: earlier markup is never rewritten. */
  lemma {:induction false} AppendEntriesExtends(acc: string, es: seq<Entry>)
    ensures acc <= AppendEntries(acc, es)
  {
    if es != [] {
      var e := es[|es| - 1];
      var x := AppendEntries(acc, es[..|es| - 1]);
      AppendEntriesExtends(acc, es[..|es| - 1]);
      PrefixOfAppend(acc, x, EntryOpen);
      PrefixOfAppend(acc, x + EntryOpen, LabelHtml(e.number));
      PrefixOfAppend(acc, x + EntryOpen + LabelHtml(e.number), SpanHtml(e.text));
      PrefixOfAppend(acc, x + EntryOpen + LabelHtml(e.number) + SpanHtml(e.text), EntryClose);
    }
  }
}
