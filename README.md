# File reader page, modelled in Dafny

The page lets a user drop or pick a text file and previews its first ten lines.
This project models the logic of its one script, `script.js`:

- the HTML escaper applied to each line (`HtmlEscape`, escape.dfy);
- the two checks `handleFiles` makes before reading: empty file, then MIME type or
  extension (`FileValidation`, validation.dfy);
- the split on `\r?\n`, the cut to ten lines and the whitespace-only test of the read
  callback (`LineExtraction`, lines.dfy);
- the markup `showMessage` and `displayLines` write, with the `displayLines` loop as a
  method proved against the function that describes the listing (`Render`, render.dfy);
- the page itself as a class (`UploadPage.Page`, page.dfy). Its fields are the
  upload area's highlight flag and the output region's markup. A ghost history records
  every view written to the output region. The drag flag is also given as a small state
  machine over drag events.

Strings are sequences of Unicode characters. The file's decoded text is an input of
the read callback. The asynchronous read is split into `HandleFiles`, which returns the
file it asks to read, and the two callbacks `OnReadLoad` and `OnReadError`.

Two behaviours of the code worth noting:

- A text such as three spaces followed by two line breaks has three segments. The code
  renders it as a three-line listing, not as the whitespace-only message
  (`LineExtraction.BlankLinesRendered`). The message appears only when the text is one
  segment made of whitespace (`LineExtraction.WhitespaceOnlyIff`).
- The file name goes into the listing's header unescaped (script.js:98). Only the lines
  are escaped (`Render.FilenameVerbatim`, `Render.EntriesEscaped`).

## Model

| member | source | states |
|---|---|---|
| HtmlEscape.EscapeChar | script.js:118-125 | each special character becomes an entity that starts with `&` and holds no other special character; every other character is kept as it is |
| HtmlEscape.EscapedOutput | script.js:117-126 | `EscapeHtml`, the model of `escapeHtml`: the escaped text holds no raw `<`, `>`, `"` or `'`, and every `&` in it begins one of `&amp;`, `&lt;`, `&gt;`, `&quot;`, `&#039;` |
| HtmlEscape.UnescapeEscape | script.js:117-126 | decoding the five entities in the escaped text gives back the input exactly: no character is lost and the order is kept |
| HtmlEscape.EscapeInjective | script.js:117-126 | two different lines never escape to the same text |
| HtmlEscape.EscapePlain | script.js:125 | a line without special characters is unchanged |
| HtmlEscape.EscapeLength | script.js:125 | the output is the input's length plus a fixed growth per special character; it is as long as the input iff the input has no special character |
| HtmlEscape.EscapeAppend | script.js:125 | escaping a concatenation is concatenating the escaped parts (the global replace works character by character) |
| FileValidation.ValidateOutcomes | script.js:55-67 | `Validate`, the two checks in order: empty file iff size 0; unsupported iff non-empty and MIME type outside the three allowed and no allowed extension; accepted otherwise |
| FileValidation.EmptyFirst | script.js:55-58 | a zero-size file is refused as empty whatever its name and MIME type, since that check comes first |
| FileValidation.CaseInsensitiveName | script.js:62-64 | upper-casing a file name never changes the verdict (the `i` flag) |
| FileValidation.NotesMarkdownAccepted | script.js:60-67 | `notes.md` with an empty MIME type and some content is accepted on its extension |
| FileValidation.BinaryRejected | script.js:60-67 | `data.bin` typed `application/octet-stream` is refused as unsupported |
| FileValidation.PhotoRejected | script.js:60-67 | `photo.png` typed `image/png` is refused as unsupported |
| LineExtraction.SplitLines | script.js:74 | the split always yields at least one segment |
| LineExtraction.SplitCount | script.js:74 | the split yields exactly one segment more than the text has `\n` characters |
| LineExtraction.SplitNoNewline | script.js:74 | no segment contains `\n` |
| LineExtraction.SplitJoin | script.js:74 | joining the segments with `\n` gives the text with each `\r\n` written as `\n`: only separators are removed, a lone `\r` stays, file order is kept |
| LineExtraction.NormalizeWithoutCarriageReturn | script.js:74 | for text without `\r`, joining the segments with `\n` gives the text back exactly |
| LineExtraction.SingleSegment | script.js:74 | text without `\n` is split into one segment, the whole text |
| LineExtraction.SplitAtSeparator | script.js:74 | a `\n` or `\r\n` after a `\n`-free line ends the first segment; a `\r` directly before a lone `\n` is never left in the segment |
| LineExtraction.LoneCarriageReturnKept | script.js:74 | in `a\rb\r\nc` the lone `\r` stays inside the first line and the `\r\n` separates |
| LineExtraction.Preview | script.js:74 | the preview has min(10, number of segments) lines and is the split's prefix of that length, in file order |
| LineExtraction.PreviewWhole | script.js:74 | text with fewer than ten `\n` is shown whole; longer text is cut to exactly its first ten segments |
| LineExtraction.TrimStart | script.js:76 | removes exactly the leading whitespace: the result is a suffix, all removed characters are whitespace, and it does not start with whitespace |
| LineExtraction.TrimEnd | script.js:76 | removes exactly the trailing whitespace: the result is a prefix, all removed characters are whitespace, and it does not end with whitespace |
| LineExtraction.TrimEmpty | script.js:76 | a line trims to empty iff every character is whitespace |
| LineExtraction.WhitespaceOnlyIff | script.js:74-81 | `Examine`, the test of the read callback: the whitespace-only message is given iff the text has no `\n` and only whitespace; otherwise the preview is rendered |
| LineExtraction.BlankLinesRendered | script.js:74-81 | three spaces then two line breaks render as three lines, not as the whitespace-only message |
| LineExtraction.CsvRows | script.js:74-81 | `a,b\n1,2\n3,4` yields the three rows `a,b`, `1,2`, `3,4` |
| Render.DecimalString | script.js:97 | a count is written as decimal digits, with no leading zero except for 0 itself |
| Render.DecimalRoundTrip | script.js:97 | reading the written digits back gives the number |
| Render.DecimalInjective | script.js:104 | different line numbers get different labels |
| Render.LineWord | script.js:97 | the header says `line` iff the count is 1 and `lines` otherwise |
| Render.Entries | script.js:102-105 | entry i of the listing is labelled i + 1 and holds line i escaped, in order, one entry per line |
| Render.BuildSuccessHtml | script.js:95-108 | the loop's result equals `SuccessHtml`, the listing `displayLines` writes: the loop's string is the header, then the four pieces of each entry appended in line order, then the closing tag |
| Render.EntriesEscaped | script.js:105 | every entry's text is escaped and unescapes back to its line |
| Render.FilenameVerbatim | script.js:96-98 | the listing begins with the header lead followed by the file name exactly as given, unescaped |
| Render.AppendEntriesExtends | script.js:101-108 | appending entries never rewrites what was already built |
| UploadPage.HighlightFollowsLastEvent | script.js:16-30 | `HighlightAfter`, one step of the flag, run over events by `HighlightAfterAll`: after a run of drag events the flag is on iff the last one was `dragenter` or `dragover` |
| UploadPage.HighlightAfterConcat | script.js:16-30 | two runs of drag events act like their concatenation |
| UploadPage.HandleFilesWritesLoadingFirst | script.js:47-67 | `HandleFilesViews`, the views `handleFiles` writes: it writes nothing for an empty list; otherwise it writes the loading text first and at most one message; the loading text stays iff the file passed both checks |
| UploadPage.LoadedListing | script.js:71-81 | `LoadedView`, the view the read callback writes: a successful read shows the file's name and its preview of 1 to 10 lines, or the whitespace-only message iff the text is one whitespace segment |
| UploadPage.Page.constructor | script.js:2-4 | the page starts unhighlighted, with the output region's initial markup as the only view |
| UploadPage.Page.Highlight | script.js:24-26 | sets the highlight flag and touches nothing else |
| UploadPage.Page.Unhighlight | script.js:28-30 | clears the highlight flag and touches nothing else |
| UploadPage.Page.OnDragEvent | script.js:16-22 | the flag after an event is what the drag state machine gives; the output region is untouched |
| UploadPage.Page.ShowMessage | script.js:113-115 | the message markup replaces the whole output region, and the history records it as the last view |
| UploadPage.Page.DisplayLines | script.js:94-111 | the listing replaces the whole output region |
| UploadPage.Page.HandleFiles | script.js:47-67 | appends the views `HandleFilesViews` gives; an empty list changes nothing; returns the file to read iff it passed both checks |
| UploadPage.Page.OnDrop | script.js:20-38 | a drop clears the flag and then handles the dropped files |
| UploadPage.Page.OnInputChange | script.js:41-45 | a non-empty selection is handled; an empty one changes nothing |
| UploadPage.Page.OnReadLoad | script.js:71-81 | the read callback appends exactly one view: the whitespace-only message or the listing of the preview |
| UploadPage.Page.OnReadError | script.js:87-89 | a failed read replaces the output with the read-error message |
| UploadPage.ReportScenario | script.js:32-85 | dropping `report.csv` and reading `a,b\n1,2\n3,4` ends in a listing of those three rows and a cleared flag |
| UploadPage.PhotoScenario | script.js:41-67 | selecting `photo.png` shows the unsupported-type message and asks for no read |

## Left out

- Registering event listeners, `preventDefaults`, `getElementById` and the `DOMContentLoaded` wrapper (script.js:1-14). These are browser wiring. The handlers they install are modelled as methods of `UploadPage.Page`.
- `FileReader`, `readAsText` and UTF-8 decoding (script.js:69, 91). The decoded text is a parameter of `OnReadLoad`. The read's failure is the `OnReadError` callback, with no cause attached.
- The order of overlapping reads. When a second file is dropped before the first read ends, the later callback's view wins. Any sequence of calls to the page's methods is allowed, so this case is covered, but no timing is modelled.
- The `try`/`catch` around the read callback and its "error processing" message (script.js:72, 82-84). Nothing in the modelled callback can throw, so the path cannot be reached.
- UploadPage.Page.ShowMessage: takes one of the page's four notices instead of a free message and type. Every call outside the left-out `catch` block (script.js:83) passes one of those texts with the type `error`.
- Strings are sequences of Unicode scalar values, not UTF-16 code units. Lone surrogates cannot be represented. No modelled result depends on this, since every character the code compares against is ASCII or a whitespace character from the basic plane.
- Trimming uses the fixed whitespace set of ECMAScript (tab, vertical tab, form feed, space separators, byte order mark and line terminators). Unicode tables are not consulted.
- Only ASCII letters fold in the extension test. This is what a non-Unicode `i` regular expression does for this pattern.
- The markup's exact text, including emoji and inline styles, is written out as constants. No property is proved about the constants themselves.
