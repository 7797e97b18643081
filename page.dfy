/**
 The page controller: the drag-highlight flag of the upload area, the output
 region, `handleFiles` with its checks, and the two callbacks of the read.
 */
module UploadPage {

  import opened Wrappers
  import opened FileValidation
  import opened LineExtraction
  import opened Render

  /** The drag events the upload area listens to. */
  datatype DragEvent = DragEnter | DragOver | DragLeave | Drop

  /**
   One step of the flag: `highlight` runs on `dragenter` and `dragover`,
   `unhighlight` on `dragleave` and `drop`. The previous `flag` is a parameter
   so that the flag reads as a state machine over events; neither handler
   looks at it, which `HighlightFollowsLastEvent` states for whole runs.
   */
  function HighlightAfter(flag: bool, e: DragEvent): bool {
    match e
    case DragEnter => true
    case DragOver => true
    case DragLeave => false
    case Drop => false
  }

  /** The flag after a run of drag events, starting from `flag`. */
  function HighlightAfterAll(flag: bool, events: seq<DragEvent>): bool {
    if events == [] then flag
    else HighlightAfter(HighlightAfterAll(flag, events[..|events| - 1]), events[|events| - 1])
  }

  /** The flag depends only on the last event: it is on exactly when that was an enter or an over. */
  lemma HighlightFollowsLastEvent(flag: bool, events: seq<DragEvent>)
    ensures events == [] ==> HighlightAfterAll(flag, events) == flag
    ensures events != [] ==>
              (HighlightAfterAll(flag, events) <==>
               events[|events| - 1] == DragEnter || events[|events| - 1] == DragOver)
  {
  }

  /** Running two runs of events one after the other is running their concatenation. */
  lemma {:induction false} HighlightAfterConcat(flag: bool, a: seq<DragEvent>, b: seq<DragEvent>)
    ensures HighlightAfterAll(flag, a + b) == HighlightAfterAll(HighlightAfterAll(flag, a), b)
    decreases |b|
  {
    if b == [] {
      assert a + b == a;
    } else {
      assert (a + b)[..|a + b| - 1] == a + b[..|b| - 1];
      HighlightAfterConcat(flag, a, b[..|b| - 1]);
    }
  }

  /** The messages the page shows in place of a listing. */
  datatype Notice = EmptyFileNotice | UnsupportedTypeNotice | WhitespaceOnlyNotice | ReadErrorNotice

  function NoticeText(n: Notice): string {
    match n
    case EmptyFileNotice => "\U{274C} File is empty!"
    case UnsupportedTypeNotice => "\U{274C} Please upload a text file (.txt, .log, .csv, .md, .js)"
    case WhitespaceOnlyNotice => "\U{1F4ED} File is empty or contains only whitespace!"
    case ReadErrorNotice => "\U{274C} Error reading file!"
  }

  /** What the output region shows. */
  datatype View =
    | Initial(markup: string)
    | Loading
    | Failed(notice: Notice)
    | Listing(filename: string, lines: seq<string>)

  const LoadingHtml: string := "\U{1F504} Reading file..."

  /** The markup of each view: the value `innerHTML` of the output region takes. */
  function ViewHtml(v: View): string {
    match v
    case Initial(markup) => markup
    case Loading => LoadingHtml
    case Failed(n) => MessageHtml(NoticeText(n), "error")
    case Listing(filename, lines) => SuccessHtml(lines, filename)
  }

  /**
   The views `handleFiles` writes, in order, for a file list: nothing for an
   empty list, else the loading text and then, when a check refuses the first
   file, its message.
   */
  function HandleFilesViews(files: seq<FileInfo>): seq<View> {
    if files == [] then []
    else match Validate(files[0])
      case EmptyFile => [Loading, Failed(EmptyFileNotice)]
      case UnsupportedType => [Loading, Failed(UnsupportedTypeNotice)]
      case Accepted => [Loading]
  }

  /** The view the read callback writes for the decoded text of `file`. */
  function LoadedView(file: FileInfo, content: string): View {
    match Examine(content)
    case WhitespaceOnly => Failed(WhitespaceOnlyNotice)
    case ShowLines(lines) => Listing(file.name, lines)
  }

  /**
   `handleFiles` writes the loading text first, then at most one message; it
   leaves the loading text in place exactly when it asks for a read.
   */
  lemma HandleFilesWritesLoadingFirst(files: seq<FileInfo>)
    ensures files == [] <==> HandleFilesViews(files) == []
    ensures files != [] ==> HandleFilesViews(files)[0] == Loading && |HandleFilesViews(files)| <= 2
    ensures files != [] ==>
              (HandleFilesViews(files) == [Loading] <==> Validate(files[0]) == Accepted)
  {
  }

  /** A successful read of non-blank text lists at most ten lines, labelled and escaped. */
  lemma LoadedListing(file: FileInfo, content: string)
    ensures LoadedView(file, content).Listing? ==>
              LoadedView(file, content).filename == file.name &&
              LoadedView(file, content).lines == Preview(content) &&
              1 <= |Preview(content)| <= MaxLines
    ensures LoadedView(file, content).Failed? <==>
              '\n' !in content && forall i :: 0 <= i < |content| ==> IsJsWhitespace(content[i])
  {
    WhitespaceOnlyIff(content);
    SplitCount(content);
  }

  /** The page: the upload area's highlight flag and the output region. */
  class Page {
    var dragActive: bool
    var output: string
    /** Every view written to the output region so far, the first being what it held at load. */
    ghost var writes: seq<View>

    /** The output region holds the markup of the last view written. */
    ghost predicate Valid()
      reads this
    {
      |writes| >= 1 && output == ViewHtml(writes[|writes| - 1])
    }

    constructor (initialMarkup: string)
      ensures Valid() && !dragActive && writes == [Initial(initialMarkup)]
    {
      dragActive := false;
      output := initialMarkup;
      writes := [Initial(initialMarkup)];
    }

    method Highlight()
      modifies this`dragActive
      ensures dragActive
    {
      dragActive := true;
    }

    method Unhighlight()
      modifies this`dragActive
      ensures !dragActive
    {
      dragActive := false;
    }

    /** The flag handlers of the upload area; the output region is not touched. */
    method OnDragEvent(e: DragEvent)
      modifies this`dragActive
      ensures dragActive == HighlightAfter(old(dragActive), e)
    {
      if e == DragEnter || e == DragOver {
        Highlight();
      } else {
        Unhighlight();
      }
    }

    /** `showMessage` for one of the page's notices; it replaces whatever the region held. */
    method ShowMessage(n: Notice)
      requires Valid()
      modifies this`output, this`writes
      ensures Valid()
      ensures output == MessageHtml(NoticeText(n), "error")
      ensures writes == old(writes) + [Failed(n)]
    {
      output := MessageHtml(NoticeText(n), "error");
      writes := writes + [Failed(n)];
    }

    /** `displayLines`: the listing replaces whatever the region held. */
    method DisplayLines(lines: seq<string>, filename: string)
      requires Valid()
      modifies this`output, this`writes
      ensures Valid()
      ensures output == SuccessHtml(lines, filename)
      ensures writes == old(writes) + [Listing(filename, lines)]
    {
      var html := BuildSuccessHtml(lines, filename);
      output := html;
      writes := writes + [Listing(filename, lines)];
    }

    /**
     `handleFiles`: nothing happens for an empty list; otherwise the loading
     text, then the checks on the first file. It returns the file to read when
     both checks pass.
     */
    method HandleFiles(files: seq<FileInfo>) returns (toRead: Option<FileInfo>)
      requires Valid()
      modifies this`output, this`writes
      ensures Valid()
      ensures writes == old(writes) + HandleFilesViews(files)
      ensures files == [] ==> output == old(output)
      ensures toRead == if files != [] && Validate(files[0]) == Accepted then Some(files[0]) else None
    {
      if files == [] {
        return None;
      }
      var file := files[0];
      output := LoadingHtml;
      writes := writes + [Loading];
      if file.size == 0 {
        assert HandleFilesViews(files) == [Loading, Failed(EmptyFileNotice)];
        assert old(writes) + [Loading] + [Failed(EmptyFileNotice)] == old(writes) + [Loading, Failed(EmptyFileNotice)];
        ShowMessage(EmptyFileNotice);
        return None;
      }
      if file.mimeType !in AllowedTypes && !HasAllowedExtension(file.name) {
        assert HandleFilesViews(files) == [Loading, Failed(UnsupportedTypeNotice)];
        assert old(writes) + [Loading] + [Failed(UnsupportedTypeNotice)] == old(writes) + [Loading, Failed(UnsupportedTypeNotice)];
        ShowMessage(UnsupportedTypeNotice);
        return None;
      }
      assert HandleFilesViews(files) == [Loading];
      toRead := Some(file);
    }

    /** A drop: `unhighlight` runs, then `handleDrop` passes the dropped files on. */
    method OnDrop(files: seq<FileInfo>) returns (toRead: Option<FileInfo>)
      requires Valid()
      modifies this
      ensures Valid() && !dragActive
      ensures writes == old(writes) + HandleFilesViews(files)
      ensures toRead == if files != [] && Validate(files[0]) == Accepted then Some(files[0]) else None
    {
      OnDragEvent(Drop);
      toRead := HandleFiles(files);
    }

    /** The file input's change handler: only a non-empty selection is passed on. */
    method OnInputChange(files: seq<FileInfo>) returns (toRead: Option<FileInfo>)
      requires Valid()
      modifies this`output, this`writes
      ensures Valid()
      ensures writes == old(writes) + HandleFilesViews(files)
      ensures toRead == if files != [] && Validate(files[0]) == Accepted then Some(files[0]) else None
    {
      if |files| > 0 {
        toRead := HandleFiles(files);
      } else {
        toRead := None;
      }
    }

    /** The read's `onload` callback for `file`, given the decoded text. */
    method OnReadLoad(file: FileInfo, content: string)
      requires Valid()
      modifies this`output, this`writes
      ensures Valid()
      ensures writes == old(writes) + [LoadedView(file, content)]
    {
      var lines := Preview(content);
      if |lines| == 0 || (|lines| == 1 && Trim(lines[0]) == []) {
        assert LoadedView(file, content) == Failed(WhitespaceOnlyNotice);
        ShowMessage(WhitespaceOnlyNotice);
        return;
      }
      assert LoadedView(file, content) == Listing(file.name, lines);
      DisplayLines(lines, file.name);
    }

    /** The read's `onerror` callback. */
    method OnReadError()
      requires Valid()
      modifies this`output, this`writes
      ensures Valid()
      ensures writes == old(writes) + [Failed(ReadErrorNotice)]
    {
      ShowMessage(ReadErrorNotice);
    }
  }

  /** Dropping `report.csv` and reading its three rows ends in a three-line listing. */
  method ReportScenario() returns (page: Page)
    ensures page.Valid() && !page.dragActive
    ensures page.writes[|page.writes| - 1] == Listing("report.csv", ["a,b", "1,2", "3,4"])
  {
    page := new Page("");
    var file := FileInfo("report.csv", 11, "text/csv");
    page.OnDragEvent(DragEnter);
    assert page.dragActive;
    var toRead := page.OnDrop([file]);
    assert toRead == Some(file);
    assert page.writes[|page.writes| - 1] == Loading;
    CsvRows();
    page.OnReadLoad(file, "a,b\n1,2\n3,4");
  }

  /** Selecting `photo.png` shows the unsupported-type message and asks for no read. */
  method PhotoScenario() returns (page: Page, toRead: Option<FileInfo>)
    ensures page.Valid() && toRead == None
    ensures page.output == MessageHtml(NoticeText(UnsupportedTypeNotice), "error")
  {
    page := new Page("");
    var file := FileInfo("photo.png", 2048, "image/png");
    PhotoRejected(2048);
    toRead := page.OnInputChange([file]);
  }
}
