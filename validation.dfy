/**
 The checks `handleFiles` makes on the first file before it asks for a read:
 a file of size zero is refused first, then a file is refused when neither its
 MIME type nor its name's extension is on the allow-lists.
 */
module FileValidation {

  /** What the page looks at of a dropped or selected file. */
  datatype FileInfo = FileInfo(name: string, size: nat, mimeType: string)

  /** The three outcomes of the checks. */
  datatype Verdict = Accepted | EmptyFile | UnsupportedType

  /** The MIME types accepted as they are. */
  const AllowedTypes: seq<string> := ["text/plain", "text/csv", "text/markdown"]

  /**
   Case folding as the non-Unicode `i` flag of a regular expression does it for
   the lower-case pattern here: only the ASCII letters A-Z fold.
   */
  function LowerChar(c: char): (d: char)
  {
    if 'A' <= c <= 'Z' then (c as int + 32) as char else c
  }

  function Lower(s: string): string
  {
    seq(|s|, i requires 0 <= i < |s| => LowerChar(s[i]))
  }

  function UpperChar(c: char): char
  {
    if 'a' <= c <= 'z' then (c as int - 32) as char else c
  }

  function Upper(s: string): string
  {
    seq(|s|, i requires 0 <= i < |s| => UpperChar(s[i]))
  }

  predicate EndsWith(s: string, suffix: string) {
    |suffix| <= |s| && s[|s| - |suffix|..] == suffix
  }

  /**
   The test `/\.(txt|log|csv|md|js)$/i` on a file name: the name, folded to
   lower case, ends in a dot and one of the five allowed extensions.
   */
  predicate HasAllowedExtension(name: string) {
    HasAllowedSuffix(Lower(name))
  }

  /** The alternation `\.(txt|log|csv|md|js)$` on an already folded name. */
  predicate HasAllowedSuffix(n: string) {
    EndsWith(n, ".txt") || EndsWith(n, ".log") || EndsWith(n, ".csv") || EndsWith(n, ".md") || EndsWith(n, ".js")
  }

  /** The checks, in the order the page makes them. */
  function Validate(f: FileInfo): Verdict
  {
    if f.size == 0 then EmptyFile
    else if f.mimeType !in AllowedTypes && !HasAllowedExtension(f.name) then UnsupportedType
    else Accepted
  }

  /** The three outcomes of `Validate`, each stated as the condition that leads to it. */
  lemma ValidateOutcomes(f: FileInfo)
    ensures Validate(f) == EmptyFile <==> f.size == 0
    ensures Validate(f) == UnsupportedType <==>
              f.size > 0 && f.mimeType !in AllowedTypes && !HasAllowedExtension(f.name)
    ensures Validate(f) == Accepted <==>
              f.size > 0 && (f.mimeType in AllowedTypes || HasAllowedExtension(f.name))
  {
  }

  /** A file of size zero is refused as empty whatever its name and type. */
  lemma EmptyFirst(name: string, mimeType: string)
    ensures Validate(FileInfo(name, 0, mimeType)) == EmptyFile
  {
  }

  /** Letter case does not matter in the extension: upper-casing a name changes no verdict. */
  lemma {:induction false} CaseInsensitiveName(f: FileInfo)
    ensures Validate(f.(name := Upper(f.name))) == Validate(f)
  {
    var u := Upper(f.name);
    assert Lower(u) == Lower(f.name) by {
      forall i | 0 <= i < |u| ensures Lower(u)[i] == Lower(f.name)[i] {
        var c := f.name[i];
        assert u[i] == UpperChar(c);
        if 'a' <= c <= 'z' {
          assert LowerChar(UpperChar(c)) == c;
        }
      }
    }
  }

  /** `notes.md` with no MIME type and some content is accepted. */
  lemma NotesMarkdownAccepted(size: nat)
    requires size > 0
    ensures Validate(FileInfo("notes.md", size, "")) == Accepted
  {
    assert HasAllowedExtension("notes.md") by {
      LowerOfLowerCase("notes.md");
    }
  }

  /** `data.bin` reported as `application/octet-stream` is refused as unsupported. */
  lemma BinaryRejected(size: nat)
    requires size > 0
    ensures Validate(FileInfo("data.bin", size, "application/octet-stream")) == UnsupportedType
  {
    assert !HasAllowedExtension("data.bin") by {
      LowerOfLowerCase("data.bin");
    }
    assert "application/octet-stream" !in AllowedTypes;
  }

  /** `photo.png` reported as `image/png` is refused as unsupported. */
  lemma PhotoRejected(size: nat)
    requires size > 0
    ensures Validate(FileInfo("photo.png", size, "image/png")) == UnsupportedType
  {
    assert !HasAllowedExtension("photo.png") by {
      LowerOfLowerCase("photo.png");
      assert !HasAllowedSuffix("photo.png");
    }
    assert "image/png" !in AllowedTypes;
  }

  /** A name without capital letters is its own lower-case form. */
  lemma LowerOfLowerCase(s: string)
    requires forall i :: 0 <= i < |s| ==> !('A' <= s[i] <= 'Z')
    ensures Lower(s) == s
  {
  }
}
