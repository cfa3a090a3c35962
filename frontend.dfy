/**
 * The browser side: classifying uploaded files, the list of uploaded files and
 * the text box it fills, checking the input before a video is requested, and
 * turning a failure into the message shown to the user.
 */
module Frontend {
  import opened Wrappers
  import opened Strings

  datatype FileType = Pdf | Txt | Doc | Unknown

  /** What follows the last '.' of a file name (the whole name when it has none), lower-cased. */
  function Extension(name: string): string {
    ToLower(Last(SplitOn(name, ".")))
  }

  function TypeOfExtension(ext: string): FileType {
    if ext == "pdf" then Pdf
    else if ext == "txt" then Txt
    else if ext == "doc" || ext == "docx" then Doc
    else Unknown
  }

  /** `getFileType`: pdf, txt, doc or docx after the last '.' (in any case) give a type; anything else is unknown. */
  function GetFileType(name: string): (t: FileType)
    ensures t == Pdf <==> Extension(name) == "pdf"
    ensures t == Txt <==> Extension(name) == "txt"
    ensures t == Doc <==> Extension(name) == "doc" || Extension(name) == "docx"
    ensures t == Unknown <==> Extension(name) !in ["pdf", "txt", "doc", "docx"]
  {
    TypeOfExtension(Extension(name))
  }

  /** The type is read from the text after the last '.', whatever its case. */
  lemma FileTypeByExtension(base: string, ext: string)
    requires '.' !in ext
    ensures GetFileType(base + "." + ext) == TypeOfExtension(ToLower(ext))
  {
    SplitLast(base, '.', ext);
  }

  /** A name without any '.' is classified by the whole name. */
  lemma FileTypeWithoutDot(name: string)
    requires '.' !in name
    ensures GetFileType(name) == TypeOfExtension(ToLower(name))
  {
    SplitWithoutSeparator(name, '.');
  }

  /** Upper-case extensions are recognised: "REPORT.PDF" is a PDF. */
  lemma UpperCaseExtension()
    ensures GetFileType("REPORT.PDF") == Pdf
  {
    assert "REPORT.PDF" == "REPORT" + "." + "PDF";
    FileTypeByExtension("REPORT", "PDF");
    assert ToLower("PDF") == "pdf";
  }

  /** Only the last extension counts: "notes.backup.docx" is a Word file. */
  lemma LastExtensionCounts()
    ensures GetFileType("notes.backup.docx") == Doc
  {
    assert "notes.backup.docx" == "notes.backup" + "." + "docx";
    FileTypeByExtension("notes.backup", "docx");
    assert ToLower("docx") == "docx";
  }

  /** A known extension that is not the last one does not count: "archive.pdf.gz" is unknown. */
  lemma InnerExtensionIgnored()
    ensures GetFileType("archive.pdf.gz") == Unknown
  {
    assert "archive.pdf.gz" == "archive.pdf" + "." + "gz";
    FileTypeByExtension("archive.pdf", "gz");
    assert ToLower("gz") == "gz";
  }

  /** A file called just "pdf", with no '.', is classified as a PDF. */
  lemma BareNameAsExtension()
    ensures GetFileType("pdf") == Pdf
  {
    FileTypeWithoutDot("pdf");
    assert ToLower("pdf") == "pdf";
  }

  const ValidMimeTypes: seq<string> := [
    "application/pdf",
    "text/plain",
    "application/msword",
    "application/vnd.openxmlformats-officedocument.wordprocessingml.document"
  ]

  /** `isValidFileType`: a listed MIME type, or a name ending in one of four lower-case extensions. */
  predicate IsValidFileType(mime: string, name: string)
    ensures mime in ValidMimeTypes ==> IsValidFileType(mime, name)
    ensures IsValidFileType(mime, name) && mime !in ValidMimeTypes ==> GetFileType(name) != Unknown
  {
    AcceptedSuffixKnown(name);
    mime in ValidMimeTypes ||
    EndsWith(name, ".pdf") || EndsWith(name, ".txt") || EndsWith(name, ".doc") || EndsWith(name, ".docx")
  }

  /** A name accepted for its suffix has a known type. */
  lemma AcceptedSuffixKnown(name: string)
    ensures EndsWith(name, ".pdf") || EndsWith(name, ".txt") || EndsWith(name, ".doc") || EndsWith(name, ".docx") ==>
      GetFileType(name) != Unknown
  {
    if EndsWith(name, ".pdf") {
      PdfSuffixClassified(name);
    } else if EndsWith(name, ".txt") {
      TxtSuffixClassified(name);
    } else if EndsWith(name, ".doc") || EndsWith(name, ".docx") {
      DocSuffixClassified(name);
    }
  }

  lemma SuffixClassified(name: string, ext: string)
    requires '.' !in ext && EndsWith(name, "." + ext)
    ensures GetFileType(name) == TypeOfExtension(ToLower(ext))
  {
    var base := name[..|name| - |ext| - 1];
    assert name == base + ("." + ext);
    assert name == base + "." + ext;
    FileTypeByExtension(base, ext);
  }

  /** A name accepted for its suffix is classified by that suffix. */
  lemma PdfSuffixClassified(name: string)
    requires EndsWith(name, ".pdf")
    ensures GetFileType(name) == Pdf
  {
    SuffixClassified(name, "pdf");
    assert ToLower("pdf") == "pdf";
  }

  lemma TxtSuffixClassified(name: string)
    requires EndsWith(name, ".txt")
    ensures GetFileType(name) == Txt
  {
    SuffixClassified(name, "txt");
    assert ToLower("txt") == "txt";
  }

  lemma DocSuffixClassified(name: string)
    requires EndsWith(name, ".doc") || EndsWith(name, ".docx")
    ensures GetFileType(name) == Doc
  {
    if EndsWith(name, ".doc") {
      SuffixClassified(name, "doc");
      assert ToLower("doc") == "doc";
    } else {
      SuffixClassified(name, "docx");
      assert ToLower("docx") == "docx";
    }
  }

  /**
   * The suffix test is case-sensitive while the classification is not: with an
   * unlisted MIME type, "REPORT.PDF" is rejected though it is classified as a PDF.
   */
  lemma SuffixCaseSensitive()
    ensures !IsValidFileType("", "REPORT.PDF")
    ensures GetFileType("REPORT.PDF") == Pdf
  {
    UpperCaseExtension();
    var n := "REPORT.PDF";
    assert n[9] == 'F' && n[8] == 'D' && n[7] == 'P';
    assert !EndsWith(n, ".pdf") && !EndsWith(n, ".txt") && !EndsWith(n, ".doc");
    assert n[6] == '.';
    assert !EndsWith(n, ".docx");
    assert "" !in ValidMimeTypes;
  }

  /** A listed MIME type is accepted even for a name classified as unknown, such as "scan". */
  lemma MimeTypeSuffices()
    ensures IsValidFileType("application/pdf", "scan") && GetFileType("scan") == Unknown
  {
    FileTypeWithoutDot("scan");
    assert ToLower("scan") == "scan";
  }

  /** `getFileIcon`: the icon of each type, with the generic file icon for anything else. */
  function GetFileIcon(t: FileType): (icon: string)
    ensures icon == "fas fa-file" <==> t == Unknown
  {
    match t
    case Pdf => "fas fa-file-pdf"
    case Txt => "fas fa-file-alt"
    case Doc => "fas fa-file-word"
    case Unknown => "fas fa-file"
  }

  /** An uploaded file: its id, its name and the text extracted from it. */
  datatype UploadedFile = UploadedFile(id: int, name: string, text: string)

  function Ids(fs: seq<UploadedFile>): (ids: seq<int>)
    ensures |ids| == |fs|
    ensures forall i :: 0 <= i < |fs| ==> ids[i] == fs[i].id
  {
    seq(|fs|, i requires 0 <= i < |fs| => fs[i].id)
  }

  function Texts(fs: seq<UploadedFile>): (ts: seq<string>)
    ensures |ts| == |fs|
  {
    seq(|fs|, i requires 0 <= i < |fs| => fs[i].text)
  }

  /** The list after `filter(f => f.id !== fileId)`. */
  function WithoutId(fs: seq<UploadedFile>, id: int): (r: seq<UploadedFile>)
    ensures |r| <= |fs|
    ensures forall k :: 0 <= k < |r| ==> r[k].id != id
  {
    if fs == [] then []
    else (if fs[0].id == id then [] else [fs[0]]) + WithoutId(fs[1..], id)
  }

  /** Removal keeps exactly the entries with other ids. */
  lemma {:induction false} WithoutIdMembers(fs: seq<UploadedFile>, id: int)
    ensures forall f :: f in WithoutId(fs, id) <==> f in fs && f.id != id
  {
    if fs != [] {
      WithoutIdMembers(fs[1..], id);
      assert fs == [fs[0]] + fs[1..];
    }
  }

  /** Removal keeps the order: it works piece by piece. */
  lemma {:induction false} WithoutIdAppend(a: seq<UploadedFile>, b: seq<UploadedFile>, id: int)
    ensures WithoutId(a + b, id) == WithoutId(a, id) + WithoutId(b, id)
  {
    if a == [] {
      assert a + b == b;
    } else {
      assert (a + b)[1..] == a[1..] + b;
      WithoutIdAppend(a[1..], b, id);
    }
  }

  /** The DOM side: the first item with the id, if any, is taken out. */
  function RemoveFirst(xs: seq<int>, x: int): seq<int> {
    if xs == [] then []
    else if xs[0] == x then xs[1..]
    else [xs[0]] + RemoveFirst(xs[1..], x)
  }

  predicate Distinct(xs: seq<int>) {
    forall i, j :: 0 <= i < j < |xs| ==> xs[i] != xs[j]
  }

  /** With distinct ids, taking out the first matching item leaves the items of the filtered list. */
  lemma {:induction false} RemoveFirstMatchesFilter(fs: seq<UploadedFile>, id: int)
    requires Distinct(Ids(fs))
    ensures RemoveFirst(Ids(fs), id) == Ids(WithoutId(fs, id))
  {
    if fs != [] {
      var rest := fs[1..];
      assert Ids(fs) == [fs[0].id] + Ids(rest);
      assert Distinct(Ids(rest)) by {
        forall i, j | 0 <= i < j < |rest|
          ensures Ids(rest)[i] != Ids(rest)[j]
        {
          assert Ids(fs)[i + 1] != Ids(fs)[j + 1];
        }
      }
      RemoveFirstMatchesFilter(rest, id);
      if fs[0].id == id {
        forall k | 0 <= k < |rest|
          ensures rest[k].id != id
        {
          assert Ids(fs)[0] != Ids(fs)[k + 1];
        }
        WithoutIdAbsent(rest, id);
      } else {
        assert Ids([fs[0]] + WithoutId(rest, id)) == [fs[0].id] + Ids(WithoutId(rest, id));
      }
    }
  }

  lemma {:induction false} WithoutIdAbsent(fs: seq<UploadedFile>, id: int)
    requires forall k :: 0 <= k < |fs| ==> fs[k].id != id
    ensures WithoutId(fs, id) == fs
  {
    if fs != [] {
      WithoutIdAbsent(fs[1..], id);
      assert fs == [fs[0]] + fs[1..];
    }
  }

  lemma {:induction false} RemoveFirstDistinct(xs: seq<int>, x: int)
    requires Distinct(xs)
    ensures Distinct(RemoveFirst(xs, x))
    ensures forall y :: y in RemoveFirst(xs, x) ==> y in xs
  {
    if xs != [] {
      var rest := xs[1..];
      assert Distinct(rest) by {
        forall i, j | 0 <= i < j < |rest|
          ensures rest[i] != rest[j]
        {
          assert xs[i + 1] != xs[j + 1];
        }
      }
      RemoveFirstDistinct(rest, x);
      if xs[0] != x {
        var r := [xs[0]] + RemoveFirst(rest, x);
        assert xs[0] !in rest by {
          forall k | 0 <= k < |rest|
            ensures rest[k] != xs[0]
          {
            assert xs[0] != xs[k + 1];
          }
        }
        forall i, j | 0 <= i < j < |r|
          ensures r[i] != r[j]
        {
          if i == 0 {
            assert r[j] in RemoveFirst(rest, x);
          }
        }
      }
    }
  }

  /** The separator between file texts in the text box. */
  const FileSeparator: string := "\n\n---\n\n"

  /** Why a request is not sent, each shown as its own alert: nothing to send, or fewer than 100 characters. */
  datatype InputAlert = NothingToSend | TooShort

  const MinRequestLength: nat := 100

  /**
   * The check in `generateVideo`: the trimmed text box, or else the file texts
   * joined (untrimmed); nothing to send or fewer than 100 characters aborts.
   */
  function RequestText(box: string, files: seq<UploadedFile>): (r: Result<string, InputAlert>)
    ensures r.Success? ==> |r.value| >= MinRequestLength
    ensures r.Success? && Strip(box) != [] ==> r.value == Strip(box)
    ensures r.Success? && Strip(box) == [] ==> files != [] && r.value == Join(Texts(files), FileSeparator)
    ensures r == Failure(NothingToSend) <==> Strip(box) == [] && (files == [] || Join(Texts(files), FileSeparator) == [])
    ensures r == Failure(TooShort) ==> 0 < |if Strip(box) != [] then Strip(box) else Join(Texts(files), FileSeparator)| < MinRequestLength
  {
    var text := if Strip(box) == [] && files != [] then Join(Texts(files), FileSeparator) else Strip(box);
    if text == [] then Failure(NothingToSend)
    else if |text| < MinRequestLength then Failure(TooShort)
    else Success(text)
  }

  /** Whatever is typed in the box wins over the uploaded files. */
  lemma TypedTextWins(box: string, files: seq<UploadedFile>, others: seq<UploadedFile>)
    requires |Strip(box)| >= MinRequestLength
    ensures RequestText(box, files) == RequestText(box, others) == Success(Strip(box))
  {
  }

  const GenericError: string := "An error occurred while generating the video."
  const ConnectionError: string := "Cannot connect to the backend server. Please make sure the Python backend is running on port 8000."
  const ServerError: string := "Server error occurred. Please check the backend logs and try again."

  /** `handleError`: the message shown for an error with the given message text. */
  function HandleError(message: string): (shown: string)
    ensures Contains(message, "Failed to fetch") ==> shown == ConnectionError
    ensures !Contains(message, "Failed to fetch") && Contains(message, "Server error") ==> shown == ServerError
    ensures !Contains(message, "Failed to fetch") && !Contains(message, "Server error") ==> shown == GenericError
  {
    if Contains(message, "Failed to fetch") then ConnectionError
    else if Contains(message, "Server error") then ServerError
    else GenericError
  }

  /** A non-OK response is reported as "Server error: <status>", which shows the server message. */
  lemma ServerStatusShowsServerMessage(status: string)
    requires forall i :: 0 <= i < |status| ==> '0' <= status[i] <= '9'
    ensures HandleError("Server error: " + status) == ServerError
  {
    var m := "Server error: " + status;
    assert "Server error" <= m;
    assert 'F' !in m by {
      assert forall i :: 0 <= i < |m| ==> m[i] != 'F' by {
        assert forall i :: 0 <= i < 14 ==> m[i] == "Server error: "[i];
        assert forall i :: 14 <= i < |m| ==> m[i] == status[i - 14];
      }
    }
    NotContainsFirst(m, "Failed to fetch");
  }

  /** A network failure ("Failed to fetch") shows the connection message. */
  lemma FetchFailureShowsConnectionMessage(prefix: string, suffix: string)
    ensures HandleError(prefix + "Failed to fetch" + suffix) == ConnectionError
  {
    FoundAfter(prefix, "Failed to fetch" + suffix, "Failed to fetch");
    assert prefix + "Failed to fetch" + suffix == prefix + ("Failed to fetch" + suffix);
  }

  lemma {:induction false} FoundAfter(prefix: string, s: string, p: string)
    requires p <= s
    ensures Contains(prefix + s, p)
  {
    if prefix == [] {
      assert prefix + s == s;
    } else {
      assert (prefix + s)[1..] == prefix[1..] + s;
      FoundAfter(prefix[1..], s, p);
    }
  }

  /**
   * The page's upload state: the uploaded files, the ids of the items shown
   * for them, the text box, whether the uploaded-files section is shown, and
   * the two input indicators.
   */
  class UploadPanel {
    var files: seq<UploadedFile>
    var items: seq<int>
    var textBox: string
    var sectionShown: bool
    var filesActive: bool
    var textActive: bool

    /** Every file has one item, in the same order, and ids are unique; the section shows exactly when there are files. */
    ghost predicate Valid()
      reads this
    {
      items == Ids(files) && Distinct(items) && (sectionShown <==> files != [])
    }

    constructor ()
      ensures Valid()
      ensures files == [] && textBox == ""
    {
      files := [];
      items := [];
      textBox := "";
      sectionShown := false;
      filesActive := false;
      textActive := false;
    }

    /**
     * `updateTextarea`: the file texts joined with the separator fill the box,
     * but only when the join is non-empty and the box is empty; then the
     * indicators are refreshed.
     */
    method UpdateTextarea()
      modifies this
      ensures var all := Join(Texts(old(files)), FileSeparator);
        textBox == (if all != [] && old(textBox) == [] then all else old(textBox))
      ensures files == old(files) && items == old(items) && sectionShown == old(sectionShown)
      ensures filesActive <==> files != []
      ensures textActive <==> Strip(textBox) != []
    {
      var all := Join(Texts(files), FileSeparator);
      if all != "" && textBox == "" {
        textBox := all;
      }
      filesActive := |files| > 0;
      textActive := |Strip(textBox)| > 0;
    }

    /** `processFile` after extraction, with `addFileToList`: append the file, show its item and the section. */
    method AddFile(f: UploadedFile)
      requires Valid() && f.id !in Ids(files)
      modifies this
      ensures Valid()
      ensures files == old(files) + [f]
      ensures var all := Join(Texts(files), FileSeparator);
        textBox == (if all != [] && old(textBox) == [] then all else old(textBox))
      ensures filesActive <==> files != []
      ensures textActive <==> Strip(textBox) != []
    {
      files := files + [f];
      items := items + [f.id];
      sectionShown := true;
      UpdateTextarea();
    }

    /**
     * `removeFile`: drop every file with the id, take its item off the page,
     * hide the section when no file is left, and refresh the text box.
     */
    method RemoveFile(id: int)
      requires Valid()
      modifies this
      ensures Valid()
      ensures files == WithoutId(old(files), id)
      ensures files == [] ==> !sectionShown
      ensures var all := Join(Texts(files), FileSeparator);
        textBox == (if all != [] && old(textBox) == [] then all else old(textBox))
      ensures filesActive <==> files != []
      ensures textActive <==> Strip(textBox) != []
    {
      RemoveFirstMatchesFilter(files, id);
      RemoveFirstDistinct(items, id);
      files := WithoutId(files, id);
      items := RemoveFirst(items, id);
      if |files| == 0 {
        sectionShown := false;
      }
      UpdateTextarea();
    }

    /** `generateVideo`'s check, on the page's current state. */
    method GenerateVideo() returns (r: Result<string, InputAlert>)
      ensures r == RequestText(textBox, files)
    {
      var text := Strip(textBox);
      if text == "" && |files| > 0 {
        text := Join(Texts(files), FileSeparator);
      }
      if text == "" {
        return Failure(NothingToSend);
      }
      if |text| < 100 {
        return Failure(TooShort);
      }
      return Success(text);
    }
  }
}
