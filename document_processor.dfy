/** File validation, text extraction, splitting and previews
    (backend/app/services/document_processor.py). */
module DocumentProcessor {
  import opened Common
  import Config

  // ---------------------------------------------------------------------------
  // Path(filename).suffix

  /** Index of the last occurrence of `c` in `s`, or -1 (Python's `str.rfind`). */
  function LastIndexOf(s: string, c: char): (i: int)
    ensures -1 <= i < |s|
  {
    if |s| == 0 then -1
    else if s[|s| - 1] == c then |s| - 1
    else LastIndexOf(s[..|s| - 1], c)
  }

  /** The index found holds `c` and no later index does. */
  lemma {:induction false} LastIndexOfFacts(s: string, c: char)
    ensures var i := LastIndexOf(s, c);
            && (i >= 0 ==> s[i] == c)
            && (forall k :: i < k < |s| ==> s[k] != c)
  {
    if |s| > 0 && s[|s| - 1] != c {
      LastIndexOfFacts(s[..|s| - 1], c);
    }
  }

  /** `PurePosixPath(p).name`: the last component, where empty components (from repeated
      or trailing slashes) and `.` components are dropped by pathlib's normalisation. */
  function FinalComponent(p: string): (r: string)
    decreases |p|
  {
    var i := LastIndexOf(p, '/');
    var tail := p[i + 1..];
    if tail != "" && tail != "." then tail
    else if i < 0 then ""
    else FinalComponent(p[..i])
  }

  /** What follows the last slash holds no slash. */
  lemma AfterLastSlash(p: string, i: int, tail: string)
    requires i == LastIndexOf(p, '/') && tail == p[i + 1..]
    ensures forall k :: 0 <= k < |tail| ==> tail[k] != '/'
  {
    LastIndexOfFacts(p, '/');
    assert forall k :: 0 <= k < |tail| ==> tail[k] == p[i + 1 + k];
  }

  /** The final component holds no slash and is never `.`. */
  lemma {:induction false} FinalComponentShape(p: string)
    ensures var r := FinalComponent(p);
            (forall k :: 0 <= k < |r| ==> r[k] != '/') && r != "."
    decreases |p|
  {
    var i := LastIndexOf(p, '/');
    var tail := p[i + 1..];
    if tail != "" && tail != "." {
      AfterLastSlash(p, i, tail);
      assert FinalComponent(p) == tail;
    } else if i >= 0 {
      assert FinalComponent(p) == FinalComponent(p[..i]);
      FinalComponentShape(p[..i]);
    }
  }

  /** `PurePosixPath(p).suffix`: from the last dot of the name, provided that dot is neither
      the first nor the last character of the name; otherwise the empty string. */
  function Suffix(p: string): (r: string)
    ensures r == "" || (|r| >= 2 && r[0] == '.')
  {
    var name := FinalComponent(p);
    LastIndexOfFacts(name, '.');
    var i := LastIndexOf(name, '.');
    if 0 < i < |name| - 1 then name[i..] else ""
  }

  /** A non-empty suffix is a proper tail of the name that holds no slash and no dot after
      its leading one. */
  lemma SuffixShape(p: string)
    ensures var r := Suffix(p);
            && (forall k :: 0 <= k < |r| ==> r[k] != '/')
            && (forall k :: 1 <= k < |r| ==> r[k] != '.')
            && (r != "" ==> |r| < |FinalComponent(p)| && r == FinalComponent(p)[|FinalComponent(p)| - |r|..])
  {
    var name := FinalComponent(p);
    FinalComponentShape(p);
    LastIndexOfFacts(name, '.');
    var i := LastIndexOf(name, '.');
    if 0 < i < |name| - 1 {
      assert Suffix(p) == name[i..];
    }
  }

  /** An index holding `c` with no `c` after it is the one `LastIndexOf` finds. */
  lemma LastIndexOfIs(s: string, c: char, j: int)
    requires 0 <= j < |s| && s[j] == c
    requires forall k :: j < k < |s| ==> s[k] != c
    ensures LastIndexOf(s, c) == j
  {
    LastIndexOfFacts(s, c);
  }

  /** Without `c`, `LastIndexOf` finds nothing. */
  lemma LastIndexOfAbsent(s: string, c: char)
    requires forall k :: 0 <= k < |s| ==> s[k] != c
    ensures LastIndexOf(s, c) == -1
  {
    LastIndexOfFacts(s, c);
  }

  /** A name without slashes (other than "" and ".") is its own final component. */
  lemma WholeNameIsFinal(name: string)
    requires name != "" && name != "."
    requires forall k :: 0 <= k < |name| ==> name[k] != '/'
    ensures FinalComponent(name) == name
  {
    LastIndexOfAbsent(name, '/');
    assert name[0..] == name;
  }

  /** The characters of `stem.ext`: no slash, and a dot at `|stem|` with none after it. */
  lemma PlainNameChars(stem: string, ext: string)
    requires forall k :: 0 <= k < |stem| ==> stem[k] != '/'
    requires forall k :: 0 <= k < |ext| ==> ext[k] != '/' && ext[k] != '.'
    ensures var name := stem + "." + ext;
            && (forall k :: 0 <= k < |name| ==> name[k] != '/')
            && name[|stem|] == '.'
            && (forall k :: |stem| < k < |name| ==> name[k] != '.')
  {
    var name := stem + "." + ext;
    assert forall k :: 0 <= k < |stem| ==> name[k] == stem[k];
    assert forall k :: |stem| < k < |name| ==> name[k] == ext[k - |stem| - 1];
  }

  /** The suffix read off a known final component and its last dot. */
  lemma SuffixFrom(p: string, name: string, i: int)
    requires FinalComponent(p) == name && LastIndexOf(name, '.') == i
    ensures Suffix(p) == if 0 < i < |name| - 1 then name[i..] else ""
  {
  }

  /** In a name without slashes, a dot past the first character and before the last, with
      no dot after it, starts the suffix. */
  lemma SuffixAtLastDot(name: string, j: int)
    requires forall k :: 0 <= k < |name| ==> name[k] != '/'
    requires 0 < j < |name| - 1 && name[j] == '.'
    requires forall k :: j < k < |name| ==> name[k] != '.'
    ensures Suffix(name) == name[j..]
  {
    WholeNameIsFinal(name);
    LastIndexOfIs(name, '.', j);
    SuffixFrom(name, name, j);
  }

  /** A plain file name `stem.ext` has suffix `.ext`, whatever dots the stem holds. */
  lemma SuffixOfPlainName(stem: string, ext: string)
    requires stem != "" && ext != ""
    requires forall k :: 0 <= k < |stem| ==> stem[k] != '/'
    requires forall k :: 0 <= k < |ext| ==> ext[k] != '/' && ext[k] != '.'
    ensures Suffix(stem + "." + ext) == "." + ext
  {
    PlainNameChars(stem, ext);
    SuffixAtLastDot(stem + "." + ext, |stem|);
    assert (stem + "." + ext)[|stem|..] == "." + ext;
  }

  /** A name whose only dot is its first character (`.env`) has no suffix. */
  lemma NoSuffixForDotFile(rest: string)
    requires forall k :: 0 <= k < |rest| ==> rest[k] != '/' && rest[k] != '.'
    ensures Suffix("." + rest) == ""
  {
    var name := "." + rest;
    assert forall k :: 0 < k < |name| ==> name[k] == rest[k - 1];
    if rest == "" {
      LastIndexOfAbsent(name, '/');
      assert FinalComponent(name) == "";
    } else {
      WholeNameIsFinal(name);
      LastIndexOfIs(name, '.', 0);
    }
  }

  /** `Path(filename).suffix.lower()`: the extension stored as a document's `file_type`. */
  function FileExtension(filename: string): string
  {
    Lower(Suffix(filename))
  }

  // ---------------------------------------------------------------------------
  // validate_file

  function ExtensionRejection(ext: string): string
  {
    "File type '" + ext + "' not allowed. Allowed types: " + Config.AllowedExtensionsRepr
  }

  const SizeRejection: string :=
    "File size exceeds maximum allowed size of " + Config.MaxFileSizeMbRepr + "MB"

  /** `validate_file(filename, file_size)`: the extension is checked first, then the size.
      A file is accepted exactly when both checks pass, and every rejection says why. */
  function ValidateFile(filename: string, fileSize: int): (r: (bool, Option<string>))
    ensures r.0 <==> FileExtension(filename) in Config.AllowedExtensions && fileSize <= Config.MaxFileSize
    ensures r.0 <==> r.1 == None
    ensures FileExtension(filename) !in Config.AllowedExtensions ==>
              r.1 == Some(ExtensionRejection(FileExtension(filename)))
    ensures FileExtension(filename) in Config.AllowedExtensions && fileSize > Config.MaxFileSize ==>
              r.1 == Some(SizeRejection)
  {
    var ext := FileExtension(filename);
    if ext !in Config.AllowedExtensions then (false, Some(ExtensionRejection(ext)))
    else if fileSize > Config.MaxFileSize then (false, Some(SizeRejection))
    else (true, None)
  }

  lemma LowerAt(s: string, t: string)
    requires |s| == |t| && forall k :: 0 <= k < |s| ==> LowerChar(s[k]) == t[k]
    ensures Lower(s) == t
  {
    LowerAtIndex(s);
  }

  /** The extension of a plain file name `stem.ext` is `.ext` lower-cased. */
  lemma ExtensionOfPlainName(stem: string, ext: string)
    requires stem != "" && ext != ""
    requires forall k :: 0 <= k < |stem| ==> stem[k] != '/'
    requires forall k :: 0 <= k < |ext| ==> ext[k] != '/' && ext[k] != '.'
    ensures FileExtension(stem + "." + ext) == "." + Lower(ext)
  {
    SuffixOfPlainName(stem, ext);
    LowerAtIndex(ext);
    LowerAt("." + ext, "." + Lower(ext));
  }

  /** A non-empty file name stem without directory separators (`test`, `REPORT`). */
  predicate PlainStem(stem: string)
  {
    stem != "" && forall k :: 0 <= k < |stem| ==> stem[k] != '/'
  }

  /** The text after a name's last dot: non-empty, without dots or slashes (`txt`, `PDF`). */
  predicate PlainExt(ext: string)
  {
    ext != "" && forall k :: 0 <= k < |ext| ==> ext[k] != '/' && ext[k] != '.'
  }

  /** `stem.ext` with an allowed extension (in any case) is accepted at any size up to and
      including the limit. */
  lemma AcceptsAllowedType(stem: string, ext: string, size: int)
    requires PlainStem(stem) && PlainExt(ext)
    requires "." + Lower(ext) in Config.AllowedExtensions && size <= Config.MaxFileSize
    ensures ValidateFile(stem + "." + ext, size) == (true, None)
  {
    ExtensionOfPlainName(stem, ext);
  }

  /** `stem.ext` with any other extension is refused by its type, whatever its size, and the
      message names the lower-cased extension. */
  lemma RejectsOtherType(stem: string, ext: string, size: int)
    requires PlainStem(stem) && PlainExt(ext)
    requires "." + Lower(ext) !in Config.AllowedExtensions
    ensures ValidateFile(stem + "." + ext, size) == (false, Some(ExtensionRejection("." + Lower(ext))))
  {
    ExtensionOfPlainName(stem, ext);
  }

  /** An allowed type over the size limit is refused by its size. */
  lemma RejectsOversized(stem: string, ext: string, size: int)
    requires PlainStem(stem) && PlainExt(ext)
    requires "." + Lower(ext) in Config.AllowedExtensions && size > Config.MaxFileSize
    ensures ValidateFile(stem + "." + ext, size) == (false, Some(SizeRejection))
  {
    ExtensionOfPlainName(stem, ext);
  }

  /** Sample extensions: `txt` and `PDF` are allowed types (validation ignores case),
      `docx` is not. */
  lemma KnownTypes()
    ensures PlainExt("txt") && "." + Lower("txt") == ".txt" && ".txt" in Config.AllowedExtensions
    ensures PlainExt("PDF") && "." + Lower("PDF") == ".pdf" && ".pdf" in Config.AllowedExtensions
    ensures PlainExt("docx") && "." + Lower("docx") == ".docx" && ".docx" !in Config.AllowedExtensions
  {
    LowerAt("txt", "txt");
    LowerAt("PDF", "pdf");
    LowerAt("docx", "docx");
  }

  // ---------------------------------------------------------------------------
  // Previews and splitting

  const DefaultPreviewLength: nat := 500

  /** `get_content_preview(text, max_length)`. */
  function ContentPreview(text: string, maxLength: nat): (r: string)
    ensures |text| <= maxLength ==> r == text
    ensures |text| > maxLength ==> r == text[..maxLength] + "..."
    ensures |r| <= maxLength + 3
    ensures r[..if |text| <= maxLength then |text| else maxLength] <= text
  {
    if |text| <= maxLength then text else text[..maxLength] + "..."
  }

  /** The splitter (`RecursiveCharacterTextSplitter` with chunk size 1000 and overlap 200)
      is a library component; it is a parameter here. */
  type Splitter = string -> seq<string>

  /** `split_text(text)`: blank text gives no chunks and never reaches the splitter. */
  function SplitText(splitter: Splitter, text: string): (r: seq<string>)
    ensures IsBlank(text) ==> r == []
    ensures !IsBlank(text) ==> r == splitter(text)
  {
    StripShape(text);
    if Strip(text) == "" then [] else splitter(text)
  }

  // ---------------------------------------------------------------------------
  // Text extraction

  /** What decoding a stored file yields: `open(..., encoding='utf-8', errors='ignore')`
      never fails on content; `PdfReader` either fails with a message or gives the pages,
      each of which extracts to a text or fails with a message. */
  datatype Decoders = Decoders(
    utf8: seq<Byte> -> string,
    pdf: seq<Byte> -> Result<seq<Result<string, string>>, string>)

  /** The files saved under the upload directory, by path. */
  type Disk = map<string, seq<Byte>>

  function FileNotFound(path: string): string
  {
    "[Errno 2] No such file or directory: '" + path + "'"
  }

  function PdfFailure(e: string): string
  {
    "Failed to extract text from PDF: " + e
  }

  function UnsupportedType(fileType: string): string
  {
    "Unsupported file type: " + fileType
  }

  const PageSeparator: string := "\n\n"

  /** `_extract_text_from_txt`: the decoded content, stripped. */
  function TxtText(decoders: Decoders, disk: Disk, path: string): (r: Result<string, string>)
    ensures path !in disk ==> r == Failure(FileNotFound(path))
    ensures path in disk ==> r == Success(Strip(decoders.utf8(disk[path])))
  {
    if path in disk then Success(Strip(decoders.utf8(disk[path]))) else Failure(FileNotFound(path))
  }

  /** The first page whose extraction failed, scanning in page order. */
  function FirstPageError(pages: seq<Result<string, string>>): Option<string>
  {
    if pages == [] then None
    else if pages[0].Failure? then Some(pages[0].error)
    else FirstPageError(pages[1..])
  }

  /** The non-empty page texts, in page order (`if page_text: text_parts.append(...)`). */
  function PageTexts(pages: seq<Result<string, string>>): (r: seq<string>)
    ensures |r| <= |pages|
    ensures forall k :: 0 <= k < |r| ==> r[k] != ""
  {
    if pages == [] then []
    else
      var front := PageTexts(pages[..|pages| - 1]);
      var last := pages[|pages| - 1];
      if last.Success? && last.value != "" then front + [last.value] else front
  }

  /** The texts a single page contributes: its text when it extracted to a non-empty one. */
  function PageText(p: Result<string, string>): seq<string>
  {
    if p.Success? && p.value != "" then [p.value] else []
  }

  /** `PageTexts` is the filter that keeps the non-empty texts of successful pages: one page
      contributes its own text or nothing, and the pages of a concatenation contribute in
      order, the earlier pages' texts first. */
  lemma {:induction false} PageTextsFilter(p: seq<Result<string, string>>, q: seq<Result<string, string>>)
    ensures PageTexts(p + q) == PageTexts(p) + PageTexts(q)
    ensures |p| == 1 ==> PageTexts(p) == PageText(p[0])
    decreases |q|
  {
    if |p| == 1 {
      assert p[..0] == [];
    }
    if q == [] {
      assert p + q == p;
    } else {
      var front := q[..|q| - 1];
      PageTextsFilter(p, front);
      assert (p + q)[..|p + q| - 1] == p + front;
      assert (p + q)[|p + q| - 1] == q[|q| - 1];
    }
  }

  /** A text is kept exactly when some page extracted to it and it is not empty. */
  lemma {:induction false} PageTextsMembers(pages: seq<Result<string, string>>, t: string)
    ensures t in PageTexts(pages) <==> t != "" && exists k :: 0 <= k < |pages| && pages[k] == Success(t)
  {
    if pages != [] {
      var front := pages[..|pages| - 1];
      PageTextsMembers(front, t);
      if t != "" && (exists k :: 0 <= k < |pages| && pages[k] == Success(t)) {
        var k :| 0 <= k < |pages| && pages[k] == Success(t);
        if k < |pages| - 1 {
          assert front[k] == pages[k];
        }
      }
      if exists k :: 0 <= k < |front| && front[k] == Success(t) {
        var k :| 0 <= k < |front| && front[k] == Success(t);
        assert pages[k] == front[k];
      }
    }
  }

  /** The text of a PDF whose pages decoded as `pages`. */
  function PdfText(pages: seq<Result<string, string>>): Result<string, string>
  {
    match FirstPageError(pages)
    case Some(e) => Failure(PdfFailure(e))
    case None => Success(Strip(Join(PageSeparator, PageTexts(pages))))
  }

  lemma {:induction false} FirstPageErrorSnoc(pages: seq<Result<string, string>>, p: Result<string, string>)
    requires FirstPageError(pages) == None
    ensures FirstPageError(pages + [p]) == if p.Failure? then Some(p.error) else None
  {
    if pages != [] {
      assert (pages + [p])[1..] == pages[1..] + [p];
      FirstPageErrorSnoc(pages[1..], p);
    }
  }

  /** Failure happens exactly when some page fails, and then it reports the first failing
      page; otherwise every non-empty page is kept whole, in order, with one separator between
      neighbours, before the final strip. */
  lemma {:induction false} PdfTextShape(pages: seq<Result<string, string>>)
    ensures PdfText(pages).Failure? <==> exists k :: 0 <= k < |pages| && pages[k].Failure?
    ensures PdfText(pages).Failure? ==>
              exists k :: 0 <= k < |pages| && pages[k].Failure?
                && PdfText(pages).error == PdfFailure(pages[k].error)
                && forall j :: 0 <= j < k ==> pages[j].Success?
    ensures PdfText(pages).Success? ==> PdfText(pages).value == Strip(Join(PageSeparator, PageTexts(pages)))
    ensures PageTexts(pages) != [] ==>
              |Join(PageSeparator, PageTexts(pages))| ==
                SumLengths(PageTexts(pages)) + (|PageTexts(pages)| - 1) * |PageSeparator|
  {
    FirstPageErrorShape(pages);
    if PageTexts(pages) != [] {
      JoinLength(PageSeparator, PageTexts(pages));
    }
  }

  lemma {:induction false} FirstPageErrorShape(pages: seq<Result<string, string>>)
    ensures FirstPageError(pages).None? <==> forall k :: 0 <= k < |pages| ==> pages[k].Success?
    ensures FirstPageError(pages).Some? ==>
              exists k :: 0 <= k < |pages| && pages[k].Failure?
                && FirstPageError(pages).value == pages[k].error
                && forall j :: 0 <= j < k ==> pages[j].Success?
  {
    if pages != [] && pages[0].Success? {
      FirstPageErrorShape(pages[1..]);
      if FirstPageError(pages[1..]).Some? {
        var k :| 0 <= k < |pages[1..]| && pages[1..][k].Failure?
                && FirstPageError(pages[1..]).value == pages[1..][k].error
                && forall j :: 0 <= j < k ==> pages[1..][j].Success?;
        assert pages[k + 1] == pages[1..][k];
        forall j | 0 <= j < k + 1 ensures pages[j].Success? {
          if j > 0 { assert pages[j] == pages[1..][j - 1]; }
        }
      } else {
        forall k | 0 <= k < |pages| ensures pages[k].Success? {
          if k > 0 { assert pages[k] == pages[1..][k - 1]; }
        }
      }
    }
  }

  /** `_extract_text_from_pdf` on the pages `PdfReader` produced. */
  method ExtractTextFromPdf(pages: seq<Result<string, string>>) returns (r: Result<string, string>)
    ensures r == PdfText(pages)
  {
    var parts: seq<string> := [];
    var i := 0;
    while i < |pages|
      invariant 0 <= i <= |pages|
      invariant FirstPageError(pages[..i]) == None
      invariant parts == PageTexts(pages[..i])
    {
      assert pages[..i + 1] == pages[..i] + [pages[i]];
      FirstPageErrorSnoc(pages[..i], pages[i]);
      match pages[i]
      case Failure(e) =>
        FailureStops(pages, i);
        return Failure(PdfFailure(e));
      case Success(t) =>
        assert pages[..i + 1][..i] == pages[..i];
        if t != "" {
          parts := parts + [t];
        }
      i := i + 1;
    }
    assert pages[..i] == pages;
    r := Success(Strip(Join(PageSeparator, parts)));
  }

  lemma {:induction false} FailureStops(pages: seq<Result<string, string>>, i: nat)
    requires i < |pages| && pages[i].Failure?
    requires FirstPageError(pages[..i]) == None
    ensures FirstPageError(pages) == Some(pages[i].error)
  {
    if i > 0 {
      assert pages[..i][1..] == pages[1..][..i - 1];
      FailureStops(pages[1..], i - 1);
    }
  }

  /** `extract_text(file_path, file_type)`: dispatch on the lower-cased type; `.txt` and
      `.pdf` are read from the stored file, every other type raises. Extracted text is
      always stripped. */
  function ExtractedText(decoders: Decoders, disk: Disk, path: string, fileType: string): (r: Result<string, string>)
    ensures Lower(fileType) == ".txt" ==> r == TxtText(decoders, disk, path)
    ensures Lower(fileType) == ".pdf" && path !in disk ==> r == Failure(PdfFailure(FileNotFound(path)))
    ensures Lower(fileType) == ".pdf" && path in disk ==>
              r == match decoders.pdf(disk[path])
                   case Failure(e) => Failure(PdfFailure(e))
                   case Success(pages) => PdfText(pages)
    ensures Lower(fileType) != ".txt" && Lower(fileType) != ".pdf" ==>
              r == Failure(UnsupportedType(Lower(fileType)))
    ensures r.Success? ==> Strip(r.value) == r.value
  {
    var ft := Lower(fileType);
    if ft == ".txt" then
      if path in disk then StripIdempotent(decoders.utf8(disk[path])); TxtText(decoders, disk, path)
      else TxtText(decoders, disk, path)
    else if ft == ".pdf" then
      if path !in disk then Failure(PdfFailure(FileNotFound(path)))
      else
        match decoders.pdf(disk[path])
        case Failure(e) => Failure(PdfFailure(e))
        case Success(pages) =>
          StripIdempotent(Join(PageSeparator, PageTexts(pages)));
          PdfText(pages)
    else Failure(UnsupportedType(ft))
  }

  /** `extract_text(file_path, file_type)`. */
  method ExtractText(decoders: Decoders, disk: Disk, path: string, fileType: string)
    returns (r: Result<string, string>)
    ensures r == ExtractedText(decoders, disk, path, fileType)
  {
    var ft := Lower(fileType);
    if ft == ".txt" {
      r := TxtText(decoders, disk, path);
    } else if ft == ".pdf" {
      if path !in disk {
        r := Failure(PdfFailure(FileNotFound(path)));
      } else {
        match decoders.pdf(disk[path])
        case Failure(e) =>
          r := Failure(PdfFailure(e));
        case Success(pages) =>
          r := ExtractTextFromPdf(pages);
      }
    } else {
      r := Failure(UnsupportedType(ft));
    }
  }

  // ---------------------------------------------------------------------------
  // Saving and deleting stored files

  /** `os.path.join(UPLOAD_DIR, name)`. */
  function StoredPath(name: string): string
  {
    Config.UploadDir + "/" + name
  }

  /** `save_file(content, original_filename)`, given the `uuid4().hex` it draws: the stored
      name is that id followed by the lower-cased suffix of the original name, and the
      content is written under the upload directory. Returns the name, the path and the
      disk afterwards. */
  function SaveFile(disk: Disk, content: seq<Byte>, hex: string, originalFilename: string)
    : (r: (string, string, Disk))
    ensures hex <= r.0 && r.0[|hex|..] == FileExtension(originalFilename)
    ensures r.1 == StoredPath(r.0)
    ensures r.1 in r.2 && r.2[r.1] == content
    ensures forall p :: p != r.1 ==> (p in r.2 <==> p in disk) && (p in disk ==> r.2[p] == disk[p])
  {
    var name := hex + FileExtension(originalFilename);
    var path := StoredPath(name);
    (name, path, disk[path := content])
  }

  lemma LowerKeepsDotsAndSlashes(s: string)
    ensures forall k :: 0 <= k < |s| ==> (Lower(s)[k] == '.' <==> s[k] == '.')
    ensures forall k :: 0 <= k < |s| ==> (Lower(s)[k] == '/' <==> s[k] == '/')
  {
    LowerAtIndex(s);
  }

  /** A name without dots or slashes has no suffix. */
  lemma NoSuffixWithoutDot(name: string)
    requires forall k :: 0 <= k < |name| ==> name[k] != '/' && name[k] != '.'
    ensures Suffix(name) == ""
  {
    LastIndexOfFacts(name, '/');
    LastIndexOfFacts(name, '.');
    assert LastIndexOf(name, '/') == -1;
    if name != "" {
      assert name != "." by { assert name[0] != '.'; }
      assert FinalComponent(name) == name;
    }
    assert LastIndexOf(FinalComponent(name), '.') == -1;
  }

  /** A file extension is empty, or a dot followed by at least one character that is neither
      a dot nor a slash; lower-casing it again changes nothing. */
  lemma ExtensionShape(filename: string)
    ensures var ext := FileExtension(filename);
            && Lower(ext) == ext
            && (ext == "" || (|ext| >= 2 && ext[0] == '.' && PlainExt(ext[1..])))
  {
    var suffix := Suffix(filename);
    SuffixShape(filename);
    LowerKeepsDotsAndSlashes(suffix);
    LowerIdempotent(suffix);
    var ext := Lower(suffix);
    if ext != "" {
      assert forall k :: 0 <= k < |ext| - 1 ==> ext[1..][k] == ext[k + 1];
    }
  }

  /** Appending an extension (empty, or a dot and a lower-case plain part) to a name without
      dots or slashes gives a name with that extension. */
  lemma ExtensionAfterPlainName(hex: string, ext: string)
    requires PlainExt(hex) && Lower(ext) == ext
    requires ext == "" || (|ext| >= 2 && ext[0] == '.' && PlainExt(ext[1..]))
    ensures FileExtension(hex + ext) == ext
  {
    if ext == "" {
      assert hex + ext == hex;
      NoSuffixWithoutDot(hex);
    } else {
      var le := ext[1..];
      assert ext == "." + le;
      assert Lower(le) == le by {
        LowerAtIndex(ext);
        LowerAtIndex(le);
        assert forall k :: 0 <= k < |le| ==> Lower(le)[k] == Lower(ext)[k + 1];
      }
      ExtensionOfPlainName(hex, le);
      assert hex + ext == hex + "." + le;
    }
  }

  /** The stored name has the same type as the uploaded one: a `uuid4().hex` holds no dot
      or slash, so the suffix of `hex + ext` is `ext`. */
  lemma StoredNameKeepsType(disk: Disk, content: seq<Byte>, hex: string, originalFilename: string)
    requires PlainExt(hex)
    ensures FileExtension(SaveFile(disk, content, hex, originalFilename).0) == FileExtension(originalFilename)
  {
    var ext := FileExtension(originalFilename);
    ExtensionShape(originalFilename);
    ExtensionAfterPlainName(hex, ext);
  }

  /** `delete_file(file_path)`: removes the file when it exists and reports success either
      way. */
  function DeleteFile(disk: Disk, path: string): (r: (Disk, bool))
    ensures path !in r.0 && r.1
    ensures forall p :: p != path ==> (p in r.0 <==> p in disk) && (p in disk ==> r.0[p] == disk[p])
  {
    (if path in disk then disk - {path} else disk, true)
  }

  /** Deleting what was just saved leaves the disk as it was, minus that path. */
  lemma DeleteAfterSave(disk: Disk, content: seq<Byte>, hex: string, originalFilename: string)
    ensures var (_, path, saved) := SaveFile(disk, content, hex, originalFilename);
            DeleteFile(saved, path).0 == DeleteFile(disk, path).0
  {
  }
}
