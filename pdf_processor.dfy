/**
 * The PDF processor: choosing the PDF files of a directory listing, and
 * turning a document's page texts into one text.
 *
 * The directory listing and the PDF reader are not modelled: `os.listdir`'s
 * outcome and the per-page outcomes of `page.extract_text()` are inputs.
 */
module PdfProcessing {
  import opened Wrappers
  import Paths
  import Sequences

  /** ASCII case folding; no other character lower-cases to `.`, `p`, `d` or `f`. */
  function LowerChar(c: char): char
  {
    if 'A' <= c <= 'Z' then (c as int + 32) as char else c
  }

  function Lower(s: string): (r: string)
    ensures |r| == |s| && forall i :: 0 <= i < |s| ==> r[i] == LowerChar(s[i])
  {
    seq(|s|, i requires 0 <= i < |s| => LowerChar(s[i]))
  }

  predicate EndsWith(s: string, suffix: string)
  {
    |suffix| <= |s| && s[|s| - |suffix|..] == suffix
  }

  /** `name.lower().endswith('.pdf')`. */
  predicate IsPdfName(name: string)
  {
    EndsWith(Lower(name), ".pdf")
  }

  /** The test reads the last four characters only, ignoring ASCII case. */
  lemma PdfNameIff(name: string)
    ensures IsPdfName(name) <==>
      |name| >= 4 && name[|name| - 4] == '.' && LowerChar(name[|name| - 3]) == 'p' &&
      LowerChar(name[|name| - 2]) == 'd' && LowerChar(name[|name| - 1]) == 'f'
  {
    var n := |name|;
    if n >= 4 {
      var tail := Lower(name)[n - 4..];
      assert tail == [LowerChar(name[n - 4]), LowerChar(name[n - 3]), LowerChar(name[n - 2]), LowerChar(name[n - 1])];
      assert LowerChar(name[n - 4]) == '.' <==> name[n - 4] == '.';
    }
  }

  /** `X.PDF` is kept and `x.txt` is dropped. */
  lemma PdfNameExamples()
    ensures IsPdfName("X.PDF") && IsPdfName("report.Pdf")
    ensures !IsPdfName("x.txt") && !IsPdfName("pdf")
  {
    PdfNameIff("X.PDF");
    PdfNameIff("report.Pdf");
    PdfNameIff("x.txt");
    PdfNameIff("pdf");
  }

  /** The paths `get_pdf_files` collects from the listing `names`, in order. */
  function PdfPathsOf(dir: string, names: seq<string>): seq<string>
  {
    if names == [] then []
    else
      var last := names[|names| - 1];
      PdfPathsOf(dir, names[..|names| - 1]) + (if IsPdfName(last) then [Paths.Join(dir, last)] else [])
  }

  /** `get_pdf_files` for a listing outcome: `None` stands for `os.listdir` raising. */
  function PdfPaths(dir: string, listing: Option<seq<string>>): seq<string>
  {
    if listing.None? then [] else PdfPathsOf(dir, listing.value)
  }

  /** Selection distributes over concatenation of listings: the result keeps
      listing order. */
  lemma {:induction false} PdfPathsOfAppend(dir: string, a: seq<string>, b: seq<string>)
    ensures PdfPathsOf(dir, a + b) == PdfPathsOf(dir, a) + PdfPathsOf(dir, b)
    decreases |b|
  {
    if b == [] {
      assert a + b == a;
    } else {
      var b' := b[..|b| - 1];
      assert (a + b)[..|a + b| - 1] == a + b';
      assert (a + b)[|a + b| - 1] == b[|b| - 1];
      PdfPathsOfAppend(dir, a, b');
    }
  }

  /** One entry contributes its joined path exactly when its name is a PDF name. */
  lemma PdfPathsOfSingle(dir: string, name: string)
    ensures PdfPathsOf(dir, [name]) == if IsPdfName(name) then [Paths.Join(dir, name)] else []
  {
    assert [name][..0] == [];
  }

  /** A path is returned exactly when some listed PDF name joins to it. */
  lemma {:induction false} PdfPathsOfMembership(dir: string, names: seq<string>, path: string)
    ensures path in PdfPathsOf(dir, names) <==>
      exists i :: 0 <= i < |names| && IsPdfName(names[i]) && path == Paths.Join(dir, names[i])
  {
    if names != [] {
      var init := names[..|names| - 1];
      PdfPathsOfMembership(dir, init, path);
      assert forall i :: 0 <= i < |init| ==> init[i] == names[i];
    }
  }

  /** No more paths than listed entries. */
  lemma {:induction false} PdfPathsOfLength(dir: string, names: seq<string>)
    ensures |PdfPathsOf(dir, names)| <= |names|
  {
    if names != [] {
      PdfPathsOfLength(dir, names[..|names| - 1]);
    }
  }

  /** For a real listing (plain names, no `/`), the basename of every returned
      path is a listed PDF name. */
  lemma PdfPathBasename(dir: string, names: seq<string>, path: string)
    requires forall i :: 0 <= i < |names| ==> '/' !in names[i]
    requires path in PdfPathsOf(dir, names)
    ensures Paths.Basename(path) in names && IsPdfName(Paths.Basename(path))
  {
    PdfPathsOfMembership(dir, names, path);
    var i :| 0 <= i < |names| && IsPdfName(names[i]) && path == Paths.Join(dir, names[i]);
    Paths.BasenameOfJoin(dir, names[i]);
  }

  /** What `page.extract_text()` gives for one page: `None`, a text, or an exception. */
  datatype PageText = NoText | Text(s: string) | Raises

  /** The PDF to read: one that `PdfReader` cannot open, or its pages. */
  datatype PdfDocument = Unreadable | Document(pages: seq<PageText>)

  /** What page `p` adds to the text: its text and a newline, if the text is
      non-empty (`if page_text:`). */
  function PageContribution(p: PageText): string
  {
    if p.Text? && p.s != "" then p.s + "\n" else ""
  }

  /** The accumulated text of `pages`, in page order. */
  function PagesText(pages: seq<PageText>): string
  {
    if pages == [] then ""
    else PagesText(pages[..|pages| - 1]) + PageContribution(pages[|pages| - 1])
  }

  /** Some page's `extract_text()` raises. */
  predicate AnyPageRaises(pages: seq<PageText>)
  {
    exists i :: 0 <= i < |pages| && pages[i].Raises?
  }

  /** The page loop: the accumulated text, or `None` once a page raises. */
  function ReadPages(pages: seq<PageText>): Option<string>
  {
    if pages == [] then Some("")
    else
      match ReadPages(pages[..|pages| - 1])
      case None => None
      case Some(text) =>
        if pages[|pages| - 1].Raises? then None else Some(text + PageContribution(pages[|pages| - 1]))
  }

  /** `extract_text_from_pdf` as a value: the text (empty on any exception) and
      the file's basename. */
  function Extraction(pdfPath: string, doc: PdfDocument): (string, string)
  {
    var text :=
      match doc
      case Unreadable => ""
      case Document(pages) => (match ReadPages(pages) case None => "" case Some(t) => t);
    (text, Paths.Basename(pdfPath))
  }

  /** The page loop fails exactly when some page raises, and otherwise reads
      the text of all pages. */
  lemma {:induction false} ReadPagesSpec(pages: seq<PageText>)
    ensures ReadPages(pages) == if AnyPageRaises(pages) then None else Some(PagesText(pages))
  {
    if pages != [] {
      var init, last := pages[..|pages| - 1], pages[|pages| - 1];
      ReadPagesSpec(init);
      if AnyPageRaises(init) {
        var i :| 0 <= i < |init| && init[i].Raises?;
        assert pages[i].Raises?;
      } else if !last.Raises? {
        assert !AnyPageRaises(pages) by {
          forall i | 0 <= i < |pages|
            ensures !pages[i].Raises?
          {
            if i < |init| {
              assert pages[i] == init[i];
            }
          }
        }
      }
    }
  }

  /** The extracted text is empty when the file cannot be read or any page
      raises, and is the pages' text otherwise; the name is the basename. */
  lemma ExtractionSpec(pdfPath: string, doc: PdfDocument)
    ensures Extraction(pdfPath, doc).1 == Paths.Basename(pdfPath)
    ensures Extraction(pdfPath, doc).0 ==
      if doc.Unreadable? || AnyPageRaises(doc.pages) then "" else PagesText(doc.pages)
  {
    if doc.Document? {
      ReadPagesSpec(doc.pages);
    }
  }

  lemma {:induction false} PagesTextAppend(a: seq<PageText>, b: seq<PageText>)
    ensures PagesText(a + b) == PagesText(a) + PagesText(b)
    decreases |b|
  {
    if b == [] {
      assert a + b == a;
    } else {
      var b', last := b[..|b| - 1], b[|b| - 1];
      Sequences.DropLastOfAppend(a, b);
      PagesTextAppend(a, b');
      Sequences.AppendAssoc(PagesText(a), PagesText(b'), PageContribution(last));
    }
  }

  /** Reading one more page: the page's contribution is appended, or the
      loop fails if the page raises. */
  lemma ReadPagesStep(pages: seq<PageText>, i: nat)
    requires i < |pages|
    ensures ReadPages(pages[..i + 1]) ==
      match ReadPages(pages[..i])
      case None => None
      case Some(text) => if pages[i].Raises? then None else Some(text + PageContribution(pages[i]))
  {
    assert pages[..i + 1][..i] == pages[..i];
  }

  /** A raising page in a prefix makes the whole page loop fail. */
  lemma ReadPagesFailsFromPrefix(pages: seq<PageText>, n: nat)
    requires n <= |pages| && ReadPages(pages[..n]).None?
    ensures ReadPages(pages).None?
  {
    ReadPagesSpec(pages[..n]);
    var i :| 0 <= i < n && pages[..n][i].Raises?;
    assert pages[i].Raises?;
    ReadPagesSpec(pages);
  }

  /** The text is empty exactly when no page has a non-empty text. */
  lemma {:induction false} PagesTextEmptyIff(pages: seq<PageText>)
    ensures PagesText(pages) == "" <==> forall i :: 0 <= i < |pages| ==> PageContribution(pages[i]) == ""
  {
    if pages != [] {
      var init, last := pages[..|pages| - 1], pages[|pages| - 1];
      PagesTextEmptyIff(init);
      assert |PagesText(pages)| == |PagesText(init)| + |PageContribution(last)|;
      if PagesText(pages) == "" {
        assert |PagesText(init)| == 0 && |PageContribution(last)| == 0;
        forall i | 0 <= i < |pages|
          ensures PageContribution(pages[i]) == ""
        {
          if i < |init| {
            assert pages[i] == init[i];
          } else {
            assert pages[i] == last;
          }
        }
      } else if PagesText(init) != "" {
        var i :| 0 <= i < |init| && PageContribution(init[i]) != "";
        assert pages[i] == init[i];
      }
    }
  }

  /** A non-empty text ends with the newline of its last contributing page. */
  lemma {:induction false} PagesTextEndsWithNewline(pages: seq<PageText>)
    requires PagesText(pages) != ""
    ensures PagesText(pages)[|PagesText(pages)| - 1] == '\n'
  {
    var init := pages[..|pages| - 1];
    if PageContribution(pages[|pages| - 1]) == "" {
      PagesTextEndsWithNewline(init);
    }
  }

  /** The PDF processor of one directory. */
  class PdfProcessor {
    const pdfDir: string

    constructor(pdfDir: string)
      ensures this.pdfDir == pdfDir
    {
      this.pdfDir := pdfDir;
    }

    /** `get_pdf_files`: `listing` is `os.listdir(pdf_dir)`, `None` when it raises. */
    method GetPdfFiles(listing: Option<seq<string>>) returns (pdfFiles: seq<string>)
      ensures pdfFiles == PdfPaths(pdfDir, listing)
    {
      if listing.None? {
        return [];
      }
      var names := listing.value;
      pdfFiles := [];
      for i := 0 to |names|
        invariant pdfFiles == PdfPathsOf(pdfDir, names[..i])
      {
        assert names[..i + 1][..i] == names[..i];
        if IsPdfName(names[i]) {
          pdfFiles := pdfFiles + [Paths.Join(pdfDir, names[i])];
        }
      }
      assert names[..|names|] == names;
    }

    /** `extract_text_from_pdf`: the text of the document's pages and the
        file's basename; `("", basename)` when the reader raises. */
    method ExtractTextFromPdf(pdfPath: string, doc: PdfDocument) returns (text: string, pdfFilename: string)
      ensures (text, pdfFilename) == Extraction(pdfPath, doc)
    {
      pdfFilename := Paths.Basename(pdfPath);
      if doc.Unreadable? {
        return "", pdfFilename;
      }
      var pages := doc.pages;
      text := "";
      for i := 0 to |pages|
        invariant ReadPages(pages[..i]) == Some(text)
      {
        var page := pages[i];
        ReadPagesStep(pages, i);
        if page.Raises? {
          ReadPagesFailsFromPrefix(pages, i + 1);
          return "", pdfFilename;
        }
        if page.Text? && page.s != "" {
          var pageText := page.s;
          Sequences.AppendAssoc(text, pageText, "\n");
          text := text + pageText + "\n";
        } else {
          Sequences.AppendEmpty(text);
        }
      }
      Sequences.TakeAll(pages);
    }
  }
}
