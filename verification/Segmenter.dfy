/** Segmentation of a batch of submitted PDFs into processable units
    (`split_pdf_pages` and the splitting loop at the top of `process_tickets`).
    PDF bytes are not modelled: a document is its sequence of pages, and the
    PDF reader is reduced to "could the file be opened, and with which pages". */
module Segmenter {
  import opened Common
  import opened Strings

  /** One page of a PDF. `Stamped` is the page with the red "S" overlay that
      `stamp_pdf_with_s` merges onto it. */
  datatype Page = Page(content: seq<bv8>) | Stamped(under: Page)

  /** A submitted file: its name and, when the PDF reader can open it, its pages. */
  datatype Submission = Submission(filename: string, pdf: Option<seq<Page>>)

  /** A processable unit. `original` is the `original_filename` tag that split
      pages carry; a pass-through submission has none. */
  datatype Unit = Unit(filename: string, pages: seq<Page>, original: Option<string>)

  /** Outcome of segmenting a batch: the units in order, or the name of the
      first file the PDF reader could not open (the reader's exception aborts
      the whole batch). */
  datatype Segmentation = Units(units: seq<Unit>) | Malformed(filename: string)

  /** Index of the last occurrence of `c` in `s`, or -1 (`str.rfind`). */
  function LastIndexOf(s: string, c: char): (i: int)
    ensures -1 <= i < |s|
    ensures i >= 0 ==> s[i] == c
    ensures forall j :: i < j < |s| ==> s[j] != c
  {
    if |s| == 0 then -1
    else if s[|s| - 1] == c then |s| - 1
    else LastIndexOf(s[..|s| - 1], c)
  }

  /** `Path(path).name`: the last path component, ignoring empty and "."
      components. The result never holds a separator, and a bare file name is
      its own name. */
  function FileName(path: string): (name: string)
    ensures '/' !in name && name != "."
    ensures '/' !in path && path != "." ==> name == path
    decreases |path|
  {
    var i := LastIndexOf(path, '/');
    var last := path[i + 1..];
    assert '/' !in last by {
      forall j | 0 <= j < |last|
        ensures last[j] != '/'
      {
        assert last[j] == path[i + 1 + j];
      }
    }
    if i < 0 then (if last == "." then "" else last)
    else if last == "" || last == "." then FileName(path[..i])
    else last
  }

  /** The name of a file inside a directory is the file's own name. */
  lemma FileNameOfJoin(dir: string, name: string)
    requires name != "" && name != "." && '/' !in name
    ensures FileName(dir + "/" + name) == name
  {
    var path := dir + "/" + name;
    var i := LastIndexOf(path, '/');
    assert path[|dir|] == '/';
    assert path[i + 1..] == name;
  }

  /** `Path(path).stem`: the name without its last suffix; a leading dot or a
      trailing dot does not start a suffix. A name without a dot is its own
      stem. */
  function Stem(path: string): (stem: string)
    ensures stem <= FileName(path) && '/' !in stem
    ensures '.' !in FileName(path) ==> stem == FileName(path)
  {
    var name := FileName(path);
    var i := LastIndexOf(name, '.');
    assert forall j :: 0 <= j < i ==> name[..i][j] == name[j];
    if 0 < i < |name| - 1 then name[..i] else name
  }

  /** A name `<base>.<ext>`, with a non-empty base and a non-empty dot-free
      extension, has stem `<base>`. */
  lemma StemDropsSuffix(path: string, base: string, ext: string)
    requires FileName(path) == base + "." + ext
    requires base != "" && ext != "" && '.' !in ext
    ensures Stem(path) == base
  {
    var name := FileName(path);
    var i := LastIndexOf(name, '.');
    assert name[|base|] == '.';
    assert name[..|base|] == base;
  }

  /** Name of the k-th page (1-based) of a split submission:
      `f"{Path(filename).stem}_page{k}.pdf"`. */
  function PageName(filename: string, k: nat): string
  {
    Stem(filename) + "_page" + NatToString(k) + ".pdf"
  }

  /** A page name is a bare file name whose stem is the submission's stem
      followed by `_page<k>`. */
  lemma PageNameStem(filename: string, k: nat)
    ensures FileName(PageName(filename, k)) == PageName(filename, k)
    ensures Stem(PageName(filename, k)) == Stem(filename) + "_page" + NatToString(k)
  {
    var base := Stem(filename) + "_page" + NatToString(k);
    assert '/' !in NatToString(k) by {
      assert !IsDigit('/');
    }
    assert '/' !in base;
    assert PageName(filename, k) == base + "." + "pdf";
    StemDropsSuffix(PageName(filename, k), base, "pdf");
  }

  /** Pages of one submission never share a name. */
  lemma PageNamesDistinct(filename: string, j: nat, k: nat)
    requires j != k
    ensures PageName(filename, j) != PageName(filename, k)
  {
    var pre := Stem(filename) + "_page";
    var sj, sk := NatToString(j), NatToString(k);
    if PageName(filename, j) == PageName(filename, k) {
      assert |sj| == |sk|;
      assert sj == PageName(filename, j)[|pre|..|pre| + |sj|];
      assert sk == PageName(filename, k)[|pre|..|pre| + |sk|];
      NatToStringInjective(j, k);
    }
  }

  /** `split_pdf_pages`: one unit per page, in page order. */
  function SplitPages(pages: seq<Page>, filename: string): seq<Unit>
  {
    if pages == [] then []
    else SplitPages(pages[..|pages| - 1], filename)
         + [Unit(PageName(filename, |pages|), [pages[|pages| - 1]], Some(filename))]
  }

  /** The k-th unit of a split holds exactly the k-th page, is named
      `<stem>_page<k+1>.pdf` and carries the submission's name. */
  lemma {:induction false} SplitPagesAt(pages: seq<Page>, filename: string, k: nat)
    requires k < |pages|
    ensures |SplitPages(pages, filename)| == |pages|
    ensures SplitPages(pages, filename)[k] == Unit(PageName(filename, k + 1), [pages[k]], Some(filename))
  {
    var n := |pages| - 1;
    SplitPagesLength(pages[..n], filename);
    if k < n {
      SplitPagesAt(pages[..n], filename, k);
    }
  }

  lemma {:induction false} SplitPagesLength(pages: seq<Page>, filename: string)
    ensures |SplitPages(pages, filename)| == |pages|
  {
    if pages != [] {
      SplitPagesLength(pages[..|pages| - 1], filename);
    }
  }

  /** `split_pdf_pages(pdf_bytes, filename)`. */
  method SplitPdfPages(pages: seq<Page>, filename: string) returns (units: seq<Unit>)
    ensures units == SplitPages(pages, filename)
  {
    units := [];
    var stem := Stem(filename);
    for i := 0 to |pages|
      invariant units == SplitPages(pages[..i], filename)
    {
      assert pages[..i + 1][..i] == pages[..i];
      units := units + [Unit(stem + "_page" + NatToString(i + 1) + ".pdf", [pages[i]], Some(filename))];
    }
    assert pages[..|pages|] == pages;
  }

  /** The units one readable submission becomes: its pages split when it has
      more than one, the submission itself otherwise (also with zero pages). */
  function UnitsOf(filename: string, pages: seq<Page>): seq<Unit>
  {
    if |pages| > 1 then SplitPages(pages, filename) else [Unit(filename, pages, None)]
  }

  /** The splitting loop of `process_tickets`: the units of every submission, in
      submission order, or the first file the reader cannot open. */
  function Segment(files: seq<Submission>): Segmentation
  {
    if files == [] then Units([])
    else
      var last := files[|files| - 1];
      match Segment(files[..|files| - 1])
      case Malformed(f) => Malformed(f)
      case Units(us) =>
        match last.pdf
        case None => Malformed(last.filename)
        case Some(pages) => Units(us + UnitsOf(last.filename, pages))
  }

  /** All pages of a batch of readable submissions, in order. */
  function SubmittedPages(files: seq<Submission>): seq<Page>
  {
    if files == [] then []
    else SubmittedPages(files[..|files| - 1]) + files[|files| - 1].pdf.GetOr([])
  }

  /** All pages held by a sequence of units, in order. */
  function UnitPages(units: seq<Unit>): seq<Page>
  {
    if units == [] then [] else UnitPages(units[..|units| - 1]) + units[|units| - 1].pages
  }

  lemma {:induction false} UnitPagesAppend(us: seq<Unit>, vs: seq<Unit>)
    ensures UnitPages(us + vs) == UnitPages(us) + UnitPages(vs)
  {
    if vs == [] {
      assert us + vs == us;
    } else {
      var n := |vs| - 1;
      assert (us + vs)[..|us + vs| - 1] == us + vs[..n];
      UnitPagesAppend(us, vs[..n]);
    }
  }

  /** Re-concatenating the pages of a split gives back the document. */
  lemma SplitPagesRoundTrip(pages: seq<Page>, filename: string)
    ensures UnitPages(SplitPages(pages, filename)) == pages
  {
    var us := SplitPages(pages, filename);
    SplitPagesLength(pages, filename);
    forall i | 0 <= i < |us|
      ensures us[i].pages == [pages[i]]
    {
      SplitPagesAt(pages, filename, i);
    }
    SingletonPages(us, pages);
  }

  /** Units holding one page each hold, together, those pages in order. */
  lemma {:induction false} SingletonPages(us: seq<Unit>, pages: seq<Page>)
    requires |us| == |pages|
    requires forall i :: 0 <= i < |us| ==> us[i].pages == [pages[i]]
    ensures UnitPages(us) == pages
  {
    if us != [] {
      var n := |us| - 1;
      SingletonPages(us[..n], pages[..n]);
      assert pages[..n] + [pages[n]] == pages;
    }
  }

  /** Segmentation fails exactly when some file cannot be opened, and then names
      the first such file. */
  lemma SegmentFailsOnFirstMalformed(files: seq<Submission>)
    ensures Segment(files).Malformed? <==> exists i :: 0 <= i < |files| && files[i].pdf.None?
    ensures Segment(files).Malformed? ==>
      exists i :: 0 <= i < |files| && files[i].pdf.None? && Segment(files).filename == files[i].filename
                  && forall j :: 0 <= j < i ==> files[j].pdf.Some?
  {
    SegmentUnitsWhenReadable(files);
    SegmentNamesFirstMalformed(files);
  }

  /** Segmentation succeeds exactly when every file can be opened. */
  lemma {:induction false} SegmentUnitsWhenReadable(files: seq<Submission>)
    ensures Segment(files).Units? <==> forall i :: 0 <= i < |files| ==> files[i].pdf.Some?
  {
    if files != [] {
      var n := |files| - 1;
      SegmentUnitsWhenReadable(files[..n]);
      SegmentLast(files);
      ReadableStep(files);
    }
  }

  /** All files are readable exactly when all but the last are and the last is. */
  lemma ReadableStep(files: seq<Submission>)
    requires files != []
    ensures var n := |files| - 1;
            (forall i :: 0 <= i < |files| ==> files[i].pdf.Some?)
            <==> (forall i :: 0 <= i < n ==> files[..n][i].pdf.Some?) && files[n].pdf.Some?
  {
    var n := |files| - 1;
    assert forall i :: 0 <= i < n ==> files[..n][i] == files[i];
  }

  /** A failed segmentation names a file that cannot be opened, all files before
      it being readable. */
  lemma {:induction false} SegmentNamesFirstMalformed(files: seq<Submission>)
    ensures Segment(files).Malformed? ==>
      exists i :: 0 <= i < |files| && files[i].pdf.None? && Segment(files).filename == files[i].filename
                  && forall j :: 0 <= j < i ==> files[j].pdf.Some?
  {
    if files != [] {
      var n := |files| - 1;
      var prefix := files[..n];
      SegmentLast(files);
      if Segment(prefix).Malformed? {
        SegmentNamesFirstMalformed(prefix);
        var i :| 0 <= i < n && prefix[i].pdf.None? && Segment(prefix).filename == prefix[i].filename
                 && forall j :: 0 <= j < i ==> prefix[j].pdf.Some?;
        forall j | 0 <= j < i
          ensures files[j].pdf.Some?
        {
          assert prefix[j] == files[j];
        }
        assert prefix[i] == files[i];
      } else if files[n].pdf.None? {
        SegmentUnitsWhenReadable(prefix);
        forall j | 0 <= j < n
          ensures files[j].pdf.Some?
        {
          assert prefix[j] == files[j];
        }
      }
    }
  }

  /** Segmenting one more file: the batch fails when it failed before, naming the
      same file, or when the new file cannot be opened, naming that file. */
  lemma SegmentLast(files: seq<Submission>)
    requires files != []
    ensures var prefix, last := Segment(files[..|files| - 1]), files[|files| - 1];
            && (Segment(files).Malformed? <==> prefix.Malformed? || last.pdf.None?)
            && (prefix.Malformed? ==> Segment(files).filename == prefix.filename)
            && (prefix.Units? && last.pdf.None? ==> Segment(files).filename == last.filename)
  {
  }

  /** Segmenting and re-concatenating the units' pages reproduces the submitted
      pages, in submission order. */
  lemma {:induction false} SegmentRoundTrip(files: seq<Submission>)
    requires Segment(files).Units?
    ensures UnitPages(Segment(files).units) == SubmittedPages(files)
  {
    if files != [] {
      var n := |files| - 1;
      SegmentRoundTrip(files[..n]);
      var pages := files[n].pdf.value;
      var us := Segment(files[..n]).units;
      UnitPagesAppend(us, UnitsOf(files[n].filename, pages));
      if |pages| > 1 {
        SplitPagesRoundTrip(pages, files[n].filename);
      } else {
        assert UnitPages([Unit(files[n].filename, pages, None)]) == pages;
      }
    }
  }

  /** Segmentation is the in-order concatenation of each submission's units. */
  lemma {:induction false} SegmentIsConcat(files: seq<Submission>)
    requires forall i :: 0 <= i < |files| ==> files[i].pdf.Some?
    ensures Segment(files)
         == Units(Concat(seq(|files|, i requires 0 <= i < |files| => UnitsOf(files[i].filename, files[i].pdf.value))))
  {
    var parts := seq(|files|, i requires 0 <= i < |files| => UnitsOf(files[i].filename, files[i].pdf.value));
    if files != [] {
      var n := |files| - 1;
      var prefix := seq(n, i requires 0 <= i < n => UnitsOf(files[..n][i].filename, files[..n][i].pdf.value));
      SegmentIsConcat(files[..n]);
      assert parts[..n] == prefix;
      assert Concat(parts) == Concat(prefix) + parts[n];
      assert Segment(files) == Units(Segment(files[..n]).units + parts[n]);
    }
  }

  /** `split_files` loop of `process_tickets`. */
  method SplitSubmissions(files: seq<Submission>) returns (r: Segmentation)
    ensures r == Segment(files)
  {
    var units: seq<Unit> := [];
    for i := 0 to |files|
      invariant Segment(files[..i]) == Units(units)
    {
      assert files[..i + 1][..i] == files[..i];
      var f := files[i];
      if f.pdf.None? {
        SegmentMalformedPersists(files, i + 1);
        return Malformed(f.filename);
      }
      var pages := f.pdf.value;
      if |pages| > 1 {
        var split := SplitPdfPages(pages, f.filename);
        units := units + split;
      } else {
        units := units + [Unit(f.filename, pages, None)];
      }
    }
    assert files[..|files|] == files;
    r := Units(units);
  }

  /** Once a prefix of the batch fails to segment, the whole batch fails the same way. */
  lemma {:induction false} SegmentMalformedPersists(files: seq<Submission>, k: nat)
    requires k <= |files|
    requires Segment(files[..k]).Malformed?
    ensures Segment(files) == Segment(files[..k])
    decreases |files| - k
  {
    if k < |files| {
      assert files[..k + 1][..k] == files[..k];
      SegmentMalformedPersists(files, k + 1);
    } else {
      assert files[..k] == files;
    }
  }
}
