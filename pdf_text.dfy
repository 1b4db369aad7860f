/**
 * Text assembly of modules/pdf_parser.py: the per-page texts of a PDF joined with
 * newlines, or the OCR output when that join holds no visible character.
 *
 * Page decoding (pdfplumber) and OCR are not modelled: they are the two functions
 * of a `PdfBackend`.
 */
module PdfText {
  import opened Wrappers
  import opened PyText

  type Bytes = seq<bv8>

  /** What pdfplumber's `page.extract_text()` gives for each page, in page order. */
  type Pages = seq<Option<string>>

  /** The two collaborators of the parser: page decoding and the OCR fallback. */
  datatype PdfBackend = PdfBackend(pages: Bytes -> Pages, ocr: Bytes -> string)

  /** `page.extract_text() or ""`. */
  function PageText(page: Option<string>): string {
    page.GetOr("")
  }

  /** The `texts` list built by the page loop. */
  function PageTexts(pages: Pages): seq<string> {
    seq(|pages|, i requires 0 <= i < |pages| => PageText(pages[i]))
  }

  /** `"\n".join(texts)`. */
  function Combined(pages: Pages): string {
    Join(PageTexts(pages), "\n")
  }

  /** What `extract_text` returns for `pdf`. */
  function ParsedText(backend: PdfBackend, pdf: Bytes): string {
    var combined := Combined(backend.pages(pdf));
    if Strip(combined) == "" then backend.ocr(pdf) else combined
  }

  /** A page yields visible text. */
  predicate HasText(page: Option<string>) {
    !Blank(PageText(page))
  }

  /**
   * The OCR output is returned exactly when no page yields a visible character
   * (this includes a PDF with no pages, and pages whose text is `None`); otherwise
   * the result is the page texts joined with newlines.
   */
  lemma OcrIffNoPageHasText(backend: PdfBackend, pdf: Bytes)
    ensures (forall i :: 0 <= i < |backend.pages(pdf)| ==> !HasText(backend.pages(pdf)[i]))
        ==> ParsedText(backend, pdf) == backend.ocr(pdf)
    ensures (exists i :: 0 <= i < |backend.pages(pdf)| && HasText(backend.pages(pdf)[i]))
        ==> ParsedText(backend, pdf) == Combined(backend.pages(pdf))
  {
    var pages := backend.pages(pdf);
    var texts := PageTexts(pages);
    assert Blank("\n");
    JoinBlankIffAllBlank(texts, "\n");
    StripEmptyIffBlank(Combined(pages));
    if exists i :: 0 <= i < |pages| && HasText(pages[i]) {
      var i :| 0 <= i < |pages| && HasText(pages[i]);
      assert !Blank(texts[i]);
    }
  }

  /** Every page's text sits at its offset in the joined text, empty pages included. */
  lemma CombinedKeepsEveryPage(pages: Pages, i: nat)
    requires i < |pages|
    ensures var o := Offset(PageTexts(pages), "\n", i);
      o + |PageText(pages[i])| <= |Combined(pages)|
      && Combined(pages)[o..o + |PageText(pages[i])|] == PageText(pages[i])
  {
    JoinContainsPart(PageTexts(pages), "\n", i);
  }

  /** When some page has text, the result is the joined page texts. */
  lemma TextIsCombined(backend: PdfBackend, pdf: Bytes, k: nat)
    requires k < |backend.pages(pdf)| && HasText(backend.pages(pdf)[k])
    ensures ParsedText(backend, pdf) == Combined(backend.pages(pdf))
  {
    OcrIffNoPageHasText(backend, pdf);
  }

  /**
   * When some page has text, the result is as long as all page texts together plus
   * one separator between each two pages, empty pages included.
   */
  lemma TextLength(backend: PdfBackend, pdf: Bytes, k: nat)
    requires k < |backend.pages(pdf)| && HasText(backend.pages(pdf)[k])
    ensures |ParsedText(backend, pdf)| == TotalLength(PageTexts(backend.pages(pdf))) + |backend.pages(pdf)| - 1
  {
    TextIsCombined(backend, pdf, k);
    JoinLength(PageTexts(backend.pages(pdf)), "\n");
  }

  /** When some page has text, every page's text appears in the result, in page order. */
  lemma TextKeepsEveryPage(backend: PdfBackend, pdf: Bytes, k: nat, i: nat)
    requires k < |backend.pages(pdf)| && HasText(backend.pages(pdf)[k])
    requires i < |backend.pages(pdf)|
    ensures var o := Offset(PageTexts(backend.pages(pdf)), "\n", i);
      o + |PageText(backend.pages(pdf)[i])| <= |ParsedText(backend, pdf)|
      && ParsedText(backend, pdf)[o..o + |PageText(backend.pages(pdf)[i])|] == PageText(backend.pages(pdf)[i])
  {
    TextIsCombined(backend, pdf, k);
    CombinedKeepsEveryPage(backend.pages(pdf), i);
  }

  /** The shipped `_ocr_extract`, a placeholder that recognises nothing. */
  function OcrExtract(pdf: Bytes): (text: string)
    ensures text == ""
  {
    ""
  }

  /** With the shipped OCR stub, a PDF without a text layer yields `""` and no error. */
  lemma StubOcrYieldsEmpty(pages: Bytes -> Pages, pdf: Bytes)
    requires forall i :: 0 <= i < |pages(pdf)| ==> !HasText(pages(pdf)[i])
    ensures ParsedText(PdfBackend(pages, OcrExtract), pdf) == ""
  {
    OcrIffNoPageHasText(PdfBackend(pages, OcrExtract), pdf);
  }

  /** `extract_text`: collects the page texts, joins them, falls back to OCR on blank text. */
  method ExtractText(backend: PdfBackend, pdf: Bytes) returns (text: string)
    ensures text == ParsedText(backend, pdf)
  {
    var pages := backend.pages(pdf);
    var texts: seq<string> := [];
    for i := 0 to |pages|
      invariant texts == PageTexts(pages[..i])
    {
      texts := texts + [PageText(pages[i])];
    }
    assert pages[..|pages|] == pages;
    var combined := Join(texts, "\n");
    if Strip(combined) == "" {
      return backend.ocr(pdf);
    }
    return combined;
  }
}
