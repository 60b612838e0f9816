/**
 * The text-aggregation side of the PDF pipeline (`PDFService`): each page is
 * classified as native text, OCR text, no text or an OCR error; the pages are
 * folded into the result record of `process_pdf`; the non-blank page texts are
 * combined into `full_text_content`; and the record is handed to the webhook
 * dispatcher, whose outcome never alters it.
 *
 * PyMuPDF, the renderer and the OCR engine are inputs: a document is the
 * sequence of its pages, each page carrying what `get_text()` returns (or that
 * it raised) and what rendering and recognising it would produce.
 */
module Pdf {
  import opened Wrappers
  import opened JsonModel
  import Text
  import Webhook

  /** The `text_type` of a page result. */
  datatype TextType = Native | Ocr | NoText | OcrError

  /** The string stored under `text_type`. */
  function TypeName(t: TextType): string
  {
    match t
    case Native => "native"
    case Ocr => "ocr"
    case NoText => "no_text"
    case OcrError => "error"
  }

  /**
   * One entry of the engine's list for the page: a falsy entry (skipped), a
   * recognised line with its text, or an entry whose text cannot be read
   * (`line[1][0]` raises, with the given message).
   */
  datatype OcrLine = Skipped | Line(text: string) | Unreadable(message: string)

  /**
   * What rendering and recognising a page gives: an exception from the
   * renderer, the image conversion or the engine, or the engine's entries for
   * the page (a falsy `ocr_result` or `ocr_result[0]` is an empty list).
   */
  datatype OcrOutput = OcrRaised(message: string) | Recognised(lines: seq<OcrLine>)

  /** A page: `get_text()` (None where it raises) and what OCR would make of it. */
  datatype PageSource = PageSource(nativeText: Option<string>, ocr: OcrOutput)

  /**
   * The dict `_process_page` returns for a page, without its confidence and
   * bounding boxes: the page number, its text and text type, the texts of
   * `ocr_details` and the error message.
   */
  datatype PageResult = PageResult(page: int, text: string, textType: TextType, ocrDetails: seq<string>,
                                   error: Option<string>)

  /** The dict `process_pdf` returns; `success` and `processing_method` are constants of it. */
  datatype PdfResult = PdfResult(
    filename: string,
    fileSize: int,
    pdfPages: int,
    pagesProcessed: int,
    textExtracted: bool,
    ocrUsed: bool,
    textCount: int,
    results: seq<PageResult>,
    fullTextContent: string,
    message: string)

  const ProcessingMethod := "pdf_comprehensive"

  // ---------------------------------------------------------------------------
  // One page

  /** The entries of the page, read one after the other: their texts, or the first entry that raises. */
  function Scan(lines: seq<OcrLine>): (r: Result<seq<string>, string>)
    ensures r.Success? ==> |r.value| <= |lines|
    ensures r.Failure? ==> exists i :: 0 <= i < |lines| && lines[i] == Unreadable(r.error)
  {
    if |lines| == 0 then Success([])
    else
      var init := lines[..|lines| - 1];
      match Scan(init)
      case Failure(m) =>
        assert forall i :: 0 <= i < |init| ==> init[i] == lines[i];
        Failure(m)
      case Success(texts) =>
        match lines[|lines| - 1]
        case Skipped => Success(texts)
        case Line(t) => Success(texts + [t])
        case Unreadable(m) => Failure(m)
  }

  /** No entry raises. */
  predicate Readable(lines: seq<OcrLine>)
  {
    forall i :: 0 <= i < |lines| ==> !lines[i].Unreadable?
  }

  /** The texts of the recognised lines, in order. */
  function LineTexts(lines: seq<OcrLine>): seq<string>
  {
    if |lines| == 0 then []
    else if lines[0].Line? then [lines[0].text] + LineTexts(lines[1..])
    else LineTexts(lines[1..])
  }

  /** Texts collected so far stay in front when one more entry is read. */
  lemma LineTextsSnoc(lines: seq<OcrLine>, l: OcrLine)
    ensures LineTexts(lines + [l]) == LineTexts(lines) + (if l.Line? then [l.text] else [])
  {
    if |lines| > 0 {
      assert (lines + [l])[1..] == lines[1..] + [l];
      LineTextsSnoc(lines[1..], l);
    } else {
      assert [l][1..] == [];
    }
  }

  /** When no entry raises, reading them gives the texts of the recognised lines. */
  lemma {:induction false} ScanReadable(lines: seq<OcrLine>)
    requires Readable(lines)
    ensures Scan(lines) == Success(LineTexts(lines))
  {
    if |lines| > 0 {
      var init, last := lines[..|lines| - 1], lines[|lines| - 1];
      assert forall i :: 0 <= i < |init| ==> init[i] == lines[i];
      ScanReadable(init);
      LineTextsSnoc(init, last);
      assert init + [last] == lines;
      assert !last.Unreadable? by {
        assert lines[|lines| - 1] == last;
      }
      assert Scan(init) == Success(LineTexts(init));
      match last {
        case Skipped =>
          assert LineTexts(lines) == LineTexts(init) + [] == LineTexts(init);
          assert Scan(lines) == Success(LineTexts(init));
        case Line(t) =>
          assert Scan(lines) == Success(LineTexts(init) + [t]);
      }
    }
  }

  /** Reading stops at the first entry that raises and reports its message. */
  lemma {:induction false} ScanFirstUnreadable(lines: seq<OcrLine>, k: nat)
    requires k < |lines| && lines[k].Unreadable?
    requires forall j :: 0 <= j < k ==> !lines[j].Unreadable?
    ensures Scan(lines) == Failure(lines[k].message)
  {
    if k < |lines| - 1 {
      ScanFirstUnreadable(lines[..|lines| - 1], k);
    } else {
      ScanReadable(lines[..k]);
      assert lines[..|lines| - 1] == lines[..k];
    }
  }

  /** Some entry raises exactly when reading fails. */
  lemma {:induction false} ScanUnreadable(lines: seq<OcrLine>)
    ensures Scan(lines).Failure? <==> !Readable(lines)
  {
    if |lines| > 0 {
      var init := lines[..|lines| - 1];
      assert forall i :: 0 <= i < |init| ==> init[i] == lines[i];
      ScanUnreadable(init);
      assert Readable(lines) <==> Readable(init) && !lines[|lines| - 1].Unreadable?;
    }
  }

  /** A failure while reading a prefix is the failure of the whole. */
  lemma {:induction false} ScanPrefixFails(lines: seq<OcrLine>, k: nat)
    requires k <= |lines| && Scan(lines[..k]).Failure?
    ensures Scan(lines) == Scan(lines[..k])
  {
    if k < |lines| {
      assert lines[..|lines| - 1][..k] == lines[..k];
      ScanPrefixFails(lines[..|lines| - 1], k);
    } else {
      assert lines[..k] == lines;
    }
  }

  /** The record of a page on which OCR raised. */
  function ErrorPage(pageNum: int, message: string): PageResult
  {
    PageResult(pageNum, "", OcrError, [], Some(message))
  }

  /** `_ocr_page` on what the engine produced for the page. */
  function OcrPageResult(pageNum: int, out: OcrOutput): (r: PageResult)
    ensures r.page == pageNum && r.textType != Native && WellFormed(r)
  {
    match out
    case OcrRaised(m) => ErrorPage(pageNum, m)
    case Recognised(lines) =>
      match Scan(lines)
      case Failure(m) => ErrorPage(pageNum, m)
      case Success(texts) =>
        if texts != [] then PageResult(pageNum, Text.Join(texts), Ocr, texts, None)
        else PageResult(pageNum, "", NoText, [], None)
  }

  /** OCR produced at least one readable line and nothing raised. */
  predicate OcrYieldsLines(out: OcrOutput)
  {
    out.Recognised? && Readable(out.lines) && LineTexts(out.lines) != []
  }

  /**
   * OCR gives `ocr` with the line texts joined by single spaces when it yields
   * lines, `no_text` with an empty text when it yields none, and `error` with an
   * empty text and the message of the exception otherwise.
   */
  lemma OcrPageCases(pageNum: int, out: OcrOutput)
    ensures var r := OcrPageResult(pageNum, out);
      && r.page == pageNum
      && (out.OcrRaised? ==> r == ErrorPage(pageNum, out.message))
      && (OcrYieldsLines(out) ==> r == PageResult(pageNum, Text.Join(LineTexts(out.lines)), Ocr, LineTexts(out.lines), None))
      && (out.Recognised? && Readable(out.lines) && LineTexts(out.lines) == [] ==>
            r == PageResult(pageNum, "", NoText, [], None))
      && (out.Recognised? && !Readable(out.lines) ==> r.textType == OcrError && r.text == "" && r.error.Some?)
  {
    if out.Recognised? {
      if Readable(out.lines) {
        ScanReadable(out.lines);
      } else {
        ScanUnreadable(out.lines);
      }
    }
  }

  /** The page has native text: `native_text and native_text.strip()`. */
  predicate HasNativeText(src: PageSource)
  {
    src.nativeText.Some? && src.nativeText.value != "" && Text.Strip(src.nativeText.value) != ""
  }

  /** `_process_page`: the stripped native text if there is any, otherwise (also when `get_text` raised) OCR. */
  function PageResultOf(pageNum: int, src: PageSource): (r: PageResult)
    ensures r.page == pageNum && WellFormed(r)
    ensures r.textType == Native <==> HasNativeText(src)
    ensures HasNativeText(src) ==> r.text == Text.Strip(src.nativeText.value) && r.ocrDetails == [] && r.error == None
    ensures !HasNativeText(src) ==> r == OcrPageResult(pageNum, src.ocr)
  {
    if HasNativeText(src) then
      Text.StripIdempotent(src.nativeText.value);
      PageResult(pageNum, Text.Strip(src.nativeText.value), Native, [], None)
    else OcrPageResult(pageNum, src.ocr)
  }

  /** What every page result satisfies, whichever way it was made. */
  predicate WellFormed(r: PageResult)
  {
    && (r.error.Some? <==> r.textType == OcrError)
    && (r.ocrDetails != [] <==> r.textType == Ocr)
    && (r.textType == Native ==> r.text != "" && Text.Strip(r.text) == r.text)
    && (r.textType == Ocr ==> r.text == Text.Join(r.ocrDetails))
    && (r.textType == NoText || r.textType == OcrError ==> r.text == "")
  }

  /** A page is `ocr` exactly when its native text is blank and OCR yields lines. */
  lemma PageKind(pageNum: int, src: PageSource)
    ensures PageResultOf(pageNum, src).textType == Ocr <==> !HasNativeText(src) && OcrYieldsLines(src.ocr)
  {
    if !HasNativeText(src) && src.ocr.Recognised? {
      ScanUnreadable(src.ocr.lines);
      if Readable(src.ocr.lines) {
        ScanReadable(src.ocr.lines);
      }
    }
  }

  // ---------------------------------------------------------------------------
  // Combining the page texts

  /** The page text counts for the combined text: `result.get("text") and result.get("text").strip()`. */
  predicate NonBlank(r: PageResult)
  {
    r.text != "" && !Text.Blank(r.text)  // `strip()` leaves something exactly when the text is not all whitespace
  }

  /** What one result contributes: its stripped text if that is non-blank. */
  function Piece(r: PageResult): seq<string>
  {
    if NonBlank(r) then [Text.Strip(r.text)] else []
  }

  /** The stripped texts of the non-blank results, in order. */
  function Pieces(results: seq<PageResult>): seq<string>
  {
    if |results| == 0 then [] else Pieces(results[..|results| - 1]) + Piece(results[|results| - 1])
  }

  /**
   * `_combine_text_results`: empty exactly when no result has a non-blank
   * text; otherwise it neither starts nor ends with whitespace.
   */
  function CombinedText(results: seq<PageResult>): (r: string)
    ensures r == "" <==> forall i :: 0 <= i < |results| ==> !NonBlank(results[i])
    ensures r != "" ==> !Text.IsSpace(r[0]) && !Text.IsSpace(r[|r| - 1])
  {
    PiecesEmpty(results);
    PiecesClean(results);
    CleanJoin(Pieces(results));
    Text.Join(Pieces(results))
  }

  /** The pieces of two runs of results are the pieces of each, in order. */
  lemma {:induction false} PiecesAppend(a: seq<PageResult>, b: seq<PageResult>)
    ensures Pieces(a + b) == Pieces(a) + Pieces(b)
    decreases |b|
  {
    if |b| > 0 {
      var b' := b[..|b| - 1];
      assert (a + b)[..|a + b| - 1] == a + b';
      PiecesAppend(a, b');
    } else {
      assert a + b == a;
    }
  }

  /** A non-empty text that is its own `strip()`. */
  predicate Clean(p: string)
  {
    p != "" && Text.Strip(p) == p
  }

  /** The piece of a result is clean. */
  lemma PieceClean(r: PageResult)
    ensures forall p :: p in Piece(r) ==> Clean(p)
  {
    if NonBlank(r) {
      Text.StripIdempotent(r.text);
    }
  }

  /** Every piece is non-empty and already stripped. */
  lemma {:induction false} PiecesClean(results: seq<PageResult>)
    ensures forall i :: 0 <= i < |Pieces(results)| ==> Clean(Pieces(results)[i])
  {
    if |results| > 0 {
      var init := results[..|results| - 1];
      var last := results[|results| - 1];
      PiecesClean(init);
      PieceClean(last);
      var p := Pieces(results);
      forall i | 0 <= i < |p| ensures Clean(p[i]) {
        if i < |Pieces(init)| {
          assert p[i] == Pieces(init)[i];
        } else {
          assert p[i] in Piece(last);
        }
      }
    }
  }

  /** There are no pieces exactly when no result is non-blank. */
  lemma {:induction false} PiecesEmpty(results: seq<PageResult>)
    ensures Pieces(results) == [] <==> forall i :: 0 <= i < |results| ==> !NonBlank(results[i])
  {
    if |results| > 0 {
      PiecesEmpty(results[..|results| - 1]);
      AllBlankSnoc(results);
    }
  }

  /** All results are blank exactly when all but the last are and the last one is. */
  lemma AllBlankSnoc(results: seq<PageResult>)
    requires |results| > 0
    ensures var init := results[..|results| - 1];
      (forall i :: 0 <= i < |results| ==> !NonBlank(results[i])) <==>
      (forall i :: 0 <= i < |init| ==> !NonBlank(init[i])) && !NonBlank(results[|results| - 1])
  {
    var init := results[..|results| - 1];
    assert forall i :: 0 <= i < |init| ==> init[i] == results[i];
  }

  /** Clean pieces join to a text that is empty only without pieces and otherwise has no whitespace at either end. */
  lemma CleanJoin(p: seq<string>)
    requires forall i :: 0 <= i < |p| ==> Clean(p[i])
    ensures Text.Join(p) == "" <==> p == []
    ensures Text.Join(p) != "" ==> !Text.IsSpace(Text.Join(p)[0]) && !Text.IsSpace(Text.Join(p)[|Text.Join(p)| - 1])
  {
    if p != [] {
      var s := Text.Join(p);
      var first, last := p[0], p[|p| - 1];
      assert Clean(first) && Clean(last);
      CleanEnds(first);
      CleanEnds(last);
      Text.JoinEnds(p);
      assert s[0] == first[0];
      assert s[|s| - 1] == s[|s| - |last|..][|last| - 1] == last[|last| - 1];
    }
  }

  /** A clean text neither starts nor ends with whitespace. */
  lemma CleanEnds(p: string)
    requires Clean(p)
    ensures !Text.IsSpace(p[0]) && !Text.IsSpace(p[|p| - 1])
  {
  }

  // ---------------------------------------------------------------------------
  // The whole document

  /** `_process_page` for every page, the first being page 1. */
  function PageResults(pages: seq<PageSource>): (r: seq<PageResult>)
    ensures |r| == |pages|
  {
    if |pages| == 0 then [] else PageResults(pages[..|pages| - 1]) + [PageResultOf(|pages|, pages[|pages| - 1])]
  }

  /** Result i is page i + 1's own record. */
  lemma {:induction false} PageResultsAt(pages: seq<PageSource>, i: nat)
    requires i < |pages|
    ensures PageResults(pages)[i] == PageResultOf(i + 1, pages[i])
  {
    if i < |pages| - 1 {
      PageResultsAt(pages[..|pages| - 1], i);
    }
  }

  /** The message of a processed document. */
  function SuccessMessage(processed: int, total: int): string
  {
    "PDF processed successfully: " + Text.IntToString(processed) + "/" + Text.IntToString(total) + " pages"
  }

  /** Some result has the given text type. */
  predicate AnyOfType(results: seq<PageResult>, t: TextType)
  {
    exists i :: 0 <= i < |results| && results[i].textType == t
  }

  /** One more result has a type exactly when it or an earlier one does. */
  lemma AnyOfTypeSnoc(results: seq<PageResult>, r: PageResult, t: TextType)
    ensures AnyOfType(results + [r], t) <==> AnyOfType(results, t) || r.textType == t
  {
    var all := results + [r];
    assert forall i :: 0 <= i < |results| ==> all[i] == results[i];
    assert all[|results|] == r;
  }

  /** The record `process_pdf` builds for a document that opened. */
  function PdfSpec(filename: string, fileSize: int, pages: seq<PageSource>): PdfResult
  {
    var results := PageResults(pages);
    PdfResult(filename, fileSize, |pages|, |pages|, AnyOfType(results, Native), AnyOfType(results, Ocr),
              |results|, results, CombinedText(results), SuccessMessage(|pages|, |pages|))
  }

  /** `process_pdf`: the record, or the `ValueError` raised when the document cannot be opened. */
  function PdfOutcome(filename: string, fileSize: int, document: Result<seq<PageSource>, string>): (r: Result<PdfResult, string>)
    ensures r.Failure? <==> document.Failure?
    ensures document.Failure? ==> r.error == "PDF processing failed: " + document.error
    ensures document.Success? ==>
      && r.value.filename == filename && r.value.fileSize == fileSize
      && r.value.pdfPages == r.value.pagesProcessed == r.value.textCount == |document.value|
      && r.value.results == PageResults(document.value)
      && r.value.fullTextContent == CombinedText(r.value.results)
  {
    match document
    case Failure(m) => Failure("PDF processing failed: " + m)
    case Success(pages) => Success(PdfSpec(filename, fileSize, pages))
  }

  /**
   * Every page is processed and counted: `pages_processed`, `pdf_pages` and
   * `text_count` agree; the results are the pages' own records in page order,
   * each well formed; and the message reports all pages.
   */
  lemma PdfSummary(filename: string, fileSize: int, pages: seq<PageSource>)
    ensures var r := PdfSpec(filename, fileSize, pages);
      && r.pagesProcessed == r.pdfPages == r.textCount == |r.results| == |pages|
      && (forall i :: 0 <= i < |pages| ==> r.results[i] == PageResultOf(i + 1, pages[i]) && WellFormed(r.results[i]))
      && r.message == SuccessMessage(|pages|, |pages|)
  {
    var results := PageResults(pages);
    forall i | 0 <= i < |pages|
      ensures results[i] == PageResultOf(i + 1, pages[i]) && WellFormed(results[i])
    {
      PageResultsAt(pages, i);
    }
  }

  /**
   * `text_extracted` holds exactly when some page has native text, and
   * `ocr_used` exactly when some page without native text got lines from OCR.
   */
  lemma PdfFlags(filename: string, fileSize: int, pages: seq<PageSource>)
    ensures var r := PdfSpec(filename, fileSize, pages);
      && (r.textExtracted <==> exists i :: 0 <= i < |pages| && HasNativeText(pages[i]))
      && (r.ocrUsed <==> exists i :: 0 <= i < |pages| && !HasNativeText(pages[i]) && OcrYieldsLines(pages[i].ocr))
  {
    PageKinds(pages);
  }

  /** The page kinds of the records, page by page. */
  lemma PageKinds(pages: seq<PageSource>)
    ensures AnyOfType(PageResults(pages), Native) <==> exists i :: 0 <= i < |pages| && HasNativeText(pages[i])
    ensures AnyOfType(PageResults(pages), Ocr) <==>
      exists i :: 0 <= i < |pages| && !HasNativeText(pages[i]) && OcrYieldsLines(pages[i].ocr)
  {
    var results := PageResults(pages);
    forall i | 0 <= i < |pages| ensures KindAgrees(results[i], pages[i]) {
      PageKindAt(pages, i);
    }
    AnyOfTypeAgrees(results, pages);
  }

  /** The kind of record i agrees with page i + 1. */
  lemma PageKindAt(pages: seq<PageSource>, i: nat)
    requires i < |pages|
    ensures KindAgrees(PageResults(pages)[i], pages[i])
  {
    PageResultsAt(pages, i);
    PageKind(i + 1, pages[i]);
  }

  /** The record's text type says what the page was made of. */
  predicate KindAgrees(r: PageResult, src: PageSource)
  {
    && (r.textType == Native <==> HasNativeText(src))
    && (r.textType == Ocr <==> !HasNativeText(src) && OcrYieldsLines(src.ocr))
  }

  /** Records whose kinds agree with their pages, page by page, agree on which kinds occur. */
  lemma AnyOfTypeAgrees(results: seq<PageResult>, pages: seq<PageSource>)
    requires |results| == |pages| && forall i :: 0 <= i < |pages| ==> KindAgrees(results[i], pages[i])
    ensures AnyOfType(results, Native) <==> exists i :: 0 <= i < |pages| && HasNativeText(pages[i])
    ensures AnyOfType(results, Ocr) <==>
      exists i :: 0 <= i < |pages| && !HasNativeText(pages[i]) && OcrYieldsLines(pages[i].ocr)
  {
    if AnyOfType(results, Native) {
      var i :| 0 <= i < |results| && results[i].textType == Native;
      assert KindAgrees(results[i], pages[i]);
    }
    if AnyOfType(results, Ocr) {
      var i :| 0 <= i < |results| && results[i].textType == Ocr;
      assert KindAgrees(results[i], pages[i]);
    }
  }

  // ---------------------------------------------------------------------------
  // What the webhook receives

  /** The dict of one page result. */
  function PageFields(r: PageResult): Fields
  {
    [("page", JNum(r.page)), ("text", JStr(r.text)), ("text_type", JStr(TypeName(r.textType))), ("bbox", JNull)]
    + (if r.textType == Ocr then [("ocr_details", JArr(DetailJsons(r.ocrDetails)))] else [])
    + (match r.error case Some(m) => [("error", JStr(m))] case None => [])
  }

  /** The `ocr_details` entries, with their texts. */
  function DetailJsons(texts: seq<string>): seq<Json>
  {
    seq(|texts|, i requires 0 <= i < |texts| => JObj([("text", JStr(texts[i]))]))
  }

  /** The page dicts of the `results` list. */
  function PageJsons(results: seq<PageResult>): seq<Json>
  {
    seq(|results|, i requires 0 <= i < |results| => JObj(PageFields(results[i])))
  }

  /** The dict `process_pdf` returns and passes to `send_ocr_result`. */
  function PdfFields(r: PdfResult): Fields
  {
    [ ("success", JBool(true)),
      ("filename", JStr(r.filename)),
      ("file_size", JNum(r.fileSize)),
      ("pdf_pages", JNum(r.pdfPages)),
      ("pages_processed", JNum(r.pagesProcessed)),
      ("text_extracted", JBool(r.textExtracted)),
      ("ocr_used", JBool(r.ocrUsed)),
      ("text_count", JNum(r.textCount)),
      ("results", JArr(PageJsons(r.results))),
      ("full_text_content", JStr(r.fullTextContent)),
      ("processing_method", JStr(ProcessingMethod)),
      ("message", JStr(r.message))]
  }

  /** The raw texts of the page results, in order. */
  function Texts(results: seq<PageResult>): seq<string>
  {
    seq(|results|, i requires 0 <= i < |results| => results[i].text)
  }

  /** Every page dict is a segment with a `text` key. */
  lemma {:induction false} PageTextParts(results: seq<PageResult>)
    ensures Webhook.TextParts(PageJsons(results)) == Webhook.JStrs(Texts(results))
  {
    if |results| > 0 {
      var init := results[..|results| - 1];
      var last := results[|results| - 1];
      var items := PageJsons(results);
      PageTextParts(init);
      assert items[..|results| - 1] == PageJsons(init);
      PageFieldsText(last);
      assert Webhook.SegmentText(items[|results| - 1]) == [JStr(last.text)];
      TextsSnoc(results);
    }
  }

  /** The texts of a non-empty list of pages are those of all but the last, then the last one's. */
  lemma TextsSnoc(results: seq<PageResult>)
    requires |results| > 0
    ensures Webhook.JStrs(Texts(results)) == Webhook.JStrs(Texts(results[..|results| - 1])) + [JStr(results[|results| - 1].text)]
  {
  }

  /** The `text` key of a page dict holds the page text. */
  lemma PageFieldsText(r: PageResult)
    ensures Get(PageFields(r), "text") == Some(JStr(r.text))
  {
    var f := PageFields(r);
    assert forall i :: 2 <= i < |f| ==> f[i].0 != "text";
    GetAbsentTail(f, 2, "text");
    assert f[..2] == [("page", JNum(r.page)), ("text", JStr(r.text))];
  }

  /** A key that the entries from position k on do not bind is looked up in the first k. */
  lemma {:induction false} GetAbsentTail(d: Fields, k: nat, key: string)
    requires k <= |d| && forall i :: k <= i < |d| ==> d[i].0 != key
    ensures Get(d, key) == Get(d[..k], key)
    decreases |d| - k
  {
    if k < |d| {
      assert d[..|d| - 1][..k] == d[..k];
      GetAbsentTail(d[..|d| - 1], k, key);
    } else {
      assert d[..k] == d;
    }
  }

  /**
   * The full text a webhook payload of a PDF carries is the single-space join
   * of the raw page texts, empty ones included, and not the combined
   * `full_text_content` of the record: that one is only consulted when the
   * join is empty, and then it is empty too.
   */
  lemma PdfWebhookFullText(filename: string, fileSize: int, pages: seq<PageSource>)
    ensures var r := PdfSpec(filename, fileSize, pages);
      Webhook.PayloadFullText(PdfFields(r)) == Success(JStr(Text.Join(Texts(r.results))))
  {
    RecordWebhookFullText(PdfSpec(filename, fileSize, pages));
  }

  /** The lemma above for any record whose `full_text_content` is the combined text of its results. */
  lemma RecordWebhookFullText(r: PdfResult)
    requires r.fullTextContent == CombinedText(r.results)
    ensures Webhook.PayloadFullText(PdfFields(r)) == Success(JStr(Text.Join(Texts(r.results))))
  {
    var f := PdfFields(r);
    var items := PageJsons(r.results);
    PdfFieldsGet(r);
    var texts := Texts(r.results);
    if |r.results| > 0 {
      PageTextParts(r.results);
      Webhook.SegmentJoin(f, items, texts);
      if Text.Join(texts) == "" {
        SingleBlankPage(r.results);
      }
    }
  }

  /** The record's dict binds `results` to the page dicts and `full_text_content` to the combined text. */
  lemma PdfFieldsGet(r: PdfResult)
    ensures Get(PdfFields(r), "results") == Some(JArr(PageJsons(r.results)))
    ensures Get(PdfFields(r), "full_text_content") == Some(JStr(r.fullTextContent))
  {
    var f := PdfFields(r);
    GetAbsentTail(f, 9, "results");
    GetAbsentTail(f, 10, "full_text_content");
  }

  /** A single page with an empty text combines to the empty text. */
  lemma SingleBlankPage(results: seq<PageResult>)
    requires |results| == 1 && results[0].text == ""
    ensures CombinedText(results) == ""
  {
    assert Pieces(results[..0]) == [];
  }

  // ---------------------------------------------------------------------------
  // The service

  class PdfService {
    const webhook: Webhook.WebhookService

    constructor (webhook: Webhook.WebhookService)
      ensures this.webhook == webhook
    {
      this.webhook := webhook;
    }

    /** `_ocr_page`, from the engine's output for the page on. */
    method OcrPage(pageNum: int, out: OcrOutput) returns (r: PageResult)
      ensures r == OcrPageResult(pageNum, out)
    {
      match out {
        case OcrRaised(m) =>
          return ErrorPage(pageNum, m);
        case Recognised(lines) =>
          var texts: seq<string> := [];
          for i := 0 to |lines|
            invariant Scan(lines[..i]) == Success(texts)
          {
            assert lines[..i + 1][..i] == lines[..i];
            match lines[i] {
              case Skipped =>
              case Line(t) =>
                texts := texts + [t];
              case Unreadable(m) =>
                ScanPrefixFails(lines, i + 1);
                return ErrorPage(pageNum, m);
            }
          }
          assert lines[..|lines|] == lines;
          if texts != [] {
            return PageResult(pageNum, Text.Join(texts), Ocr, texts, None);
          }
          return PageResult(pageNum, "", NoText, [], None);
      }
    }

    /** `_process_page`. */
    method ProcessPage(pageNum: int, src: PageSource) returns (r: PageResult)
      ensures r == PageResultOf(pageNum, src)
    {
      match src.nativeText {
        case Some(native) =>
          if native != "" && Text.Strip(native) != "" {
            return PageResult(pageNum, Text.Strip(native), Native, [], None);
          }
        case None =>
      }
      r := OcrPage(pageNum, src.ocr);
    }

    /** `_combine_text_results`. */
    method CombineTextResults(results: seq<PageResult>) returns (s: string)
      ensures s == CombinedText(results)
    {
      var parts: seq<string> := [];
      for i := 0 to |results|
        invariant parts == Pieces(results[..i])
      {
        assert results[..i + 1][..i] == results[..i];
        var text := results[i].text;
        if text != "" && Text.Strip(text) != "" {
          parts := parts + [Text.Strip(text)];
        }
      }
      assert results[..|results|] == results;
      s := Text.Join(parts);
    }

    /** The page loop of `process_pdf`: every page's record, and the count and the two flags it keeps. */
    method ProcessPages(pages: seq<PageSource>)
      returns (results: seq<PageResult>, pagesProcessed: int, textExtracted: bool, ocrUsed: bool)
      ensures results == PageResults(pages) && pagesProcessed == |pages|
      ensures textExtracted == AnyOfType(results, Native) && ocrUsed == AnyOfType(results, Ocr)
    {
      results := [];
      pagesProcessed := 0;
      textExtracted := false;
      ocrUsed := false;
      for pageNum := 0 to |pages|
        invariant results == PageResults(pages[..pageNum])
        invariant pagesProcessed == pageNum
        invariant textExtracted == AnyOfType(results, Native) && ocrUsed == AnyOfType(results, Ocr)
      {
        assert pages[..pageNum + 1][..pageNum] == pages[..pageNum];
        var pageResult := ProcessPage(pageNum + 1, pages[pageNum]);
        ghost var before := results;
        if Truthy(JObj(PageFields(pageResult))) {
          results := results + [pageResult];
          AnyOfTypeSnoc(before, pageResult, Native);
          AnyOfTypeSnoc(before, pageResult, Ocr);
          pagesProcessed := pagesProcessed + 1;
          if pageResult.textType == Native {
            textExtracted := true;
          } else if pageResult.textType == Ocr {
            ocrUsed := true;
          }
        }
      }
      assert pages[..|pages|] == pages;
    }

    /**
     * `process_pdf`: the per-page fold, the combined text and the record, then
     * the webhook dispatch of the record, whose outcome is ignored.
     */
    method ProcessPdf(filename: string, fileSize: int, document: Result<seq<PageSource>, string>,
                      stamps: nat -> Webhook.Stamps)
      returns (r: Result<PdfResult, string>)
      modifies webhook.transport
      ensures r == PdfOutcome(filename, fileSize, document)
      ensures document.Failure? || !webhook.store.reachable ==> unchanged(webhook.transport)
      ensures document.Success? && webhook.store.reachable ==>
        var active := webhook.store.active;
        var run := Webhook.Dispatch(active,
                                    Webhook.Serving(active, PdfFields(r.value), Some(filename), stamps,
                                                    webhook.transport.reply, webhook.codec),
                                    stamps, |old(webhook.transport.sent)|, |active|);
        && webhook.transport.sent == old(webhook.transport.sent) + run.requests
        && webhook.transport.waits == old(webhook.transport.waits) + run.waits
    {
      if document.Failure? {
        return Failure("PDF processing failed: " + document.error);
      }
      var pages := document.value;
      var results, pagesProcessed, textExtracted, ocrUsed := ProcessPages(pages);
      var full := CombineTextResults(results);
      var result := PdfResult(filename, fileSize, |pages|, pagesProcessed, textExtracted, ocrUsed, |results|,
                              results, full, SuccessMessage(pagesProcessed, |pages|));
      var _ := webhook.SendOcrResult(PdfFields(result), Some(filename), stamps);
      return Success(result);
    }
  }
}
