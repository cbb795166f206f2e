/** Text extraction: decode the attachment, hand the bytes to the PDF
    library, and concatenate the lower-cased text of its pages. */
module Pdf {
  import opened Common
  import opened Text

  /** A PDF as the PDF library presents it: either the document cannot be
      read, or, in document order, each page's text or the error its
      extraction raises. */
  type Document = Result<seq<Result<string>>>

  /** The line `read_pdf_content` prints when extraction fails. */
  function ExtractionErrorLine(detail: string): string
  {
    "Error extracting PDF text: " + detail
  }

  function Prepend(prefix: string, r: Result<string>): Result<string>
  {
    match r
    case Success(rest) => Success(prefix + rest)
    case Failure(e) => Failure(e)
  }

  lemma PrependNothing(r: Result<string>)
    ensures Prepend("", r) == r
  {
    if r.Success? { assert "" + r.value == r.value; }
  }

  lemma PrependTwice(a: string, b: string, r: Result<string>)
    ensures Prepend(a, Prepend(b, r)) == Prepend(a + b, r)
  {
    if r.Success? { assert a + (b + r.value) == (a + b) + r.value; }
  }

  /** The lower-cased text of the pages in order, or the error of the first
      page whose extraction fails. */
  function PagesText(pages: seq<Result<string>>): Result<string>
    decreases |pages|
  {
    if pages == [] then Success("")
    else
      match pages[0]
      case Failure(e) => Failure(e)
      case Success(t) => Prepend(Lower(t), PagesText(pages[1..]))
  }

  function DocumentText(doc: Document): Result<string>
  {
    match doc
    case Failure(e) => Failure(e)
    case Success(pages) => PagesText(pages)
  }

  /** What `read_pdf_content` returns: the text, or "" after any failure. */
  function ReadText(doc: Document): string
  {
    DocumentText(doc).GetOr("")
  }

  /** What `read_pdf_content` prints: one line after a failure, else nothing. */
  function ReadLog(doc: Document): seq<string>
  {
    match DocumentText(doc)
    case Success(_) => []
    case Failure(e) => [ExtractionErrorLine(e)]
  }

  /** The raw text of pages that all extracted successfully. */
  function RawText(pages: seq<Result<string>>): string
    requires forall i :: 0 <= i < |pages| ==> pages[i].Success?
  {
    if pages == [] then "" else pages[0].value + RawText(pages[1..])
  }

  /** Extraction succeeds exactly when every page does, and then yields the
      lower-cased concatenation of the pages' text in document order. */
  lemma {:induction false} PagesTextIsLoweredConcatenation(pages: seq<Result<string>>)
    ensures PagesText(pages).Success? <==> forall i :: 0 <= i < |pages| ==> pages[i].Success?
    ensures (forall i :: 0 <= i < |pages| ==> pages[i].Success?) ==>
              PagesText(pages) == Success(Lower(RawText(pages)))
    decreases |pages|
  {
    if pages != [] {
      PagesTextIsLoweredConcatenation(pages[1..]);
      assert forall i :: 1 <= i < |pages| ==> pages[1..][i - 1] == pages[i];
      if forall i :: 0 <= i < |pages| ==> pages[i].Success? {
        LowerAppend(pages[0].value, RawText(pages[1..]));
      }
    }
  }

  /** A failure reports the error of the first failing page. */
  lemma {:induction false} FirstFailureReported(pages: seq<Result<string>>)
    requires PagesText(pages).Failure?
    ensures exists i :: 0 <= i < |pages| && pages[i] == Failure(PagesText(pages).error) &&
                        forall j :: 0 <= j < i ==> pages[j].Success?
    decreases |pages|
  {
    if pages[0].Failure? {
      assert pages[0] == Failure(PagesText(pages).error);
    } else {
      FirstFailureReported(pages[1..]);
      var i :| 0 <= i < |pages[1..]| && pages[1..][i] == Failure(PagesText(pages[1..]).error) &&
               forall j :: 0 <= j < i ==> pages[1..][j].Success?;
      assert pages[i + 1] == pages[1..][i];
      assert forall j :: 1 <= j < i + 1 ==> pages[j] == pages[1..][j - 1];
    }
  }

  /** `read_pdf_content`: accumulates the lower-cased text page by page; any
      failure discards what was accumulated, prints one line and yields "". */
  method ReadPdfContent(doc: Document) returns (text: string, printed: seq<string>)
    ensures text == ReadText(doc)
    ensures printed == ReadLog(doc)
  {
    if doc.Failure? {
      return "", [ExtractionErrorLine(doc.error)];
    }
    var pages := doc.value;
    var pdfText := "";
    var i := 0;
    assert pages[i..] == pages;
    PrependNothing(PagesText(pages));
    while i < |pages|
      invariant 0 <= i <= |pages|
      invariant PagesText(pages) == Prepend(pdfText, PagesText(pages[i..]))
    {
      assert pages[i..][0] == pages[i] && pages[i..][1..] == pages[i + 1..];
      if pages[i].Failure? {
        return "", [ExtractionErrorLine(pages[i].error)];
      }
      PrependTwice(pdfText, Lower(pages[i].value), PagesText(pages[i + 1..]));
      pdfText := pdfText + Lower(pages[i].value);
      i := i + 1;
    }
    assert pages[i..] == [];
    assert pdfText + "" == pdfText;
    return pdfText, [];
  }

  /** `extract_pdf_text`: a decoding error propagates to the caller; decoded
      bytes go to the PDF library, whose failures yield "". */
  method ExtractPdfText(decode: string -> Result<Bytes>, parse: Bytes -> Document, data: string)
    returns (r: Result<string>, printed: seq<string>)
    ensures decode(data).Failure? ==> r == Failure(decode(data).error) && printed == []
    ensures decode(data).Success? ==>
              r == Success(ReadText(parse(decode(data).value))) && printed == ReadLog(parse(decode(data).value))
  {
    var decoded := decode(data);
    if decoded.Failure? {
      return Failure(decoded.error), [];
    }
    var text;
    text, printed := ReadPdfContent(parse(decoded.value));
    r := Success(text);
  }
}
