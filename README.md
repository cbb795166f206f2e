# Gmail invoice fetcher: a Dafny model of the attachment filter

`fetch_invoices.py` searches a Gmail mailbox for messages with attachments in a
date window. For every message it keeps the top-level parts whose filename ends
in `.pdf`, in any letter case. It fetches each such attachment, inline or by a
second request, and base64url-decodes it. It then extracts the lower-cased text
of every page and saves the decoded file into a download folder when the text
contains at least one of the search strings. An exception while handling one
part is printed and the run moves on. An exception while fetching a message
stops the run.

This project models that pipeline in Dafny and proves properties of it. The
collaborators are parameters: the Gmail service (`list`, `get`,
`attachments().get`, each returning a response or raising), the base64url
decoder, the PDF library (a document that cannot be read, or per page the text
or an error), the error that `open(path, 'wb')` may raise and the error that
`f.write` may raise. The model is laid
out in seven modules:

- `common.dfy`: `Option`, `Result` (an error is the exception's `str(e)`), bytes,
  and the text of a `KeyError`.
- `text.dfy`: `lower()` (ASCII), substring search (`in`), `endswith`, `strip()`,
  `split(',')` and `join`.
- `gmail.dfy`: the JSON shapes (`Part` nests like Gmail's payload), the service,
  the request trace (`Call`), the query, `get_messages` and `get_attachment_data`.
- `pdf.dfy`: `read_pdf_content` as a loop method, proved against `PagesText`, and
  `extract_pdf_text`.
- `matching.dfy`: `contains_search_strings`.
- `config.dfy`: `get_search_strings` and `get_env_date`.
- `pipeline.dfy`: one run as a pure function over a `World`. A `World` holds the
  files, the directories, the printed lines and the requests sent.
  `PartStep`, `PartsStep`, `MessageStep`, `MessagesStep` and `RunSpec` follow
  the loops of `download_attachments`; the lemmas are stated over them. The
  class `Downloader` holds the same state in fields. Its methods
  `DownloadAttachments`, `ProcessPart` and `SaveAttachment` run the nested loops
  step by step, and each method is proved equal to its specification function.

Consequences of the code as written:

- A failed text extraction yields `""`, and `""` contains the empty search
  string. `get_search_strings` produces an empty search string for a leading, doubled
  or trailing comma, or for a blank value or field. In those cases an unreadable PDF is
  saved: a failed extraction does not always prevent the write (see
  `UnreadablePdfSavedWithEmptySearchString`).
- `download_attachments` defaults `search_strings` to `[]`, which matches
  nothing. An empty criterion set therefore saves no file at all
  (`NoSearchStringsNoWrites`).
- The temporary file of `extract_pdf_text` is not removed when decoding raises,
  because the `finally` guards only the read.
- The `'unknown file'` fallback in the error line can never be used, because the
  part filter already requires a filename.
- `save_attachment` opens (and so truncates) the file before it decodes. A
  decoding error can never leave that empty file behind in the pipeline,
  because the same data was already decoded for extraction (`PartStepFiles`).
  A write that raises does leave it behind, and the error is printed
  (`FailedWriteLeavesEmptyFile`).

## Model

| member | source | states |
|---|---|---|
| `Common.Option.GetOr` | fetch_invoices.py:37 | `d.get(key, default)` (and `os.getenv(name, default)` at line 124): the value when the key is present, otherwise the default |
| `Common.KeyErrorDetail` | fetch_invoices.py:41-48 | `str(KeyError(key))`, the key in single quotes: the detail printed for a missing `body`, `attachmentId` or `data`, and carried by the aborts at lines 92-93 |
| `Text.Lower` | fetch_invoices.py:67 | lower-casing keeps the length and folds each character on its own |
| `Text.LowerAppend` | fetch_invoices.py:66-67 | lower-casing page by page equals lower-casing the concatenated text |
| `Text.Contains` | fetch_invoices.py:75 | `needle in hay`: the needle is a prefix of the text or of one of its suffixes |
| `Text.ContainsIff` | fetch_invoices.py:75 | `needle in hay` holds exactly when `needle` occurs at some index of `hay` (literal substring search) |
| `Text.ContainsEmpty` | fetch_invoices.py:75 | `""` occurs in every text; only `""` occurs in `""` |
| `Text.EndsWith` | fetch_invoices.py:99 | `s.endswith(suffix)`: the suffix is no longer than the text and equals its last characters |
| `Text.IsSpace` | fetch_invoices.py:134 | exactly the characters `str.isspace()` accepts, which `strip()` removes: U+0009-U+000D, U+001C-U+0020, U+0085, U+00A0, U+1680, U+2000-U+200A, U+2028, U+2029, U+202F, U+205F, U+3000 |
| `Text.TrimStart` | fetch_invoices.py:134 | the result is the longest suffix that does not start with whitespace; everything removed is whitespace |
| `Text.TrimEnd` | fetch_invoices.py:134 | the result is the longest prefix that does not end with whitespace; everything removed is whitespace |
| `Text.Strip` | fetch_invoices.py:134 | the result is a slice of the input with only whitespace around it, and it neither begins nor ends with whitespace |
| `Text.Split` | fetch_invoices.py:134 | `split(',')` yields one field more than there are commas, and no field contains a comma |
| `Text.SplitJoin` | fetch_invoices.py:134 | joining the fields with the separator gives back the input |
| `Gmail.Query` | fetch_invoices.py:35 | the query `after:<start> before:<end> has:attachment` |
| `Gmail.QueryInjective` | fetch_invoices.py:35 | the query determines the window: two windows whose start dates have no space give equal queries only when they are equal |
| `Gmail.GetMessages` | fetch_invoices.py:33-37 | one list request with the window's query; its `messages`, or `[]` when the key is absent; a failing request raises |
| `Gmail.RetrievalCalls` | fetch_invoices.py:41-47 | the requests `get_attachment_data` sends: one attachment request by (message id, attachment id) when the body has no inline `data` but an `attachmentId`, otherwise none |
| `Gmail.GetAttachmentData` | fetch_invoices.py:39-48 | inline `data` is returned as is; a missing `body` or `attachmentId` raises `KeyError`; when no request is issued, success means inline data |
| `Gmail.NoFetchNoServiceDependence` | fetch_invoices.py:41-42 | when no attachment request is issued, the result does not depend on the service at all |
| `Gmail.FetchUsesExactIds` | fetch_invoices.py:44-48 | without inline data, exactly one request for (message id, attachment id); the result is that response's `data`, or its error, or `KeyError('data')` |
| `Pdf.ExtractionErrorLine` | fetch_invoices.py:70 | the printed line `Error extracting PDF text: <detail>` |
| `Pdf.PagesText` | fetch_invoices.py:65-67 | the pages' lower-cased texts appended in order, or the error of the first page whose extraction raises |
| `Pdf.ReadText` | fetch_invoices.py:61-71 | what `read_pdf_content` returns: the document's text, or `""` when opening it or any page raises |
| `Pdf.ReadLog` | fetch_invoices.py:61-71 | what `read_pdf_content` prints: `Error extracting PDF text: <detail>` after a failure, otherwise nothing |
| `Pdf.PagesTextIsLoweredConcatenation` | fetch_invoices.py:64-68 | extraction succeeds iff every page does, and then gives the lower-cased concatenation of the page texts in document order |
| `Pdf.FirstFailureReported` | fetch_invoices.py:66-70 | a failing extraction reports the error of the first failing page, every earlier page having succeeded |
| `Pdf.ReadPdfContent` | fetch_invoices.py:61-71 | the page loop returns the extracted text, or `""` with one printed line after any failure, dropping the partial text |
| `Pdf.ExtractPdfText` | fetch_invoices.py:50-59 | a decoding error propagates to the caller and nothing is printed; otherwise the decoded bytes' text as `read_pdf_content` gives it |
| `Matching.ContainsSearchStrings` | fetch_invoices.py:73-75 | true iff some search string, lower-cased, occurs in the text; an empty list never matches |
| `Matching.EmptySearchStringMatchesAll` | fetch_invoices.py:75 | an empty search string matches every text, `""` included |
| `Matching.EmptyTextMatchesOnlyEmptySearchString` | fetch_invoices.py:75 | the empty text matches exactly when one search string is empty |
| `Matching.SearchIsCaseInsensitive` | fetch_invoices.py:75 | lower-casing the search strings beforehand does not change the verdict |
| `Matching.IappExample` | fetch_invoices.py:73-75 | with criteria `9512302884` and `IAPP`, any text containing `iapp` matches |
| `Config.GetSearchStrings` | fetch_invoices.py:129-134 | unset or empty raises the required-variable error; otherwise never empty, with one stripped element per comma-separated field |
| `Config.DoubleCommaYieldsEmptyField` | fetch_invoices.py:134 | `a,,b` yields `a`, an empty string and `b` |
| `Config.BlankValueYieldsEmptySearchString` | fetch_invoices.py:131-134 | a value of only whitespace is accepted and yields the single search string `""` |
| `Config.GetEnvDate` | fetch_invoices.py:122-127 | the variable's value, or the default when unset, is returned iff the date check accepts it; otherwise the invalid-format error naming the variable |
| `Pipeline.ErrorLine` | fetch_invoices.py:112 | the printed line `Error processing <filename>: <detail>` |
| `Pipeline.DownloadedLine` | fetch_invoices.py:82 | the printed line `Downloaded: <filename>` |
| `Pipeline.SelectedParts` | fetch_invoices.py:98-100 | the parts the filter keeps: every kept part is selected, a part is kept iff it is one of the parts and selected, and there are no more of them than parts |
| `Pipeline.IsPdfName` | fetch_invoices.py:99 | a filename is non-empty and ends in `.pdf` once lower-cased |
| `Pipeline.IsSelected` | fetch_invoices.py:99 | the part filter: the part has a filename, and it is a PDF name |
| `Pipeline.PdfNameIff` | fetch_invoices.py:99 | a filename is selected iff it has at least four characters and the last four lower-cased are `.pdf` |
| `Pipeline.PdfExtensionInAnyCase` | fetch_invoices.py:99 | a part named with any-case spelling of `.pdf` (`.PDF`, `.Pdf`) is selected |
| `Pipeline.ChildrenIgnored` | fetch_invoices.py:98 | a part's own nested parts never change how it is processed: only top-level parts are examined |
| `Pipeline.SkippedPartsInvisible` | fetch_invoices.py:98-100 | processing a list of parts equals processing only its selected parts: a skipped part causes no request, no write and no line |
| `Pipeline.NoPdfPartNoEffect` | fetch_invoices.py:92-100 | a message with no selected top-level part contributes only its own fetch, whatever its nested parts hold |
| `Pipeline.MessageWithoutParts` | fetch_invoices.py:95-96 | a payload without `parts` contributes only its own fetch and the run continues |
| `Pipeline.MessageStep` | fetch_invoices.py:91-93 | a message stops the run iff its `id` is missing, its fetch fails or its `payload` is missing |
| `Pipeline.SaveSpec` | fetch_invoices.py:77-82 | `save_attachment`: a failing open changes nothing; otherwise the file is truncated, then a decoding or write error leaves it empty and raises, and success stores the decoded bytes and prints `Downloaded: <filename>` |
| `Pipeline.TryPart` | fetch_invoices.py:102-109 | the `try` block: record the retrieval requests, retrieve, decode and extract (printing extraction lines), and save only when the text matches; the first error raised ends the block |
| `Pipeline.PartStep` | fetch_invoices.py:98-112 | one inner-loop iteration: an unselected part changes nothing; a selected part runs the `try` block, and an error it raises is printed as `Error processing <filename>: <detail>` |
| `Pipeline.PartsStep` | fetch_invoices.py:98-112 | the inner loop: every top-level part in order, none of them stopping the loop |
| `Pipeline.MessagesStep` | fetch_invoices.py:91-112 | the outer loop: every message in order, stopping at the first one that aborts the run |
| `Pipeline.RunSpec` | fetch_invoices.py:84-112 | creates the folder if absent, sends one list request, stops if it fails, then handles the messages in order and stops at the first abort |
| `Pipeline.PartWrite` | fetch_invoices.py:102-109 | a part writes exactly when it is selected, its data is retrieved and decoded, its text matches and its open succeeds; the file is stored under its filename in the folder, with the decoding of that same data, or left empty when the write raises |
| `Pipeline.PartStepFiles` | fetch_invoices.py:102-109 | the folder changes only by storing the single file `PartWrite` names; no other entry changes |
| `Pipeline.FailedPartIsIsolated` | fetch_invoices.py:102-112 | a retrieval or decoding error prints `Error processing <filename>: <detail>`, writes nothing, and the loop goes on with the next part |
| `Pipeline.FailedWriteLeavesEmptyFile` | fetch_invoices.py:79-81 | a matching part whose write raises leaves an empty file under its name, and the `except` at lines 111-112 prints `Error processing <filename>: <detail>` |
| `Pipeline.LaterWriteWins` | fetch_invoices.py:79-81 | two matching parts with one filename leave only the later one's bytes |
| `Pipeline.UnreadablePdfSavedWithEmptySearchString` | fetch_invoices.py:107-109 | with an empty search string among the criteria, an unreadable PDF is still saved |
| `Pipeline.UnreadablePdfNotSaved` | fetch_invoices.py:107-108 | without an empty search string, a PDF whose extraction fails is never saved |
| `Pipeline.RunShape` | fetch_invoices.py:84-112 | after a run the folder exists; exactly one list request was sent, first; lines are only appended; no file disappears; every created or changed file is a PDF-named file in the folder |
| `Pipeline.FolderCreationIdempotent` | fetch_invoices.py:86-87 | a run against an existing folder behaves exactly like one that has to create it |
| `Pipeline.AbortStopsRun` | fetch_invoices.py:91-93 | after an aborting message no later message is fetched or processed |
| `Pipeline.NoSearchStringsNoWrites` | fetch_invoices.py:84 | with the default `search_strings=[]` no file is written |
| `Pipeline.SingleInvoiceScenario` | fetch_invoices.py:84-112 | one message, one inline PDF part mentioning "invoice", criterion `INVOICE`: exactly that file, with the decoded bytes, and one `Downloaded:` line |
| `Pipeline.Downloader.SaveAttachment` | fetch_invoices.py:77-82 | the file state and error after the call are those of `SaveSpec`: open may raise, then the file is truncated, the data decoded and written (either may raise) and a line printed |
| `Pipeline.Downloader.ProcessPart` | fetch_invoices.py:98-112 | the state after one inner-loop iteration, `try`/`except` included, is `PartStep` of the state before |
| `Pipeline.Downloader.DownloadAttachments` | fetch_invoices.py:84-112 | the state and outcome after the nested loops are `RunSpec` of the state before |

## Left out

- `authenticate` and `main`: the OAuth flow, the pickled token and the client construction are I/O around a foreign library. The other functions `main` calls are modelled one by one.
- `validate_date_format`: `datetime.strptime`'s parsing rules are not modelled, so `GetEnvDate` takes the check as a parameter.
- The Gmail API itself (`userId='me'`, HTTP, paging tokens): it is modelled as three functions that answer or fail. A failure's text is whatever the service supplies.
- `base64.urlsafe_b64decode` and PyPDF2 are parameters: a partial decoder, and a document that cannot be read or gives per page text or an error. PDF syntax is not modelled.
- Pipeline.SaveSpec: a write that raises part-way is modelled as leaving the file empty; which prefix of the bytes reached the disk depends on the operating system and is not modelled.
- The temporary file in `extract_pdf_text`, its deletion, and the errors its write or `os.unlink` could raise.
- `os.path.join` is kept as a (folder, name) pair. Path semantics (a name containing `/`, an absolute name) are not modelled.
- `os.makedirs` is modelled as adding the folder to a set. Its own failures and a non-directory already at that path are not modelled.
- `print` appends to the log sequence. Nothing is written to stdout.
- Exceptions nobody raises on purpose (`KeyboardInterrupt`, memory errors, a non-string filename) are not modelled.
- Text.Lower: folds only the ASCII letters `A`-`Z`. Python's `str.lower` also folds non-ASCII letters, so filenames, search strings and page text with such letters may be judged differently. Python's `str.lower` is also context-sensitive (a capital sigma at the end of a word becomes `ς`), so lowering page by page, as line 67 does, can differ from lowering the whole text; `Text.LowerAppend` and the concatenation half of `Pdf.PagesTextIsLoweredConcatenation` hold for the ASCII fold only.
