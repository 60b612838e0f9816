# ocr-extract: webhook dispatch and PDF text aggregation, in Dafny

This project models two parts of the OCR service. It states and proves what
each part promises.

**The webhook dispatch engine (`WebhookService`).** For every active
webhook configuration it builds a JSON payload from an OCR or PDF result:
- it forms a default payload;
- it merges a template over it, shallowly;
- it does a placeholder substitution pass on the serialised text;
- it falls back to the merged payload when the substituted text does not parse.

It then sends the payload. The request carries the configuration's method,
URL, headers and timeout, and `Content-Type` defaults to `application/json`.
Sending tries up to `retry_attempts` times, waiting `retry_delay * 2^i`
seconds after failed attempt `i`, except after the last attempt. A status of
200, 201 or 202 counts as success. Each configuration gets one outcome record,
and an exception raised while building its payload becomes an outcome with an
error instead of stopping the other configurations. The status summary and
the "is configured" test read the same configuration store.

**The PDF service (`PDFService`).** Each page is classified:
- `native` when the page's native text is not blank; it carries that text stripped;
- otherwise it is OCR'd and becomes `ocr`, with the line texts joined by single spaces;
- `no_text` when OCR finds no line;
- `error` when rendering or recognition raises.

The page results are folded into the result record, including the
`text_extracted` and `ocr_used` flags. Their non-blank texts, stripped, are
joined into `full_text_content`. The record is handed to the dispatcher, and
whatever the dispatcher does never changes the record.

**Files:**
- `wrappers.dfy`: `Option` and `Result`.
- `text.dfy`: the Python `str` operations the core uses (`strip`, `" ".join`, `replace`, `lower`, `endswith`, `str(int)`).
- `json.dfy`: JSON values and Python dicts as ordered lists of bindings (lookup, `copy`/`update`, truthiness), plus an abstract `json.dumps`/`json.loads`/`str` codec.
- `webhook.dfy`: specification functions for payload building, retry and dispatch, the lemmas about them, and the classes `Transport` (the network and `asyncio.sleep`) and `WebhookService`, whose methods are proved against those functions.
- `pdf.dfy`: page classification, text combination, the result record, and the class `PdfService`.

**Inputs that the model takes as parameters:**
- **Network.** `Transport` holds `reply`, the answer to the k-th request sent over its lifetime. It records the requests it has sent and the sleeps it was asked for.
- **`datetime.utcnow()`.** Each configuration's readings arrive as `Stamps`, indexed by its position in the active list.
- **Configuration store.** It is a snapshot: whether it raised, its active list and its summary.
- **PDF document.** A document is the sequence of its pages. Each page carries what `get_text()` gave and what rendering and recognition would produce.

## Model

| member | source | states |
|---|---|---|
| Text.LStrip | app/services/pdf_service.py:96 | removes only leading whitespace and leaves a result that does not start with whitespace |
| Text.RStrip | app/services/pdf_service.py:96 | removes only trailing whitespace and leaves a result that does not end with whitespace |
| Text.LStripSuffix | app/services/pdf_service.py:96 | the left-stripped text is a suffix of the input |
| Text.RStripPrefix | app/services/pdf_service.py:96 | the right-stripped text is a prefix of the input |
| Text.Strip | app/services/pdf_service.py:92-96 | `strip()` is a slice of the text with only whitespace before and after it; it is empty exactly when the text is all whitespace, and otherwise neither starts nor ends with whitespace |
| Text.StripTrimmed | app/services/pdf_service.py:177-178 | a text with no whitespace at either end is left unchanged by `strip()` |
| Text.StripIdempotent | app/services/pdf_service.py:177-178 | stripping twice is stripping once |
| Text.Join | app/services/webhook_service.py:106 | `" ".join` is empty exactly when there is no part or a single empty part; its length is the parts' lengths plus one separator between each pair |
| Text.JoinEnds | app/services/pdf_service.py:180 | the join starts with the first part and ends with the last |
| Text.ReplaceAll | app/services/webhook_service.py:168 | `replace` of a pattern by itself changes nothing, and a replacement of the pattern's length keeps the text's length |
| Text.ReplaceAbsent | app/services/webhook_service.py:167-168 | `replace` of a pattern that does not occur leaves the text unchanged |
| Text.ReplaceSkip | app/services/webhook_service.py:167-168 | a prefix that contains no character that could start the pattern is copied unchanged |
| Text.ReplaceNothing | app/services/webhook_service.py:167-168 | a text without the pattern's first character is unchanged |
| Text.ReplaceFirst | app/services/webhook_service.py:167-168 | the first occurrence is replaced and scanning continues after it |
| Text.ReplaceLeading | app/services/webhook_service.py:167-168 | a text that opens with the pattern has it replaced, and scanning continues after it |
| Text.ReplaceNoMatchPrefix | app/services/webhook_service.py:167-168 | a leading stretch in which no occurrence of the pattern starts is copied unchanged, even when an occurrence starting after it follows |
| Text.NatToString | app/services/webhook_service.py:160 | `str()` of a natural number is a non-empty run of digits with no leading zero |
| Text.IntToString | app/services/webhook_service.py:160 | `str()` of an integer has a minus sign exactly when the integer is negative, followed by digits |
| Text.NatToStringValue | app/services/webhook_service.py:160 | the digits of `str(n)` read back as `n` |
| Text.IntToStringInjective | app/services/webhook_service.py:160 | distinct counts give distinct `{{text_count}}` strings |
| JsonModel.HasKeyListed | app/services/webhook_service.py:95 | `key in d` holds exactly when some binding has that key |
| JsonModel.GetListed | app/services/webhook_service.py:120 | in a dict with unique keys, each binding is what lookup returns |
| JsonModel.Rebind | app/services/webhook_service.py:132 | assigning an existing key changes its value and keeps every key in place |
| JsonModel.Put | app/services/webhook_service.py:132 | `d[k] = v`: a later lookup of `k` gives `v` and other keys are unchanged; an existing key keeps its position, a new key goes at the end; unique keys stay unique |
| JsonModel.Update | app/services/webhook_service.py:131-132 | `d.update(t)` keeps `d`'s keys in their positions, adds at most the keys of `t`, and keeps unique keys unique |
| JsonModel.UpdateGet | app/services/webhook_service.py:131-132 | after `d.update(t)`, a key of `t` has `t`'s value and any other key keeps `d`'s value |
| JsonModel.UpdateAppends | app/services/webhook_service.py:131-132 | the keys `update` appends after `d`'s are keys of `t` that `d` did not have |
| Webhook.TextParts | app/services/webhook_service.py:95-104 | each segment contributes at most one text |
| Webhook.TextPartsAppend | app/services/webhook_service.py:97-104 | the texts of a concatenated list are the texts of each part, in order |
| Webhook.Strings | app/services/webhook_service.py:106 | the strings of a list of JSON strings correspond to them one to one |
| Webhook.SegmentTexts | app/services/webhook_service.py:92-106 | a non-empty join comes only from a non-empty `results` list; iterating raises exactly when `results` is a truthy number or boolean; the join raises exactly when some collected text is not a string; no other error is possible |
| Webhook.PayloadFullText | app/services/webhook_service.py:92-110 | it raises exactly when collecting the segment texts raises; a non-empty segment join is the full text; otherwise the result's own `full_text_content` is used if present, and `""` if not |
| Webhook.JoinStrings | app/services/webhook_service.py:106 | joining parts that are all strings never raises and gives their space-join |
| Webhook.SegmentJoin | app/services/webhook_service.py:95-106 | a non-empty `results` list whose texts are strings yields their space-join, empty texts included |
| Webhook.FileType | app/services/webhook_service.py:123 | `file_type` is `pdf` or `image`, and `pdf` only for a file name of at least four characters |
| Webhook.FileTypeIsPdf | app/services/webhook_service.py:123 | `file_type` is `pdf` exactly when the name ends in `.pdf` in any letter case |
| Webhook.DefaultPayload | app/services/webhook_service.py:113-125 | the default payload binds each key once: `timestamp`, `source`, `filename`, `ocr_result` and `full_text_content` to the given values, and `metadata` to a dict of `text_count` (default 0), `config_name`, `processing_method` (default `unknown`) and `file_type` |
| Webhook.MergedPayload | app/services/webhook_service.py:127-132 | a template key takes the template's value (a nested dict replaces the default one wholesale), every other key keeps the default's value; the default keys keep their positions, only new template keys are appended, and unique keys stay unique |
| Webhook.Replacements | app/services/webhook_service.py:158-165 | exactly six placeholders, in the dict's order `{{filename}}`, `{{text_count}}`, `{{config_name}}`, `{{timestamp}}`, `{{ocr_data}}`, `{{full_text_content}}`, each non-empty, with the values `filename or "unknown"`, `str(ocr_data.get("text_count", 0))`, the configuration name, the timestamp, `json.dumps(ocr_data)` and the full text |
| Webhook.ApplyAbsent | app/services/webhook_service.py:167-168 | a text that contains no placeholder passes through substitution unchanged |
| Webhook.Substitute | app/services/webhook_service.py:141-174 | it raises exactly when collecting the segment texts raises; otherwise it is the parsed substituted text, or the merged payload unchanged when that text does not parse |
| Webhook.SubstituteWithoutTokens | app/services/webhook_service.py:154-172 | a payload that contains no placeholder and survives `loads(dumps(p))` comes back unchanged |
| Webhook.PlainConcat | app/services/webhook_service.py:167-168 | two texts in which no placeholder can start are such a text side by side |
| Webhook.PlainPrefix | app/services/webhook_service.py:167-168 | a placeholder pass copies a leading text in which no placeholder can start, such as a dict's opening brace and key |
| Webhook.PlainUntouched | app/services/webhook_service.py:167-168 | a placeholder pass leaves a text in which no placeholder can start unchanged |
| Webhook.CountSurvivesFilename | app/services/webhook_service.py:158-168 | the `{{filename}}` pass copies a `{{text_count}}` token, whatever follows it |
| Webhook.FilenameAndCount | app/services/webhook_service.py:158-168 | a serialised payload `pre + {{filename}} + mid + {{text_count}} + post`, in which no other placeholder can start, becomes `pre + filename (or unknown) + mid + str(text_count) + post`; everything else is kept |
| Webhook.TwoTokens | app/services/webhook_service.py:167-168 | the same for any replacement list that starts with those two tokens and continues with only placeholders |
| Webhook.ApplyRestUntouched | app/services/webhook_service.py:167-168 | once no placeholder can start in the text, the remaining passes leave it alone |
| Webhook.FilenameReplaced | app/services/webhook_service.py:167-168 | the `{{filename}}` pass replaces exactly that token in the serialised text |
| Webhook.CountReplaced | app/services/webhook_service.py:167-168 | the `{{text_count}}` pass replaces exactly that token in the serialised text |
| Webhook.NoteTemplateExample | app/services/webhook_service.py:158-168 | a payload whose serialisation is the entry `"note": "File: {{filename}}, count: {{text_count}}"` between two texts that contain no `{{` and do not end in `{` (as the default payload with that template merged in serialises) has that entry read `"note": "File: a.png, count: 2"` for file `a.png` and count 2, and both surrounding texts kept |
| Webhook.Payload | app/services/webhook_service.py:89-139 | building the payload raises exactly when collecting the segment texts raises; without a template it is the default payload; with one it is the parse of the merged payload's substituted text whenever that parses, and the merged payload itself otherwise |
| Webhook.PayloadWithoutTemplate | app/services/webhook_service.py:113-139 | with no template, the payload is the default one, carrying the full text, source, config name and file type |
| Webhook.RequestHeaders | app/services/webhook_service.py:182-184 | the configured headers are kept, and `Content-Type` is added as `application/json` only when absent |
| Webhook.HeadersCaseSensitive | app/services/webhook_service.py:183-184 | a lower-case `content-type` header does not prevent the default from being added |
| Webhook.FirstSuccessIs | app/services/webhook_service.py:70-75 | the first successful attempt is at position k exactly when all earlier attempts failed and attempt k succeeded |
| Webhook.Backoff | app/services/webhook_service.py:80-84 | the wait list has one entry per wait |
| Webhook.BackoffAt | app/services/webhook_service.py:81-82 | the i-th wait is `retry_delay * 2^i` |
| Webhook.Retry | app/services/webhook_service.py:70-87 | delivered exactly when some attempt succeeds; the last attempt made is the first success and all earlier ones failed; never more attempts than configured, and all of them when none succeeds; the waits are the backoff sequence, one fewer than the attempts |
| Webhook.RetryStopsAt | app/services/webhook_service.py:70-74 | the first success at attempt k stops the loop after k+1 attempts and k waits |
| Webhook.RetryExhausted | app/services/webhook_service.py:70-87 | when every attempt fails, all of them are made, with one wait fewer than attempts, and the result is false |
| Webhook.BackoffTotal | app/services/webhook_service.py:80-84 | m waits total `retry_delay * (2^m - 1)` seconds |
| Webhook.AllAttemptsFail | app/services/webhook_service.py:70-87 | n failed attempts are followed by n-1 waits totalling `retry_delay * (2^(n-1) - 1)` |
| Webhook.DefaultPolicyExample | app/services/webhook_service.py:70-87 | three failing attempts with delay 1 wait 1 s, then 2 s, and there is no fourth attempt |
| Webhook.Verdicts | app/services/webhook_service.py:193-198 | there is one verdict per attempt |
| Webhook.VerdictsAt | app/services/webhook_service.py:193-198 | attempt i succeeds exactly when its response status is 200, 201 or 202 |
| Webhook.VerdictsMatch | app/services/webhook_service.py:193-198 | every verdict is whether its request's answer is a success |
| Webhook.Repeat | app/services/webhook_service.py:70-72 | each attempt sends the same request |
| Webhook.Deliver | app/services/webhook_service.py:61-87 | a disabled or URL-less configuration sends nothing and gives false; for a usable configuration the result is an error exactly when building the payload failed, and then it is that error and nothing is sent; otherwise the requests are the same request repeated, no more than the budget, true means the last reply succeeded and all earlier ones failed, and false means the whole budget failed; the waits are the backoff `retry_delay * 2^i` after each attempt but the last |
| Webhook.ServesRespects | app/services/webhook_service.py:61-87 | such a delivery respects each configuration's enabled flag, URL and attempt budget |
| Webhook.OutcomeOf | app/services/webhook_service.py:34-56 | the record copies the configuration's id, name and URL and the timestamp; `success` holds exactly when the delivery returned true; an error is recorded exactly when one was raised |
| Webhook.Dispatch | app/services/webhook_service.py:28-56 | there is one outcome per configuration served |
| Webhook.DispatchOutcomeAt | app/services/webhook_service.py:30-56 | outcome j is the outcome of configuration j, delivered after the requests of the earlier configurations |
| Webhook.DispatchOutcomes | app/services/webhook_service.py:30-56 | each outcome carries its configuration's id, name, URL and timestamp; an error outcome is never a success; only an enabled configuration with a URL can succeed |
| Webhook.DispatchPrefix | app/services/webhook_service.py:28-56 | serving more configurations only extends the outcomes, the requests and the waits |
| Webhook.DispatchNothingUsable | app/services/webhook_service.py:30-64 | if no configuration is enabled with a URL, nothing is sent, nothing waits, and nothing succeeds |
| Webhook.DispatchRequestsBounded | app/services/webhook_service.py:30-87 | the total number of requests is at most the sum of the attempt budgets |
| Webhook.NonEmptyUrls | app/services/webhook_service.py:218 | `active_urls` holds exactly the non-empty URLs of the active configurations; a single configuration contributes its URL if it is non-empty |
| Webhook.NonEmptyUrlsAppend | app/services/webhook_service.py:218 | the URLs keep the configurations' order: two runs of configurations list their URLs one after the other |
| Webhook.AnyUsable | app/services/webhook_service.py:221-224 | true exactly when some configuration is enabled and has a URL |
| Webhook.Transport.constructor | app/services/webhook_service.py:180 | a fresh transport has sent nothing and waited for nothing |
| Webhook.Transport.Send | app/services/webhook_service.py:187-192 | the response is the next reply, and the request is recorded |
| Webhook.Transport.Sleep | app/services/webhook_service.py:84 | the wait is recorded and nothing is sent |
| Webhook.WebhookService.constructor | app/services/webhook_service.py:13-14 | the service reads the given store through the given transport and codec |
| Webhook.WebhookService.CombineSegmentTexts | app/services/webhook_service.py:92-106 | the loop computes the segment join, or the exception the iteration or the join raises |
| Webhook.WebhookService.ReplacePlaceholders | app/services/webhook_service.py:141-174 | the method computes the substitution pass and its fallback |
| Webhook.WebhookService.PreparePayload | app/services/webhook_service.py:89-139 | the method computes the payload specification |
| Webhook.WebhookService.SendRequest | app/services/webhook_service.py:176-205 | one request is sent with the configuration's method, URL, headers and timeout; the result is true exactly when the status is 200, 201 or 202 |
| Webhook.WebhookService.SendWithConfig | app/services/webhook_service.py:61-87 | the requests, waits and result are those of the delivery specification |
| Webhook.WebhookService.SendWithRetries | app/services/webhook_service.py:70-87 | the retry loop sends exactly the attempts and sleeps exactly the waits of the retry specification, and returns whether it delivered |
| Webhook.WebhookService.Serve | app/services/webhook_service.py:30-33 | serving configuration i performs its delivery on the transport |
| Webhook.WebhookService.ServeConfig | app/services/webhook_service.py:30-56 | one loop iteration appends exactly configuration i's outcome, requests and waits |
| Webhook.WebhookService.SendOcrResult | app/services/webhook_service.py:16-59 | an unreachable store raises and sends nothing; otherwise the outcomes, requests and waits are those of dispatching every active configuration in order |
| Webhook.WebhookService.GetWebhookStatus | app/services/webhook_service.py:207-219 | enabled exactly when there are active configurations; the counts and `last_updated` are the store's; `active_urls` is the list of non-empty URLs in the configurations' order, repeats kept; it fails exactly when the store raises |
| Webhook.WebhookService.IsConfigured | app/services/webhook_service.py:221-224 | true exactly when some active configuration is enabled with a URL; it fails exactly when the store raises |
| Webhook.WebhookService.DispatchReports | app/services/webhook_service.py:28-59 | a dispatch gives one faithful outcome per active configuration and at most the sum of their attempt budgets in requests |
| Webhook.WebhookService.ConfiguredAgreement | app/services/webhook_service.py:207-224 | if the service is configured, the status lists some URL; if not, dispatch sends nothing |
| Pdf.Scan | app/services/pdf_service.py:126-137 | reading the entries gives at most one text per entry, or fails with the message of an entry that raises |
| Pdf.LineTextsSnoc | app/services/pdf_service.py:126-137 | a recognised line adds its text at the end; a skipped line adds nothing |
| Pdf.ScanReadable | app/services/pdf_service.py:126-137 | when no entry raises, the page texts are the texts of the recognised lines, in order |
| Pdf.ScanFirstUnreadable | app/services/pdf_service.py:127-131 | the first entry that raises determines the error |
| Pdf.ScanUnreadable | app/services/pdf_service.py:126-137 | reading the entries fails exactly when some entry raises |
| Pdf.ScanPrefixFails | app/services/pdf_service.py:126-137 | a failure among the first entries is the failure of the whole page |
| Pdf.OcrPageResult | app/services/pdf_service.py:110-170 | an OCR page record carries its page number, is never `native`, and is well formed |
| Pdf.OcrPageCases | app/services/pdf_service.py:110-170 | OCR gives `ocr` with the joined line texts when lines are recognised, `no_text` with an empty text when none are, and `error` with the message when anything raises |
| Pdf.PageResultOf | app/services/pdf_service.py:86-108 | a page record carries its page number and is well formed; it is `native` exactly when the native text is not blank, and then carries that text stripped; any other page is the OCR record |
| Pdf.PageKind | app/services/pdf_service.py:86-108 | a page is `ocr` exactly when its native text is blank and OCR yields lines |
| Pdf.CombinedText | app/services/pdf_service.py:172-180 | the combined text is empty exactly when every page text is blank, and otherwise neither starts nor ends with whitespace |
| Pdf.PiecesAppend | app/services/pdf_service.py:174-178 | the pieces of a concatenation are the pieces of each part |
| Pdf.PieceClean | app/services/pdf_service.py:177-178 | a piece is non-empty and has no whitespace at either end |
| Pdf.PiecesClean | app/services/pdf_service.py:174-178 | the same holds for every piece |
| Pdf.PiecesEmpty | app/services/pdf_service.py:174-180 | there are no pieces exactly when every page text is blank |
| Pdf.AllBlankSnoc | app/services/pdf_service.py:177 | all pages are blank exactly when all but the last are and the last is too |
| Pdf.CleanJoin | app/services/pdf_service.py:180 | stripped non-empty pieces join to a text that is empty only without pieces and otherwise has no whitespace at either end |
| Pdf.CleanEnds | app/services/pdf_service.py:177-178 | a piece neither starts nor ends with whitespace |
| Pdf.PageResults | app/services/pdf_service.py:34-39 | there is one result per page |
| Pdf.PageResultsAt | app/services/pdf_service.py:34-39 | result i is page i+1 processed |
| Pdf.AnyOfTypeSnoc | app/services/pdf_service.py:42-45 | a flag is set after a page exactly when it was already set or that page is of its type |
| Pdf.PdfOutcome | app/services/pdf_service.py:20-84 | it fails exactly when the document cannot be opened, with the `PDF processing failed: ` message; otherwise the record carries the file name and size, the page count as `pdf_pages`, `pages_processed` and `text_count`, the pages' records and their combined text |
| Pdf.PdfSummary | app/services/pdf_service.py:52-65 | `pages_processed`, `pdf_pages` and `text_count` all equal the number of pages; each result is its page processed and well formed; the message reports all pages processed |
| Pdf.PdfFlags | app/services/pdf_service.py:31-45 | `text_extracted` is set exactly when some page has native text, and `ocr_used` exactly when some page without native text yields OCR lines |
| Pdf.PageKinds | app/services/pdf_service.py:34-45 | some result is native (or ocr) exactly when some page is classified that way |
| Pdf.PageKindAt | app/services/pdf_service.py:34-45 | the kind of result i agrees with page i+1 |
| Pdf.AnyOfTypeAgrees | app/services/pdf_service.py:42-45 | records whose kinds agree with their pages agree on which kinds occur |
| Pdf.PageTextParts | app/services/pdf_service.py:94-100 | the webhook reads each page dict's `text`, empty ones included, in page order |
| Pdf.PageFieldsText | app/services/pdf_service.py:94-100 | a page dict binds `text` to the page text |
| Pdf.PdfWebhookFullText | app/services/pdf_service.py:49-72 | the full text in a PDF's webhook payload is the space-join of the raw page texts, not the record's combined `full_text_content` |
| Pdf.RecordWebhookFullText | app/services/webhook_service.py:92-110 | the same for any record whose `full_text_content` is its combined text |
| Pdf.PdfFieldsGet | app/services/pdf_service.py:52-65 | the record's dict binds `results` to the page dicts and `full_text_content` to the combined text |
| Pdf.SingleBlankPage | app/services/pdf_service.py:172-180 | a single empty page combines to the empty text |
| Pdf.PdfService.constructor | app/services/pdf_service.py:16-18 | the service dispatches through the given webhook service |
| Pdf.PdfService.OcrPage | app/services/pdf_service.py:110-170 | the line loop and its exception handling compute the OCR page record |
| Pdf.PdfService.ProcessPage | app/services/pdf_service.py:86-108 | the method computes the page classification |
| Pdf.PdfService.CombineTextResults | app/services/pdf_service.py:172-180 | the loop computes the space-join of the stripped non-blank page texts |
| Pdf.PdfService.ProcessPages | app/services/pdf_service.py:29-45 | the page loop gives one result per page in order, counts every page as processed, and sets the two flags exactly when some page has that type |
| Pdf.PdfService.ProcessPdf | app/services/pdf_service.py:20-84 | a document that cannot be opened fails without any webhook traffic; otherwise the returned record is the specification's record whatever the dispatch did, and the transport shows exactly that dispatch |

## Behaviour worth noting

- **Full text.** The segment join takes precedence: a provided `full_text_content` is used only when the join is empty.
- **Empty segment texts are joined too.** An empty text still contributes its separator.
- **Dead branch.** The `elif` at app/services/webhook_service.py:103 repeats the `if` above it and can never run.
- **Headers.** The `Content-Type` test is case-sensitive. `Webhook.HeadersCaseSensitive` shows a lower-case header getting a second `Content-Type`.
- **Inner exceptions.** `_send_webhook_request` catches every exception, so the `except` inside the retry loop can never be reached.
- **Page count.** `_process_page` never returns `None`, so `pages_processed` always equals `pdf_pages`.
- **PDF webhook text.** The payload's full text for a PDF is the join of the raw page texts, blank pages included (`Pdf.PdfWebhookFullText`). The stripped `full_text_content` of the record is never what the payload carries.

## Left out

- **Network I/O.** aiohttp, its session and its timeout are not modelled. The transport's `reply` function stands for whatever the network answers, and a timeout or connection error is a reply that is not a success.
- **asyncio.** `asyncio.sleep` and task scheduling are recorded as a list of requested waits. Concurrency between requests is not modelled; the source runs them sequentially.
- **JSON serialisation.** `json.dumps`, `json.loads` and `str()` of a JSON value are an abstract codec passed in, with no internal behaviour. Only the round-trip property is assumed where a lemma requires it.
- **Clock.** `datetime.utcnow().isoformat()` readings are parameters (`Stamps`).
- **Configuration store.** `app/services/webhook_config_service.py` is not part of this model. Its validation, persistence and summary computation are not modelled; the store is a snapshot.
- **Confidences.** The per-line and per-page confidence values and their average are floating-point and are not modelled.
- **Bounding boxes.** `bbox` values are not modelled. Page dicts carry `bbox: null`, and `ocr_details` carries only the texts.
- **PDF libraries.** PyMuPDF, PIL, OpenCV and the PaddleOCR engine are inputs. A page is what `get_text()` returned, or that it raised, plus what rendering and recognition would produce.
- **Logging.** All `logger` calls and the traceback formatting are omitted.
- **Routing.** The HTTP endpoints and application start-up (`app/api/endpoints.py`, `app/main.py`, `main.py`) are not modelled.
- `get_supported_formats` and `get_processing_capabilities` return constant values and are not modelled.
- **`lower()`** maps only ASCII letters. The extension test only needs `.pdf` in any case.
- `Webhook.OutcomeOf`: the `error` entry holds the kind of exception (`Webhook.Error`), not its message `str(e)` (app/services/webhook_service.py:54).
- **Integers.** Integers are unbounded, as Python's are, so no wrap-around is modelled.
