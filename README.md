# PDF chat service: a Dafny model

The service keeps uploaded PDFs' text in memory and answers questions about it.
It has two request handlers that share one dictionary, `pdf_storage`, which maps
a file name to that file's extracted text:

- `upload_pdf` reads the PDF and joins the pages' texts in page order with no
  separator. It refuses text that strips to nothing. Otherwise it stores the text
  under the file name, replacing any earlier text, and replies with a fixed
  confirmation record.
- `chat_about_pdf` looks the id up. Only when the id is stored does it call the
  text-to-text model, once, on the prompt
  `"question: " + question + " context: " + text`. The reply is the first
  candidate's `generated_text`.

Each handler wraps its work in `try … except Exception`, and the `except` clause
answers HTTP 500. The handlers raise 400 for blank text and 404 for an unknown
id inside that same `try`, so the `except` clause replaces both with 500; an
empty candidate list, where `answer[0]` raises, gives 500 as well. The model
follows the code: every `HttpError` it produces has status 500. It also
records the failure kind (`cause`), which stands for the exception the handler
logs. `Failure.RaisedStatus` gives the status of the exception raised
inside the `try` (400 or 404), and `BlankUploadIsRefused` and
`NeverUploadedIsNotFound` show that this status never reaches the caller.

Layout:

- `text.dfy`, module `Text`: the whitespace test behind Python's `str.isspace`
  and `str.strip`, stripping, and the page-text concatenation with its lemmas.
- `pdf_chat.dfy`, module `PdfChat`: the replies, failure kinds and constants.
  The handlers appear twice: as value-level functions (`Ingest`, `UploadStep`,
  `AskReply`), and as the class `PdfService` with a `store` map field.
  `PdfService.Upload` runs the page loop and rewrites `store`.
  `PdfService.Ask` only reads `store`.
- `properties.dfy`, module `PdfChatProperties`: what runs of requests do.
  It covers last write wins, other names left alone, names never uploaded,
  and the scenarios of a readable upload, a blank upload and an unknown id.

The PDF parser and the model are inputs. An upload gets an `Extraction`: either
every page's text, or "the parser raised". A question gets a function
`generate: string -> Generation` from a prompt to either the candidates' texts or
"the model raised". The class `Generator` wraps that function. Its one method,
`Generate`, appends each prompt it answers to the ghost log `calls`, and the body
of `PdfService.Ask` reaches the model only through `Generate`. The contract of
`Ask` states through that log that the model is called exactly once, on the
exact prompt, for a stored id, and never for an unknown one. `SkyScenario` and
`MissingScenario` in `properties.dfy` are verified call sequences on the class:
one readable upload followed by a question, and a question about a name never
uploaded.

## Model

| member | source | states |
|---|---|---|
| `Text.TrimStart` | main.py:29 | the result is the suffix of the input left after a blank prefix, and it does not start with whitespace |
| `Text.TrimEnd` | main.py:29 | the result is the prefix of the input left before a blank suffix, and it does not end with whitespace |
| `Text.AsciiWhitespaceExactly` | main.py:29 | among ASCII characters, `strip()` removes exactly tab, line feed, vertical tab, form feed, carriage return, 0x1C-0x1F and space |
| `Text.StripEmptyIffBlank` | main.py:29 | `s.strip()` is empty exactly when every character of `s` is whitespace |
| `Text.ConcatLength` | main.py:24-27 | the joined text is exactly as long as all page texts together: no separator is inserted |
| `Text.ConcatSplit` | main.py:24-27 | the `+=` loop's text splits, at any page boundary, into the text of the pages before and the text of the pages after it |
| `Text.ConcatPageAt` | main.py:24-27 | each page's text appears verbatim, in page order, between the text of the earlier pages and the text of the later ones, with nothing inserted |
| `Text.ConcatBlankIffPagesBlank` | main.py:24-31 | the joined text is blank exactly when every page's text is blank |
| `PdfChat.Failure.RaisedStatus` | main.py:29-55 | the `try` blocks raise status 400 exactly for blank text and 404 exactly for an unknown id, both client errors; every other failure raises no `HTTPException` (no status) |
| `PdfChat.CatchAll` | main.py:44-46 | a returned value passes through unchanged; any raised failure, including the handler's own 400 and 404, becomes status 500 with the handler's fixed detail |
| `PdfChat.Ingest` | main.py:23-31 | the text to store is the joined page text, exactly when the parser did not raise and that text is not blank; otherwise the failure is ExtractError or NoText |
| `PdfChat.UploadStep` | main.py:19-46 | success exactly for accepted extractions; on success the entry for the file name is the joined text and the reply has `pdf_id` = file name with the fixed message and instructions; the new store is the old one with the file name mapped to the joined text when accepted, and the old store otherwise; on failure the status is 500 with the fixed detail and the cause is ExtractError or NoText |
| `PdfChat.AskReply` | main.py:50-66 | an unknown id fails as NotFound with 500; success exactly when the id is stored and the model returns at least one candidate for the prompt built from the question and the stored text; the answer is the first candidate; every failure is 500 |
| `PdfChat.PdfService.constructor` | main.py:15 | the store starts empty and satisfies the no-blank-text invariant |
| `PdfChat.PdfService.Upload` | main.py:19-46 | the page loop builds the joined text; reply and new store are those of `UploadStep` on the old store; the store never holds a blank text |
| `PdfChat.PdfService.Ask` | main.py:50-66 | the reply is `AskReply` on the current store for the model's answers; the model's call log grows by exactly the prompt built from the question and the stored text when the id is stored, and by nothing otherwise; the store is not modified |
| `PdfChat.Generator.constructor` | main.py:12 | a fresh model has answered no prompt yet |
| `PdfChat.Generator.Generate` | main.py:61 | one call of the model returns its answer to the prompt and appends that prompt, and only it, to the call log |
| `PdfChat.Prompt` | main.py:61 | the prompt is `question: `, the question, ` context: `, then the whole stored text, untruncated, and nothing else |
| `PdfChatProperties.PromptDeterminesText` | main.py:61 | for one question, different stored texts give different prompts |
| `PdfChatProperties.RunUploadsKeys` | main.py:29-36 | after any run of uploads, a name is stored exactly when it was stored before or some upload under it was accepted |
| `PdfChatProperties.RunUploadsLastWins` | main.py:33-36 | a name's text after a run is that of the last accepted upload under it |
| `PdfChatProperties.RunUploadsUntouched` | main.py:29-36 | a name that no accepted upload used keeps its earlier presence and text |
| `PdfChatProperties.RunUploadsNeverBlank` | main.py:29-36 | no run of uploads ever stores a blank text |
| `PdfChatProperties.UploadKeepsOtherNames` | main.py:33-36 | an upload under one name never changes or removes the text stored under another |
| `PdfChatProperties.OverwriteForgetsFirst` | main.py:33-36 | two uploads under one name, the second accepted, leave the store exactly as the second alone would |
| `PdfChatProperties.FailedReuploadKeepsText` | main.py:29-46 | a failing re-upload under a name leaves the earlier accepted text in place |
| `PdfChatProperties.ReadablePageAccepted` | main.py:24-31 | a document with some page whose text is not blank passes the `strip()` check |
| `PdfChatProperties.UploadThenAskReachesModel` | main.py:24-61 | a document with one non-blank page is stored under its name, and a later question about it never fails as not found |
| `PdfChatProperties.BlankUploadIsRefused` | main.py:29-55 | a document whose pages are all blank gets 500, not the raised 400, leaves the store unchanged, and a new name stays unknown |
| `PdfChatProperties.NeverUploadedIsNotFound` | main.py:53-55 | after any run of uploads none of whose accepted ones used a name, asking about it fails as not found with 500, not the raised 404, whatever the question and the model |

## Left out

- FastAPI wiring (the app, the route decorators, `UploadFile`/`File`, JSON serialisation). This is transport. The reply records stand for the returned dictionaries, and `HttpError` stands for the raised `HTTPException`.
- Logging. It has no effect on replies or on the store. The `cause` field stands for the exception that the `except` clauses log.
- The PDF parser (`PdfReader`, `page.extract_text()`). It is a foreign library, so the model takes its result as an `Extraction` input. A parser that raises on any page counts as one "raised" outcome, and so does an `extract_text()` result that cannot be added to a string.
- The text-to-text model and its loading. Inference is foreign and not deterministic, so the model is a function parameter. Its output is reduced to the candidates' `generated_text` strings. Only the first candidate is read: a first candidate without `generated_text` is folded into "the model raised", while later candidates are never read, so any string may stand for them in `Candidates`.
- Concurrency. The handlers are `async` and share the dictionary without locks. The model handles requests one at a time, so interleaved uploads and questions are not modelled.
- The upload's file name is taken to be a string. The framework's `filename` may be absent, and that case is not modelled.
- Python string semantics beyond `strip()`. Strings are sequences of code points. `IsWhitespace` lists the code points that `str.isspace` accepts.
- `PdfService.Ask` receives the model as a `Generator` whose `answer` field is visible. The contract on the call log constrains the calls made through `Generate`. Under `modifies model`, a body that read `answer` directly, bypassing `Generate`, would not show in the log, and a body that assigned the public ghost field `calls` itself could write any log. The body of `Ask` does neither: it only calls `Generate`.
