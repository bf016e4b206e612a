/**
 * The document store and the two request handlers of the PDF chat service:
 * `upload_pdf` extracts a PDF's text and stores it under the file's name,
 * `chat_about_pdf` asks the text-to-text model a question about a stored text.
 *
 * The PDF parser and the model are not part of this model: the parser's work
 * arrives as an `Extraction` (the pages' texts, or "it raised"), and the model
 * is a function from a prompt to a `Generation` (its candidates, or "it raised").
 */
module PdfChat {
  import opened Text

  datatype Option<T> = None | Some(value: T)

  /** What reading the uploaded file with the PDF parser produced. */
  datatype Extraction =
    | Pages(texts: seq<string>)   // `page.extract_text()` of every page, in page order
    | ExtractionRaised            // the parser raised while reading or extracting

  /** What calling the text-to-text model on one prompt produced. */
  datatype Generation =
    | Candidates(texts: seq<string>)   // the `generated_text` of each candidate, in order
    | GenerationRaised                 // the model raised

  /** Why a handler failed. The reply never shows it: it stands for the
      exception the handler logs before answering with a generic error. */
  datatype Failure =
    | NoText        // the extracted text strips to nothing
    | ExtractError  // the parser raised
    | NotFound      // no stored text under the asked id
    | GenError      // the model raised
    | NoCandidate   // the model returned no candidate, so `answer[0]` raised
  {
    /** The status of the HTTP exception the handler's `try` block raises for
        this failure; `None` where a library exception is raised instead. */
    function RaisedStatus(): (r: Option<int>)
      ensures r == Some(400) <==> this == NoText
      ensures r == Some(404) <==> this == NotFound
      ensures r.Some? <==> this == NoText || this == NotFound
      ensures r.Some? ==> 400 <= r.value < 500
    {
      match this
      case NoText => Some(400)
      case NotFound => Some(404)
      case _ => None
    }
  }

  /** What a handler's `try` block ends with, before its `except` clause runs. */
  datatype Outcome<T> = Returned(value: T) | Raised(failure: Failure)

  /** What the caller receives. */
  datatype Reply<T> =
    | Ok(body: T)
    | HttpError(status: int, detail: string, cause: Failure)

  datatype UploadBody = UploadBody(message: string, pdfId: string, instructions: string)

  datatype AnswerBody = AnswerBody(answer: string)

  const UploadMessage := "PDF uploaded successfully!"
  // A plain string in `main.py`, not an f-string: "{pdf_id}" is sent as written.
  const Instructions := "You can ask questions about this PDF using /chat_about_pdf/{pdf_id} endpoint."
  const UploadErrorDetail := "An error occurred while processing the PDF."
  const AskErrorDetail := "An error occurred while processing your question."

  /** Both handlers end in `except Exception: raise HTTPException(500, detail)`.
      That clause also catches the 400 and 404 exceptions the `try` block
      raises itself, so whatever failed, the caller sees 500. */
  function CatchAll<T>(o: Outcome<T>, detail: string): (r: Reply<T>)
    ensures r.Ok? <==> o.Returned?
    ensures r.Ok? ==> r.body == o.value
    ensures r.HttpError? ==> r.status == 500 && r.detail == detail && r.cause == o.failure
  {
    match o
    case Returned(v) => Ok(v)
    case Raised(f) => HttpError(500, detail, f)
  }

  /** An extraction whose text gets stored: the parser did not raise and the
      joined page texts are not blank. */
  predicate Accepted(ex: Extraction) {
    ex.Pages? && !IsBlank(Concat(ex.texts))
  }

  /** The text the upload handler stores for an extraction, or why it stores
      nothing. The handler tests `not text.strip()`; the contract restates
      that test as "blank". */
  function Ingest(ex: Extraction): (o: Outcome<string>)
    ensures o.Returned? <==> Accepted(ex)
    ensures o.Returned? ==> o.value == Concat(ex.texts)
    ensures ex.ExtractionRaised? ==> o == Raised(ExtractError)
    ensures ex.Pages? && IsBlank(Concat(ex.texts)) ==> o == Raised(NoText)
  {
    match ex
    case ExtractionRaised => Raised(ExtractError)
    case Pages(texts) =>
      var text := Concat(texts);
      StripEmptyIffBlank(text);
      if Strip(text) == [] then Raised(NoText) else Returned(text)
  }

  /** The reply to an upload and the store after it. */
  datatype Step = Step(reply: Reply<UploadBody>, store: map<string, string>)

  /** One upload request against `store`, as a value. */
  function UploadStep(store: map<string, string>, filename: string, ex: Extraction): (s: Step)
    ensures s.reply.Ok? <==> Accepted(ex)
    ensures s.reply.Ok? ==> s.reply.body == UploadBody(UploadMessage, filename, Instructions)
    ensures s.reply.Ok? ==> filename in s.store && s.store[filename] == Concat(ex.texts)
    ensures s.reply.HttpError? ==> s.store == store
    ensures s.reply.HttpError? ==> s.reply.status == 500 && s.reply.detail == UploadErrorDetail
    ensures s.reply.HttpError? ==> s.reply.cause == (if ex.ExtractionRaised? then ExtractError else NoText)
    ensures s.store.Keys == store.Keys + (if Accepted(ex) then {filename} else {})
    ensures s.store == if Accepted(ex) then store[filename := Concat(ex.texts)] else store
  {
    var o := Ingest(ex);
    var inner := match o
      case Returned(_) => Returned(UploadBody(UploadMessage, filename, Instructions))
      case Raised(f) => Raised(f);
    var s := Step(CatchAll(inner, UploadErrorDetail), if o.Returned? then store[filename := o.value] else store);
    assert Accepted(ex) ==> s.reply.Ok? && s.store == store[filename := Concat(ex.texts)];
    assert !Accepted(ex) ==> s.reply.HttpError? && s.store == store;
    s
  }

  /** The prompt `f"question: {question} context: {pdf_text}"`: the literal
      "question: ", the question, the literal " context: ", then the whole
      stored text, untruncated. */
  function Prompt(question: string, text: string): (p: string)
    ensures |p| == 20 + |question| + |text|
    ensures p[..10] == "question: "
    ensures p[10..10 + |question|] == question
    ensures p[10 + |question|..20 + |question|] == " context: "
    ensures p[20 + |question|..] == text
  {
    "question: " + question + " context: " + text
  }

  /** The text-to-text model. `answer` is what it returns for each prompt;
      `calls` lists, in order, the prompts it has been called with. */
  class Generator {
    const answer: string -> Generation
    ghost var calls: seq<string>

    constructor (answer: string -> Generation)
      ensures this.answer == answer && calls == []
    {
      this.answer := answer;
      calls := [];
    }

    /** One call of the model: `qa_model(prompt)`. */
    method Generate(prompt: string) returns (g: Generation)
      modifies this
      ensures g == answer(prompt)
      ensures calls == old(calls) + [prompt]
    {
      g := answer(prompt);
      calls := calls + [prompt];
    }
  }

  /** The reply to one question about `pdfId`, given what the model answers
      to each prompt. */
  function AskReply(store: map<string, string>, pdfId: string, question: string,
                    generate: string -> Generation): (r: Reply<AnswerBody>)
    ensures pdfId !in store ==> r == HttpError(500, AskErrorDetail, NotFound)
    ensures r.Ok? <==> pdfId in store && var g := generate(Prompt(question, store[pdfId]));
                         g.Candidates? && |g.texts| > 0
    ensures r.Ok? ==> r.body.answer == generate(Prompt(question, store[pdfId])).texts[0]
    ensures r.HttpError? ==> r.status == 500 && r.detail == AskErrorDetail
    ensures r.HttpError? && pdfId in store ==>
              r.cause == if generate(Prompt(question, store[pdfId])).GenerationRaised? then GenError else NoCandidate
  {
    var inner :=
      if pdfId !in store then Raised(NotFound)
      else match generate(Prompt(question, store[pdfId]))
        case GenerationRaised => Raised(GenError)
        case Candidates(cs) => if |cs| == 0 then Raised(NoCandidate) else Returned(AnswerBody(cs[0]));
    CatchAll(inner, AskErrorDetail)
  }

  /** The service: the module-level `pdf_storage` dictionary, which both
      handlers share, and the handlers as methods over it. */
  class PdfService {
    var store: map<string, string>

    /** Only an accepted upload writes, so no stored text is blank. */
    ghost predicate Valid()
      reads this
    {
      forall id :: id in store ==> !IsBlank(store[id])
    }

    /** The store starts empty. */
    constructor ()
      ensures Valid() && store == map[]
    {
      store := map[];
    }

    /** `upload_pdf`: join the page texts, refuse blank text, store the text
        under the file name (replacing what was there), reply with the fixed
        confirmation; on any failure store nothing and reply 500. */
    method Upload(filename: string, extraction: Extraction) returns (reply: Reply<UploadBody>)
      requires Valid()
      modifies this
      ensures Valid()
      ensures reply == UploadStep(old(store), filename, extraction).reply
      ensures store == UploadStep(old(store), filename, extraction).store
    {
      var outcome: Outcome<UploadBody>;
      match extraction {
        case ExtractionRaised =>
          outcome := Raised(ExtractError);
        case Pages(pages) =>
          var text := "";
          for i := 0 to |pages|
            invariant text == Concat(pages[..i])
          {
            assert pages[..i + 1][..i] == pages[..i];
            text := text + pages[i];
          }
          assert pages[..|pages|] == pages;
          if Strip(text) == [] {
            outcome := Raised(NoText);
          } else {
            store := store[filename := text];
            outcome := Returned(UploadBody(UploadMessage, filename, Instructions));
          }
      }
      reply := CatchAll(outcome, UploadErrorDetail);
    }

    /** `chat_about_pdf`: look the id up, and only if it is stored call the
        model once on the prompt built from the question and the stored text;
        answer with the first candidate. The store is only read. */
    method Ask(pdfId: string, question: string, model: Generator) returns (reply: Reply<AnswerBody>)
      modifies model
      ensures unchanged(this)
      ensures reply == AskReply(store, pdfId, question, model.answer)
      ensures model.calls == old(model.calls) + if pdfId in store then [Prompt(question, store[pdfId])] else []
    {
      var outcome: Outcome<AnswerBody>;
      if pdfId !in store {
        outcome := Raised(NotFound);
      } else {
        var text := store[pdfId];
        var answer := model.Generate(Prompt(question, text));
        match answer {
          case GenerationRaised =>
            outcome := Raised(GenError);
          case Candidates(candidates) =>
            if |candidates| == 0 {
              outcome := Raised(NoCandidate);
            } else {
              outcome := Returned(AnswerBody(candidates[0]));
            }
        }
      }
      reply := CatchAll(outcome, AskErrorDetail);
    }
  }
}
