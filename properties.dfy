/**
 * Properties of the service over several requests: what a run of uploads
 * leaves in the store, overwriting, and what a question sees afterwards.
 */
module PdfChatProperties {
  import opened Text
  import opened PdfChat

  /** For a fixed question, the prompt tells the stored texts apart. */
  lemma PromptDeterminesText(question: string, t1: string, t2: string)
    requires Prompt(question, t1) == Prompt(question, t2)
    ensures t1 == t2
  {
    assert t1 == Prompt(question, t1)[20 + |question|..];
  }

  /** One upload request: the file's name and what its pages gave. */
  datatype UploadRequest = UploadRequest(filename: string, extraction: Extraction)

  /** The store after the uploads `reqs`, handled one after another. */
  function RunUploads(store: map<string, string>, reqs: seq<UploadRequest>): map<string, string> {
    if reqs == [] then store
    else
      var last := reqs[|reqs| - 1];
      UploadStep(RunUploads(store, reqs[..|reqs| - 1]), last.filename, last.extraction).store
  }

  /** An id is stored after a run exactly when it was stored before or some
      upload under that name was accepted. */
  lemma {:induction false} RunUploadsKeys(store: map<string, string>, reqs: seq<UploadRequest>, id: string)
    ensures id in RunUploads(store, reqs) <==>
              id in store || exists i :: 0 <= i < |reqs| && reqs[i].filename == id && Accepted(reqs[i].extraction)
    decreases |reqs|
  {
    if reqs != [] {
      var n := |reqs| - 1;
      var init := reqs[..n];
      RunUploadsKeys(store, init, id);
      assert forall i :: 0 <= i < n ==> init[i] == reqs[i];
      if id in RunUploads(store, reqs) && id !in store && id !in RunUploads(store, init) {
        assert reqs[n].filename == id && Accepted(reqs[n].extraction);
      }
    }
  }

  /** Last write wins: the stored text is that of the last accepted upload
      under the name, whatever came before and whatever failed after it. */
  lemma {:induction false} RunUploadsLastWins(store: map<string, string>, reqs: seq<UploadRequest>, i: nat)
    requires i < |reqs| && Accepted(reqs[i].extraction)
    requires forall j :: i < j < |reqs| && reqs[j].filename == reqs[i].filename ==> !Accepted(reqs[j].extraction)
    ensures reqs[i].filename in RunUploads(store, reqs)
    ensures RunUploads(store, reqs)[reqs[i].filename] == Concat(reqs[i].extraction.texts)
    decreases |reqs|
  {
    var n := |reqs| - 1;
    var init, last := reqs[..n], reqs[n];
    var before := RunUploads(store, init);
    assert RunUploads(store, reqs) == UploadStep(before, last.filename, last.extraction).store;
    if i < n {
      assert init[i] == reqs[i];
      RunUploadsLastWins(store, init, i);
      if last.filename != reqs[i].filename {
        UploadKeepsOtherNames(before, last.filename, last.extraction, reqs[i].filename);
      }
    }
  }

  /** A name that no accepted upload used keeps its earlier text, if any. */
  lemma {:induction false} RunUploadsUntouched(store: map<string, string>, reqs: seq<UploadRequest>, id: string)
    requires forall i :: 0 <= i < |reqs| && reqs[i].filename == id ==> !Accepted(reqs[i].extraction)
    ensures id in RunUploads(store, reqs) <==> id in store
    ensures id in store ==> RunUploads(store, reqs)[id] == store[id]
    decreases |reqs|
  {
    if reqs != [] {
      var n := |reqs| - 1;
      RunUploadsUntouched(store, reqs[..n], id);
    }
  }

  /** No stored text is ever blank, however many uploads came in. */
  lemma {:induction false} RunUploadsNeverBlank(store: map<string, string>, reqs: seq<UploadRequest>)
    requires forall id :: id in store ==> !IsBlank(store[id])
    ensures forall id :: id in RunUploads(store, reqs) ==> !IsBlank(RunUploads(store, reqs)[id])
    decreases |reqs|
  {
    if reqs != [] {
      RunUploadsNeverBlank(store, reqs[..|reqs| - 1]);
    }
  }

  /** An upload never touches the text stored under another name. */
  lemma UploadKeepsOtherNames(store: map<string, string>, filename: string, ex: Extraction, id: string)
    requires id in store && id != filename
    ensures var s := UploadStep(store, filename, ex).store;
      id in s && s[id] == store[id]
  {
  }

  /** Uploading twice under one name leaves the store exactly as uploading
      only the second time would, when the second upload is accepted. */
  lemma OverwriteForgetsFirst(store: map<string, string>, filename: string, first: Extraction, second: Extraction)
    requires Accepted(second)
    ensures UploadStep(UploadStep(store, filename, first).store, filename, second).store
         == UploadStep(store, filename, second).store
  {
    var s1 := UploadStep(store, filename, first).store;
    var text := Concat(second.texts);
    assert UploadStep(s1, filename, second).store == s1[filename := text];
    assert UploadStep(store, filename, second).store == store[filename := text];
    if Accepted(first) {
      assert s1 == store[filename := Concat(first.texts)];
      UpdateTwice(store, filename, Concat(first.texts), text);
    } else {
      assert s1 == store;
    }
  }

  /** Writing a key twice leaves what writing it once with the second value leaves. */
  lemma UpdateTwice(m: map<string, string>, k: string, a: string, b: string)
    ensures m[k := a][k := b] == m[k := b]
  {
  }

  /** An upload that fails after an accepted one leaves the earlier text. */
  lemma FailedReuploadKeepsText(store: map<string, string>, filename: string, first: Extraction, second: Extraction)
    requires Accepted(first) && !Accepted(second)
    ensures var s := UploadStep(UploadStep(store, filename, first).store, filename, second).store;
      filename in s && s[filename] == Concat(first.texts)
  {
  }

  /** A document with some page whose text is not blank is accepted. */
  lemma ReadablePageAccepted(pages: seq<string>, k: nat)
    requires k < |pages| && !IsBlank(pages[k])
    ensures Accepted(Pages(pages))
  {
    ConcatBlankIffPagesBlank(pages);
  }

  /** A document with some page whose text is not blank is stored: a
      question about it afterwards reaches the model, with the joined text
      as context, and never fails as not found. */
  lemma UploadThenAskReachesModel(store: map<string, string>, filename: string, pages: seq<string>,
                                  k: nat, question: string, generate: string -> Generation)
    requires k < |pages| && !IsBlank(pages[k])
    ensures var s := UploadStep(store, filename, Pages(pages));
      && s.reply == Ok(UploadBody(UploadMessage, filename, Instructions))
      && filename in s.store && s.store[filename] == Concat(pages)
      && AskReply(s.store, filename, question, generate) != HttpError(500, AskErrorDetail, NotFound)
  {
    ReadablePageAccepted(pages, k);
    var s := UploadStep(store, filename, Pages(pages));
    assert filename in s.store;
  }

  /** A document whose every page is blank is refused with 500 (the 400 the
      handler raises does not get through), and a new name stays unknown. */
  lemma BlankUploadIsRefused(store: map<string, string>, filename: string, pages: seq<string>,
                            question: string, generate: string -> Generation)
    requires forall i :: 0 <= i < |pages| ==> IsBlank(pages[i])
    ensures var s := UploadStep(store, filename, Pages(pages));
      && s.reply == HttpError(500, UploadErrorDetail, NoText)
      && s.reply.cause.RaisedStatus() == Some(400)
      && s.store == store
      && (filename !in store ==> AskReply(s.store, filename, question, generate) == HttpError(500, AskErrorDetail, NotFound))
  {
    ConcatBlankIffPagesBlank(pages);
  }

  /** A question about a name that no accepted upload used fails as not found, with 500
      (the 404 the handler raises does not get through), for any question
      and any model. */
  lemma NeverUploadedIsNotFound(reqs: seq<UploadRequest>, pdfId: string, question: string,
                                generate: string -> Generation)
    requires forall i :: 0 <= i < |reqs| && reqs[i].filename == pdfId ==> !Accepted(reqs[i].extraction)
    ensures var r := AskReply(RunUploads(map[], reqs), pdfId, question, generate);
      r == HttpError(500, AskErrorDetail, NotFound) && r.cause.RaisedStatus() == Some(404)
  {
    RunUploadsUntouched(map[], reqs, pdfId);
  }

  /** A one-page document reading "The sky is blue." is stored under
      "sky.pdf"; a question about it calls the model once, on exactly the
      prompt for that text, and answers with its first candidate. */
  method SkyScenario(generate: string -> Generation)
    requires generate(Prompt("What color is the sky?", "The sky is blue.")) == Candidates(["Blue", "blue"])
  {
    var text, question := "The sky is blue.", "What color is the sky?";
    var pages: seq<string> := [text];
    assert Concat(pages) == text by { assert pages[..0] == []; }
    assert !IsBlank(text) by { assert text[0] == 'T'; }
    var service := new PdfService();
    var up := service.Upload("sky.pdf", Pages(pages));
    assert up == Ok(UploadBody(UploadMessage, "sky.pdf", Instructions));
    assert service.store["sky.pdf"] == text;
    var model := new Generator(generate);
    var answer := service.Ask("sky.pdf", question, model);
    assert model.calls == [Prompt(question, text)];
    assert answer == Ok(AnswerBody("Blue"));
  }

  /** Asking about "missing.pdf", which was never uploaded, fails with 500
      and does not call the model. */
  method MissingScenario(generate: string -> Generation) {
    var service := new PdfService();
    var model := new Generator(generate);
    var reply := service.Ask("missing.pdf", "What color is the sky?", model);
    assert reply == HttpError(500, AskErrorDetail, NotFound);
    assert model.calls == [];
  }
}
