/** Example runs of the translator, stated against the model. */
module Scenarios {
  import opened Wrappers
  import opened JsValues
  import opened History
  import opened Languages
  import opened Api
  import opened Translator

  /** "Hello" into Hindi, answered with a translation: the result and the
      history entry carry the original text, the translation and "hi". */
  lemma HelloIntoHindi(id: int, dump: string)
    ensures Interpret(BuildRequest("Hello", "hi"),
                      Received(true, 200, Body(Some("success"), None, None, Some("नमस्ते"), dump)), id)
            == Succeeded("नमस्ते", HistoryEntry(id, "Hello", "नमस्ते", "hi"))
  {
  }

  /** A rate-limited reply: the message joins the status and the body's
      `error` field, and nothing is recorded. */
  lemma RateLimited(req: Request, id: int, dump: string)
    ensures Interpret(req, Received(false, 429, Body(None, None, Some("rate limited"), None, dump)), id)
            == Failed("API error 429: rate limited")
  {
    var body := Body(None, None, Some("rate limited"), None, dump);
    assert Decimal(4) == "4";
    assert Decimal(42) == "42";
    assert Decimal(429) == "429";
    assert ErrorDetail(body) == "rate limited";
    assert ApiErrorMessage(429, body) == "API error 429: rate limited";
  }

  /** A success body without `data.translatedText` still shows a result. */
  lemma MissingTranslation(req: Request, id: int, dump: string)
    ensures Interpret(req, Received(true, 200, Body(Some("success"), None, None, None, dump)), id).translation
            == "No translatedText in response"
  {
  }

  /** A client run: pick a suggestion and translate it. */
  method ClientRun(dump: string)
  {
    var view := new TranslatorState();
    view.ApplySuggestion(Suggestions[1]);
    assert view.sourceText == "Thank you for your help.";
    assert !IsBlank(view.sourceText) by {
      assert !IsWhitespace(view.sourceText[0]);
    }
    var reply := Received(true, 200, Body(Some("success"), None, None, Some("धन्यवाद"), dump));
    var entry := HistoryEntry(1, "Thank you for your help.", "धन्यवाद", "hi");
    assert Interpret(BuildRequest(view.sourceText, view.targetLang), reply, 1) == Succeeded("धन्यवाद", entry);
    assert Record([], entry) == [entry];
    view.Translate(reply, 1);
    assert view.translatedText == "धन्यवाद" && view.errorMsg == "" && !view.isLoading;
    assert view.history == [entry];
    var copied := view.CopyText();
    assert copied == Some("धन्यवाद");
  }

  /** A blank submit and a failed request both leave no result and no new
      history entry. */
  method FailedRuns(dump: string)
  {
    var view := new TranslatorState();
    view.SetSourceText("  \n");
    assert IsBlank(view.sourceText);
    view.Translate(Thrown("network down"), 2);
    assert view.errorMsg == "Please type something to translate.";
    assert view.translatedText == "" && view.history == [];

    view.SetSourceText("Hello");
    assert !IsBlank(view.sourceText) by {
      assert !IsWhitespace(view.sourceText[0]);
    }
    view.Translate(Thrown(""), 3);
    assert view.errorMsg == "Something went wrong while translating.";
    assert view.translatedText == "" && view.history == [];
    var copied := view.CopyText();
    assert copied == None;
  }
}
