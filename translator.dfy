/** The translator view's state and its event handlers. */
module Translator {
  import opened Wrappers
  import opened JsValues
  import opened History
  import opened Languages
  import opened Api

  /** The six pieces of component state, updated in place by the handlers. */
  class TranslatorState {
    var sourceText: string
    var targetLang: string
    var translatedText: string
    var isLoading: bool
    var errorMsg: string
    var history: seq<HistoryEntry>

    /** Every entry ever recorded since the view was mounted, oldest first. */
    ghost var recorded: seq<HistoryEntry>

    /** The list shown is what recording all past successes into the empty
        list gives. */
    ghost predicate Valid()
      reads this
    {
      history == RecordAll([], recorded)
    }

    /** The state on mount: empty text, the first language, no result, no
        error, not loading, empty history. */
    constructor ()
      ensures Valid()
      ensures sourceText == "" && targetLang == DefaultTarget && targetLang == Options[0].code
      ensures translatedText == "" && !isLoading && errorMsg == ""
      ensures history == [] && recorded == []
    {
      sourceText := "";
      targetLang := DefaultTarget;
      translatedText := "";
      isLoading := false;
      errorMsg := "";
      history := [];
      recorded := [];
    }

    /** The source text box's change handler: replaces the text as typed. */
    method SetSourceText(text: string)
      modifies this`sourceText
      ensures sourceText == text
    {
      sourceText := text;
    }

    /** A click on a suggestion overwrites the source text with it. */
    method ApplySuggestion(sentence: string)
      modifies this`sourceText
      ensures sourceText == sentence
    {
      SetSourceText(sentence);
    }

    /** The language selector's change handler. */
    method SelectTargetLang(code: string)
      modifies this`targetLang
      ensures targetLang == code
    {
      targetLang := code;
    }

    /** The part of the translate handler that runs before its first `await`:
        clear the error and the result, refuse blank input, otherwise raise
        the loading flag and build the request. */
    method Submit() returns (req: Option<Request>)
      modifies this`errorMsg, this`translatedText, this`isLoading
      ensures translatedText == ""
      ensures req.None? <==> IsBlank(sourceText)
      ensures req.None? ==> errorMsg == BlankInputMessage && isLoading == old(isLoading)
      ensures req.Some? ==> req.value == BuildRequest(sourceText, targetLang) && errorMsg == "" && isLoading
    {
      errorMsg := "";
      translatedText := "";
      var trimmed := Trim(sourceText);
      TrimEmptyIffBlank(sourceText);
      if trimmed == "" {
        errorMsg := BlankInputMessage;
        return None;
      }
      isLoading := true;
      req := Some(BuildRequest(sourceText, targetLang));
    }

    /** The part after the first `await` (the `fetch`), with the request
        captured when the dispatch started; the second `await` (reading the
        body) changes no state, so this covers both. It records a success
        or reports the failure, and in every case lowers the loading flag. */
    method Resolve(req: Request, reply: Reply, id: int)
      requires Valid()
      modifies this`translatedText, this`errorMsg, this`history, this`isLoading, this`recorded
      ensures Valid() && !isLoading
      ensures match Interpret(req, reply, id)
        case Failed(message) =>
          && errorMsg == message
          && translatedText == old(translatedText)
          && history == old(history) && recorded == old(recorded)
        case Succeeded(translation, entry) =>
          && translatedText == translation
          && errorMsg == old(errorMsg)
          && history == Record(old(history), entry) && recorded == old(recorded) + [entry]
    {
      match reply {
        case Thrown(message) =>
          errorMsg := FirstTruthy([Some(message)], GenericFailureMessage);
        case Received(ok, httpStatus, body) =>
          if !ok || body.status != Some(SuccessStatus) {
            var thrown := ApiErrorMessage(httpStatus, body);
            errorMsg := FirstTruthy([Some(thrown)], GenericFailureMessage);
          } else {
            var translated := FirstTruthy([body.translatedText], MissingTranslationText);
            translatedText := translated;
            var entry := HistoryEntry(id, req.text, translated, req.targetLanguage);
            RecordAllSnoc([], recorded, entry);
            history := Record(history, entry);
            recorded := recorded + [entry];
          }
      }
      isLoading := false;
    }

    /** The whole translate handler, with the reply to its one request
        given: blank input is refused with the validation message and
        leaves the history alone; otherwise the outcome of the reply decides
        between a recorded success with no error and an error with no
        result, and loading is off again. */
    method Translate(reply: Reply, id: int)
      requires Valid()
      modifies this`translatedText, this`errorMsg, this`history, this`isLoading, this`recorded
      ensures Valid()
      ensures IsBlank(sourceText) ==>
        && errorMsg == BlankInputMessage && translatedText == ""
        && isLoading == old(isLoading)
        && history == old(history) && recorded == old(recorded)
      ensures !IsBlank(sourceText) ==> !isLoading
      ensures !IsBlank(sourceText) ==>
        (match Interpret(BuildRequest(sourceText, targetLang), reply, id)
         case Failed(message) =>
           && errorMsg == message && translatedText == ""
           && history == old(history) && recorded == old(recorded)
         case Succeeded(translation, entry) =>
           && translatedText == translation && errorMsg == ""
           && history == Record(old(history), entry) && recorded == old(recorded) + [entry])
    {
      var req := Submit();
      if req.Some? {
        Resolve(req.value, reply, id);
      }
    }

    /** The copy handler's guard: nothing is copied while there is no
        result; otherwise the current result is what goes to the clipboard. */
    method CopyText() returns (text: Option<string>)
      ensures text.None? <==> translatedText == ""
      ensures text.Some? ==> text.value == translatedText
    {
      if translatedText == "" {
        return None;
      }
      text := Some(translatedText);
    }

    /** The history list is never longer than five entries. */
    lemma HistoryBounded()
      requires Valid()
      ensures |history| <= MaxHistory && |history| == Min(|recorded|, MaxHistory)
      ensures forall i :: 0 <= i < |history| ==> history[i] == recorded[|recorded| - 1 - i]
    {
      LatestFromEmpty(recorded);
    }
  }
}
