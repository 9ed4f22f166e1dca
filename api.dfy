/** What one translate request sends and how the reply decides the outcome.
    The network round trip itself is not modelled: a `Reply` stands for
    whatever `fetch` followed by `response.json()` produced. */
module Api {
  import opened Wrappers
  import opened JsValues
  import opened History

  /** The three form fields of the POST body; the source language is fixed. */
  datatype Request = Request(sourceLanguage: string, targetLanguage: string, text: string)

  const SourceLanguage: string := "en"

  /** The parsed JSON body, reduced to the fields the application reads:
      `status` (the discriminant), `message`, `error`, `data.translatedText`,
      and `dump`, the body as `JSON.stringify` writes it. A field that is
      missing (or the body has no such path) is `None`. */
  datatype Body = Body(
    status: Option<string>,
    message: Option<string>,
    error: Option<string>,
    translatedText: Option<string>,
    dump: string)

  /** Either the awaited calls threw (the transport failed, the body was not
      JSON, or reading `status` of a null body threw) with the error's
      `message`, or a response arrived with its `ok` flag, its numeric HTTP
      status and its parsed body. */
  datatype Reply =
    | Thrown(message: string)
    | Received(ok: bool, httpStatus: nat, body: Body)

  /** How one dispatch that passed validation ends. */
  datatype Outcome =
    | Failed(message: string)
    | Succeeded(translation: string, entry: HistoryEntry)

  const SuccessStatus: string := "success"
  const BlankInputMessage: string := "Please type something to translate."
  const GenericFailureMessage: string := "Something went wrong while translating."
  const MissingTranslationText: string := "No translatedText in response"

  /** The request built from the current source text (untrimmed) and target. */
  function BuildRequest(sourceText: string, targetLang: string): (req: Request)
    ensures req.sourceLanguage == "en"
    ensures req.targetLanguage == targetLang && req.text == sourceText
  {
    Request(SourceLanguage, targetLang, sourceText)
  }

  /** The success discriminant: the HTTP status is in the ok range AND the
      body's `status` is the string "success". */
  predicate IsSuccess(reply: Reply) {
    reply.Received? && reply.ok && reply.body.status == Some(SuccessStatus)
  }

  /** `data?.message || data?.error || JSON.stringify(data)`. */
  function ErrorDetail(body: Body): (d: string)
    ensures Truthy(body.message) ==> d == body.message.value
    ensures !Truthy(body.message) && Truthy(body.error) ==> d == body.error.value
    ensures !Truthy(body.message) && !Truthy(body.error) ==> d == body.dump
  {
    var candidates := [body.message, body.error];
    assert candidates[1] == body.error;
    FirstTruthy(candidates, body.dump)
  }

  /** The message of the error thrown for an API-reported failure. */
  function ApiErrorMessage(httpStatus: nat, body: Body): (m: string)
    ensures |m| >= 12 + |Decimal(httpStatus)|
    ensures m[..10] == "API error "
    ensures m[10..10 + |Decimal(httpStatus)|] == Decimal(httpStatus)
    ensures m[10 + |Decimal(httpStatus)|..] == ": " + ErrorDetail(body)
  {
    "API error " + Decimal(httpStatus) + ": " + ErrorDetail(body)
  }

  /** The rest of the dispatch after the reply is in: the API-level check,
      the soft fallback for a missing translation, the history entry, and the
      `catch` that turns any thrown error into `err.message || generic`. */
  function Interpret(req: Request, reply: Reply, id: int): (o: Outcome)
    ensures o.Succeeded? <==> IsSuccess(reply)
    ensures o.Failed? ==> o.message != ""
    ensures reply.Thrown? ==> o.message == (if reply.message != "" then reply.message else GenericFailureMessage)
    ensures reply.Received? && !IsSuccess(reply) ==> o.message == ApiErrorMessage(reply.httpStatus, reply.body)
    ensures o.Succeeded? ==> o.translation != ""
    ensures o.Succeeded? ==> o.translation == (if Truthy(reply.body.translatedText) then reply.body.translatedText.value
                                               else MissingTranslationText)
    ensures o.Succeeded? ==> o.entry == HistoryEntry(id, req.text, o.translation, req.targetLanguage)
  {
    match reply
    case Thrown(m) =>
      Failed(FirstTruthy([Some(m)], GenericFailureMessage))
    case Received(ok, httpStatus, body) =>
      if !ok || body.status != Some(SuccessStatus) then
        Failed(FirstTruthy([Some(ApiErrorMessage(httpStatus, body))], GenericFailureMessage))
      else
        var translated := FirstTruthy([body.translatedText], MissingTranslationText);
        Succeeded(translated, HistoryEntry(id, req.text, translated, req.targetLanguage))
  }

  /** The longest run of digits at the start of `s`. */
  function LeadingDigits(s: string): (r: string)
    ensures |r| <= |s| && r == s[..|r|]
    ensures forall i :: 0 <= i < |r| ==> IsDigit(r[i])
  {
    if s != [] && IsDigit(s[0]) then [s[0]] + LeadingDigits(s[1..]) else []
  }

  lemma {:induction false} LeadingDigitsOf(digits: string, rest: string)
    requires forall i :: 0 <= i < |digits| ==> IsDigit(digits[i])
    requires rest == [] || !IsDigit(rest[0])
    ensures LeadingDigits(digits + rest) == digits
  {
    if digits != [] {
      assert (digits + rest)[1..] == digits[1..] + rest;
      LeadingDigitsOf(digits[1..], rest);
    }
  }

  /** The status code a reader takes back out of an API failure message:
      the numeral that follows "API error ". */
  function StatusInMessage(m: string): nat {
    if |m| < 10 then 0 else DecimalValue(LeadingDigits(m[10..]))
  }

  /** An API failure's message names its HTTP status: reading the numeral
      back gives the status, so different statuses never share a message. */
  lemma StatusInApiErrorMessage(httpStatus: nat, body: Body)
    ensures StatusInMessage(ApiErrorMessage(httpStatus, body)) == httpStatus
  {
    var m := ApiErrorMessage(httpStatus, body);
    var d := Decimal(httpStatus);
    assert m[10..] == d + (": " + ErrorDetail(body));
    LeadingDigitsOf(d, ": " + ErrorDetail(body));
    DecimalRoundTrip(httpStatus);
  }
}
