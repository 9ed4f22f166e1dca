# Translator view: a Dafny model of the translate/history lifecycle

The translator app is a single React view. The user types English text,
picks one of eleven target languages and asks a third-party HTTP API for a
translation. The view shows the result or an error. It keeps the five most
recent successful translations, most recent first. A click on an example
sentence replaces the text. A copy button copies the result.

This project models the logic of that view (`translator-app/src/App.jsx`):

- **`Translator.TranslatorState`** is a class with the component's six
  pieces of state (`sourceText`, `targetLang`, `translatedText`, `isLoading`,
  `errorMsg`, `history`). Its methods are the event handlers. They update
  the fields step by step, in the same order as the setters in the source.
  The translate handler is cut at its first `await` (the `fetch`). Nothing
  between that `await` and its second one (`response.json()`) changes
  state, so `Resolve` covers both:
  - `Submit` is the synchronous part. It clears the error and the result,
    refuses blank input, raises the loading flag and builds the request.
  - `Resolve` is the continuation. It takes the request captured when the
    dispatch started, records a success or reports a failure, and always
    lowers the loading flag (the `finally`).
  - `Translate` runs both as one atomic step.

  A ghost log `recorded` holds every entry ever recorded. `Valid()` ties the
  displayed list to that log.
- **`Api`** holds the request, an abstract `Reply` that stands for whatever
  `fetch` and `response.json()` produced, and `Interpret`. `Interpret` is
  the pure decision the handler makes once the reply is in:
  - the success discriminant;
  - the `message || error || dump` fallback chain;
  - the "API error <status>: <detail>" message;
  - the placeholder for a missing translation;
  - the history entry.
- **`History`** holds the updater `prev => [entry, ...prev.slice(0, 4)]` and
  its fold over a run of successes.
- **`Languages`** holds the static language and suggestion tables and the
  label lookup used by the history list.
- **`JsValues`** holds the JavaScript semantics the handler relies on:
  `trim` with the ECMAScript whitespace set, truthiness of strings and `||`
  chains, and the decimal rendering of a status number.

The model follows the code as written; three points are easy to miss:

- The handler clears the error and the result BEFORE it checks for blank
  input. So a blank submit also wipes the previous translation.
- The blank-input exit leaves the loading flag as it was. It does not force
  the flag to false.
- An empty `translatedText`, `message`, `error` or thrown message is falsy.
  The next alternative in its `||` chain is then used.

## Model

| member | source | states |
|---|---|---|
| JsValues.TrimStart | translator-app/src/App.jsx:39 | the result is a suffix of the input, everything cut off is whitespace, and it does not start with whitespace |
| JsValues.TrimEnd | translator-app/src/App.jsx:39 | the result is a prefix of the input, everything cut off is whitespace, and it does not end with whitespace |
| JsValues.Trim | translator-app/src/App.jsx:39 | `trim()`: neither end of the result is whitespace, and the result is the input with a blank prefix and a blank suffix cut off |
| JsValues.TrimCutsBlankEnds | translator-app/src/App.jsx:39 | cutting a blank prefix and then a blank suffix leaves a contiguous piece of the input whose surroundings are blank |
| JsValues.TrimEmptyIffBlank | translator-app/src/App.jsx:39 | `!s.trim()` holds exactly when every character of `s` is ECMAScript whitespace |
| JsValues.FirstTruthy | translator-app/src/App.jsx:75-78 | a chain of JavaScript or-alternatives gives the first truthy (present and non-empty) candidate, and the fallback when none is truthy |
| JsValues.FirstTruthyNonEmpty | translator-app/src/App.jsx:97 | a chain whose fallback is non-empty never gives the empty string, so a caught error always leaves a visible message |
| JsValues.Decimal | translator-app/src/App.jsx:79 | the template literal's rendering of the status is a non-empty string of digits with no leading zero |
| JsValues.DecimalRoundTrip | translator-app/src/App.jsx:79 | reading the rendered status back gives the status |
| Languages.Find | translator-app/src/App.jsx:264-266 | `find(...)?.label` gives nothing exactly when no option has the code; otherwise it gives the label of the FIRST option with that code |
| Languages.LabelOf | translator-app/src/App.jsx:264-266 | the history label is absent exactly for codes that are not in the language list |
| Languages.FindDistinct | translator-app/src/App.jsx:264-266 | when codes are distinct, the lookup of an option's code gives that option's label |
| Languages.LabelOfListed | translator-app/src/App.jsx:3-15 | every one of the eleven listed languages shows its own label |
| Languages.DefaultTargetListed | translator-app/src/App.jsx:27 | the initial target "hi" is the first listed language, labelled "Hindi" |
| History.Record | translator-app/src/App.jsx:86-94 | the new entry is at the head, at most four earlier entries follow in their old order, and the length is min(old length + 1, 5) |
| History.RecordAllLatestFirst | translator-app/src/App.jsx:86-94 | recording a run of entries gives the latest entries, latest first, then the old list, cut to five |
| History.LatestFromEmpty | translator-app/src/App.jsx:31 | from the initial empty list, the list holds exactly the latest min(n, 5) of n successes, latest first |
| History.RecordAllSnoc | translator-app/src/App.jsx:86-94 | recording one more entry is the same as one more step of the fold over all successes |
| History.RecordEvictsOldest | translator-app/src/App.jsx:93 | with five entries, a new entry evicts the oldest one and keeps the other four in order |
| History.SixthEvictsFirst | translator-app/src/App.jsx:86-94 | after six successes from the empty list (with distinct ids), the first entry is gone and five remain |
| Api.BuildRequest | translator-app/src/App.jsx:55-58 | the request carries source language "en", the selected target, and the untrimmed source text |
| Api.ErrorDetail | translator-app/src/App.jsx:75-78 | the detail is `message` if truthy, else `error` if truthy, else the body dump |
| Api.ApiErrorMessage | translator-app/src/App.jsx:79 | the message is "API error ", then the status numeral, then ": " and the detail |
| Api.Interpret | translator-app/src/App.jsx:74-97 | success exactly when ok and status "success". A failure always has a non-empty message: a thrown one or the generic text, or the API error message. A success has the translation or the placeholder, and an entry with the id, the request's text and target |
| Api.StatusInApiErrorMessage | translator-app/src/App.jsx:79 | the HTTP status can be read back from an API error message, so different statuses never share a message |
| Translator.TranslatorState.constructor | translator-app/src/App.jsx:26-31 | the initial state is empty text, target "hi", no result, not loading, no error, empty history |
| Translator.TranslatorState.SetSourceText | translator-app/src/App.jsx:157 | the source text becomes the typed text; no other field changes |
| Translator.TranslatorState.ApplySuggestion | translator-app/src/App.jsx:114-116 | the source text becomes the sentence; no other field changes |
| Translator.TranslatorState.SelectTargetLang | translator-app/src/App.jsx:192 | the target becomes the chosen code; no other field changes |
| Translator.TranslatorState.Submit | translator-app/src/App.jsx:35-58 | the result is always cleared. Blank text gives no request, the validation message, and an untouched loading flag. Any other text gives the request, no error, and loading on |
| Translator.TranslatorState.Resolve | translator-app/src/App.jsx:70-100 | loading is off. A failure sets the message and leaves the result and history alone. A success sets the result, keeps the error, and records the entry |
| Translator.TranslatorState.Translate | translator-app/src/App.jsx:35-101 | blank text: validation message, empty result, loading and history untouched. Otherwise loading is off, and the outcome either sets the result, clears the error and records the entry, or sets the message with an empty result and the history unchanged |
| Translator.TranslatorState.CopyText | translator-app/src/App.jsx:103-106 | nothing is copied exactly when there is no result; otherwise the current result is copied |
| Translator.TranslatorState.HistoryBounded | translator-app/src/App.jsx:86-94 | in every valid state the list has at most five entries: the latest recorded successes, latest first |
| Scenarios.HelloIntoHindi | translator-app/src/App.jsx:82-94 | "Hello" into "hi" answered with a translation gives that translation and the entry ("Hello", translation, "hi") |
| Scenarios.RateLimited | translator-app/src/App.jsx:74-79 | an HTTP 429 reply whose body has `error: "rate limited"` fails with "API error 429: rate limited" |
| Scenarios.MissingTranslation | translator-app/src/App.jsx:82 | a success body without `data.translatedText` shows the placeholder "No translatedText in response" |

## Left out

- `fetch`, the request headers, `URLSearchParams` encoding and
  `response.json()`: these are network and browser APIs. A `Reply` value
  stands for their combined result. A thrown error (transport failure,
  unparsable body, or reading `status` of a null body) is `Thrown` with its
  message.
- `JSON.stringify`: the body dump is an opaque string field of the reply.
- Non-string JSON values in `status`, `message`, `error` and
  `data.translatedText`: a field is either a string or absent. JavaScript
  would also treat numbers and objects by truthiness and string conversion.
- Environment variables and `console.log`/`console.error`: configuration
  and logging, with no effect on the state.
- `navigator.clipboard` and `alert` in the copy handler: platform
  primitives. Only the guard on an empty result is modelled.
- `Date.now()`: the history id is a parameter. Uniqueness of ids is
  assumed where a lemma needs it.
- Interleaving of concurrent dispatches and the disabled button: `Submit`
  and `Resolve` model the parts before and after the first `await`, but no scheduler
  is modelled.
- React's batching of state updates: each setter is an assignment in
  program order. The final state of a handler is the same either way.
- The rendering (JSX and styling) and the derived character count, which
  is only displayed.
- `trim` works on UTF-16 code units in JavaScript and on Unicode scalar
  values here. Every ECMAScript whitespace character is in the Basic
  Multilingual Plane, so blankness is the same.
