# Professor AI: proxy and client decisions, in Dafny

This project models the two pieces of logic in the Professor AI chat tutor that
have real structure:

- The edge proxy (`worker.js`). It answers CORS preflights and refuses methods
  other than POST. It validates `message`, then builds the conversation context:
  the persona preamble, the user/assistant history in order, and the new
  message. It makes one upstream call to the Gemini generateContent endpoint and
  extracts the first candidate's text, trimmed. Every failure becomes a 500 with
  the error message in `details`.
- The browser client (`script.js`). `askAI` decides what the output element
  shows, what is posted and whether the answer is spoken. `speakText` picks the
  speech locale for the selected language.

The network, the JSON parser and the page are inputs. The upstream reply is a
datatype (`Gemini.UpstreamReply`), a parsed body is a `JsValue.Parse`, and the
client's fetch is a `Client.FetchOutcome`. Each handled request reports the
contents it posted upstream, if any, so "no upstream call" is a checked fact.
JavaScript's own rules are written out in `JsValue` and `JsString`:
truthiness, property reads that throw on `null`/`undefined`, `[0]` on arrays,
strings and objects, and the whitespace set of `String.prototype.trim`.

Modules: `JsValue` (values, truthiness, property access), `JsString` (trim,
decimal rendering), `Context` (buildConversationContext), `Gemini`
(getGeminiResponse), `Handler` (handleRequest, jsonResponse), `Client`
(askAI, speakText), `Protocol` (what happens when the client meets the proxy).

Facts about the code that the model keeps as written:

- The proxy does not trim the history to a window. It forwards every entry whose
  role is `user` or `assistant`.
- A message made only of whitespace is accepted. Only a missing, empty or
  non-string `message` is refused.
- A `null` body and a `null` history entry throw inside the handler, so the
  caller gets a 500, not a 400 (`Handler.RequestBodyErrors`,
  `Context.ContextFailsOnlyOnNull`).
- The client in `script.js` posts `{question, language}` and reads `answer`.
  The proxy reads `{message, history}` and answers `{response}`. So the proxy
  refuses every client request with 400 "Invalid message", and the client would
  never read a proxy answer. `Protocol` proves both.
- There is no usage counter, no client-side history and no in-flight guard in
  these files.

## Model

| member | source | states |
|---|---|---|
| `Context.BuildConversationContext` | worker.js:165-203 | the push loop returns exactly the specified context: preamble, then history turns in order, then the current message; or the TypeError that a `null` history entry raises |
| `Context.HistoryTurnsAppend` | worker.js:180-194 | the history walk distributes over concatenation: each entry's turns depend on that entry alone and keep their position |
| `Context.KeptIndicesExact` | worker.js:180-194 | the reference list of kept positions holds exactly the user/assistant entries, each once, in strictly increasing order |
| `Context.HistoryTurnsSnoc` | worker.js:181-193 | appending one entry to the history appends exactly that entry's converted turn, or nothing for another role |
| `Context.EntryTurnsAgree` | worker.js:181-193 | one entry gives a `user` turn for role "user", a `model` turn for role "assistant", each carrying its `content`, and nothing for any other role |
| `Context.HistoryTurnsByIndex` | worker.js:180-194 | the k-th history turn is the converted k-th user/assistant entry: order kept, roles mapped, other roles dropped |
| `Context.ContextShape` | worker.js:165-203 | a built context starts with user SYSTEM_PROMPT then the model acknowledgement, ends with a user turn holding exactly the current message, and has length 3 plus the number of user/assistant entries |
| `Context.ContextFailsOnlyOnNull` | worker.js:180-194 | building fails exactly when the history is an array that contains a `null` entry |
| `Context.NoArrayNoHistory` | worker.js:180 | an absent, null or non-array history contributes nothing: the context is the preamble plus the message |
| `JsValue.Prop` | worker.js:70 | reading a property throws exactly on null or undefined; on an object it yields the field, otherwise undefined |
| `JsValue.Index0` | worker.js:154-155 | `x[0]` throws exactly on null or undefined; on an array it yields the first element or undefined |
| `JsString.TrimStart` | worker.js:156 | removes exactly the leading whitespace: a suffix, everything cut is whitespace, the rest does not start with whitespace |
| `JsString.TrimEnd` | worker.js:156 | removes exactly the trailing whitespace: a prefix, everything cut is whitespace, the rest does not end with whitespace |
| `JsString.TrimIsWhitespaceCut` | worker.js:156 | `trim` yields a contiguous piece of its input with only whitespace cut on both sides, and the piece neither starts nor ends with whitespace |
| `JsString.TrimEmptyIff` | script.js:17-20 | the trimmed question is empty exactly when the input is all whitespace |
| `JsString.TrimOfTrimmed` | script.js:17 | trimming a string without edge whitespace leaves it unchanged |
| `JsString.TrimIdempotent` | script.js:17 | trimming twice is trimming once |
| `JsString.Decimal` | worker.js:148 | the status is rendered as a non-empty string of decimal digits without a leading zero |
| `JsString.DecimalRoundTrip` | worker.js:148 | the digits in the error message read back as the upstream status |
| `JsString.DecimalInjective` | worker.js:148 | different statuses give different digit strings |
| `Gemini.ExtractText` | worker.js:154-159 | a returned answer has no leading or trailing whitespace |
| `Gemini.ContentText` | worker.js:155-156 | `content.parts[0].text.trim()` yields text without edge whitespace |
| `Gemini.GetGeminiResponse` | worker.js:94-160 | whatever it posts upstream is exactly the conversation context built for the message and history |
| `Gemini.ExtractFromFirstContent` | worker.js:154-156 | for any reply object and any first candidate, once `candidates[0].content` is truthy the outcome is that content's text extraction, whatever other fields and candidates there are |
| `Gemini.ContentTextValue` | worker.js:155-156 | content whose `parts[0].text` is a string yields that string trimmed, whatever other fields it carries |
| `Gemini.ContentTextCases` | worker.js:155-156 | the text read throws exactly when `parts`, `parts[0]` is null/undefined or `parts[0].text` is not a string, and then only a TypeError; otherwise it returns `parts[0].text` trimmed |
| `Gemini.MissingPartsThrows` | worker.js:155 | content without `parts` throws a TypeError |
| `Gemini.ExtractReturnsFirstText` | worker.js:154-156 | for any reply whose `candidates[0].content.parts[0].text` is a string, that string trimmed is returned, whatever other fields the reply carries |
| `Gemini.ExtractWellShaped` | worker.js:154-157 | a reply `{candidates: [{content: {parts: [{text}]}}]}` yields `text` trimmed |
| `Gemini.ExtractFullReply` | worker.js:154-157 | a reply that also carries `role`, `finishReason` and `usageMetadata` yields its text trimmed |
| `Gemini.ExtractInvalidIff` | worker.js:154-159 | 'Invalid response from Gemini API' is thrown exactly when the reply is not null and `candidates`, `candidates[0]` or `candidates[0].content` is falsy |
| `Gemini.NoCandidatesIsInvalid` | worker.js:154-159 | a reply object without `candidates` is an invalid response, not a crash |
| `Gemini.MissingKeyNoCall` | worker.js:96-100 | an unbound or empty key makes no upstream call; an empty key throws 'GEMINI_API_KEY not configured' |
| `Gemini.ConfiguredKeyCalls` | worker.js:105-144 | with a key and a buildable context, exactly one call is made, and its last turn is the user message |
| `Gemini.UpstreamErrorMessage` | worker.js:146-149 | a non-OK reply throws `Gemini API error: <status> - <text>`: the fixed prefix, the status's decimal digits (which read back as the status), " - " and the upstream error text |
| `Gemini.OkReplyIsExtracted` | worker.js:105-157 | with a configured key and a buildable context, an OK parsed reply gives exactly the extraction of its body, after posting the context |
| `Gemini.ReturnedIsTrimmed` | worker.js:94-160 | a returned answer followed an upstream call and is trimmed |
| `Handler.HandleRequest` | worker.js:56-89 | an upstream call happens only for a POST whose body parsed |
| `Handler.OptionsIsPreflight` | worker.js:58-60 | OPTIONS gets status 200, exactly the three CORS headers and a null body, with no upstream call |
| `Handler.OtherMethodNotAllowed` | worker.js:63-65 | every method other than OPTIONS and POST gets 405 `{error: 'Method not allowed'}` with no upstream call |
| `Handler.InvalidMessageIff` | worker.js:67-75 | status 400 happens exactly for a POST with a parsed non-null body whose `message` is missing, falsy or not a string; its body is `{error: 'Invalid message'}` and no call is made |
| `Handler.WhitespaceMessageAccepted` | worker.js:73-78 | for any body whose `message` is a non-empty all-whitespace string, the message passes validation and is sent upstream as the last turn |
| `Handler.SentIsContextOfMessage` | worker.js:70-78 | a call is made only for a POST with a valid message and a configured key; it posts that message's context, ending with the message |
| `Handler.PostWithMessage` | worker.js:68-80 | for any body whose `message` is a non-empty string, the answer is getGeminiResponse's text as 200 `{response}` or its failure as the 500 |
| `Handler.FailureBecomes500` | worker.js:78-88 | for any body whose `message` is a non-empty string, every failure of getGeminiResponse becomes 500 `{error: 'Internal server error', details: <its message>}` with the JSON headers |
| `Handler.RequestBodyErrors` | worker.js:68-70 | a POST body that does not parse (SyntaxError) or is `null` (TypeError) gets the 500, and nothing is sent upstream |
| `Handler.EmptyKeyDetails` | worker.js:82-100 | for any body whose `message` is a non-empty string, an empty key gives 500 with details 'GEMINI_API_KEY not configured' and no upstream call |
| `Handler.SuccessIsExtractedAnswer` | worker.js:78-80 | a valid message, a configured key and an OK reply whose text is extracted give 200 `{response: <that text>}`, after posting the context |
| `Handler.PlainMessageGetsReplyText` | worker.js:78-80 | `{message: s}` answered upstream with text that has no edge whitespace (such as "Hi there!") gets 200 `{response: <that text>}` |
| `Handler.SuccessIsTrimmedResponse` | worker.js:68-80 | a 200 to any request but OPTIONS is a valid POST, and its body is exactly `{response: text}` where `text` is what getGeminiResponse returned for that message and history, trimmed, after its call |
| `Handler.StatusCodes` | worker.js:56-89 | the status is always 200, 400, 405 or 500 |
| `Handler.EveryResponseHasCors` | worker.js:208-216 | every response carries the three CORS headers; all but the preflight carry `Content-Type: application/json`, the preflight carries none |
| `Handler.JsonHeaders` | worker.js:208-216 | jsonResponse's headers give `application/json` and the three CORS values |
| `Handler.PreflightHeaders` | worker.js:58-60 | the preflight's headers give the three CORS values and no content type |
| `Handler.JsonResponseDefaults` | worker.js:208-210 | jsonResponse defaults to status 200 and carries the given data |
| `Client.AskAI` | script.js:12-60 | every run leaves some text in the output element |
| `Client.AfterSend` | script.js:25-59 | once a request is posted, "thinking" is shown first and exactly one outcome text follows |
| `Client.SpeechLocaleIsTable` | script.js:75-83 | Hindi→hi-IN, Marathi→mr-IN, Urdu→ur-IN, every other language→en-US, both ways |
| `Client.EnglishAndHinglishUseEnUs` | script.js:81-83 | English and Hinglish are read in en-US |
| `Client.SpeechLocaleInjectiveOnTable` | script.js:75-83 | two languages share a locale only if they are equal or both use the en-US default |
| `Client.EmptyQuestionIff` | script.js:17-23 | nothing is posted exactly when the question is all whitespace; then only the prompt is shown and nothing is spoken |
| `Client.NonBlankIsSent` | script.js:17-37 | a non-blank question is posted trimmed, with the selector's language or "English" when there is no selector |
| `Client.RequestIsTrimmed` | script.js:17-37 | the posted question is non-empty, trimmed, and the language defaults to "English" |
| `Client.ThinkingThenOne` | script.js:25-59 | a posted question shows "thinking" and then exactly one more text |
| `Client.SpeechIff` | script.js:39-54 | speech fires exactly for a non-blank question with an OK, parsed, non-null reply whose `answer` is truthy |
| `Client.AfterSendSpeechIff` | script.js:39-54 | once posted, speech fires exactly for an OK reply that parses to a non-null value with a truthy `answer` |
| `Client.SpokenAnswer` | script.js:51-54 | when speech fires, the answer is shown last and spoken in the posted language's locale |
| `Client.NotOkShowsError` | script.js:41-44 | a non-OK reply shows `data.error` when truthy, else "Server error ❌", unspoken |
| `Client.MissingAnswerFallback` | script.js:46-49 | an OK reply with a missing or falsy `answer` shows the fallback text, unspoken |
| `Client.CaughtShowsConnectivity` | script.js:56-59 | a thrown fetch, an unparsable body or a null body shows the connectivity text, unspoken |
| `Protocol.ClientBodyRejected` | worker.js:70-75 | the client's `{question, language}` body always gets 400 `{error: 'Invalid message'}` and no upstream call |
| `Protocol.ProxyAnswerUnread` | script.js:46-49 | the proxy's `{response}` answer has no `answer`, so the client shows its fallback, unspoken |
| `Protocol.ClientMeetsProxy` | script.js:28-44 | any question the client posts to the proxy as written ends with "Invalid message" on screen and nothing spoken |

## Left out

- The HTTP fetch to the Gemini endpoint and `request.json()`/`response.json()`. These are network and parser I/O, so their results are inputs (`UpstreamReply`, `Parse`).
- The URL and API-key interpolation. It is plumbing: the model only asks whether the key is bound and non-empty.
- `generationConfig` (floating-point sampling parameters) and `safetySettings`. They are static configuration, and the model records only the `contents` sent.
- The wording of SYSTEM_PROMPT and of the acknowledgement. They are uninitialised constants, because only their position matters.
- The wording of the engine's own error messages (TypeError, ReferenceError, SyntaxError, network failure). It is engine-defined and is an uninitialised constant `EngineMessage`.
- The `fetch` event listener, the `Response` constructor internals and `console.error`. They are runtime wiring.
- All DOM access and the `speechSynthesis` calls (`cancel`, `getVoices`, `speak`, rate, pitch), `stopVoice` and the Enter-key listener. These are browser wrappers. The model records the call to speakText. Whether the browser has speech synthesis is outside the model.
- The `speaking` flag in script.js. It is never updated.
- Async sequencing. Each request and each askAI run is one function application.
- JSON numbers are integers. Floats and NaN are not modelled; they only matter for truthiness.
- `innerText` and `SpeechSynthesisUtterance` convert non-string values to strings. This conversion is not modelled: the displayed and spoken value is kept as the JSON value.
- `x[0]` on a string yields the first UTF-16 code unit in JavaScript. The model uses the first Unicode scalar value.
- Property reads ignore inherited properties. None of the names the code reads (`message`, `history`, `role`, `content`, `candidates`, `parts`, `text`, `error`, `answer`) is inherited by JSON values.
- The key order of serialised response bodies. Bodies are maps.
- Client.AskAI: its own contract says only that some text is shown. What it shows, posts and speaks is stated by the lemmas about `Client.AskAI` and `Client.AfterSend` listed above; `Client.NonBlankIsSent` joins the two.
