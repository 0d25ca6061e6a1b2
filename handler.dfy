/**
 * handleRequest and jsonResponse in worker.js: the status code, headers and
 * JSON body the proxy answers with, for a given method, request body,
 * credential binding and upstream reply. The proxy keeps no state between
 * requests, so each request is one function application.
 */
module Handler {
  import opened JsValue
  import opened JsString
  import opened Context
  import opened Gemini

  type Header = (string, string)

  /** A response: its status, its headers in order, and the value serialised as its body (None for a null body). */
  datatype Response = Response(status: int, headers: seq<Header>, body: Option<Json>)

  /** A handled request: the response and the contents posted upstream, if a call was made. */
  datatype Handled = Handled(response: Response, sent: Option<seq<Turn>>)

  const CorsHeaders: seq<Header> := [
    ("Access-Control-Allow-Origin", "*"),
    ("Access-Control-Allow-Methods", "POST, OPTIONS"),
    ("Access-Control-Allow-Headers", "Content-Type")
  ]

  /** The value of the first header called `name`, if any. */
  function HeaderValue(headers: seq<Header>, name: string): Option<string> {
    if headers == [] then None
    else if headers[0].0 == name then Some(headers[0].1)
    else HeaderValue(headers[1..], name)
  }

  /** jsonResponse(data, status = 200): a JSON body with the content type and the CORS headers. */
  function JsonResponse(data: Json, status: int := 200): Response {
    Response(status, [("Content-Type", "application/json")] + CorsHeaders, Some(data))
  }

  /** The preflight answer: a null body, only the CORS headers, the Response constructor's default status. */
  function Preflight(): Response {
    Response(200, CorsHeaders, None)
  }

  function ErrorBody(error: string): Json {
    StrObj("error", error)
  }

  /** The catch block: 500 with the failure's message as `details`. */
  function ServerError(f: Failure): Response {
    JsonResponse(JObj(map["error" := JStr("Internal server error"), "details" := JStr(Message(f))]), 500)
  }

  /** `!message || typeof message !== 'string'` rejects; this is its negation. */
  predicate ValidMessage(message: JsVal) {
    Truthy(message) && IsString(message)
  }

  /**
   * handleRequest: OPTIONS is answered at once, any other method but POST is
   * refused, the body is parsed and destructured, the message validated, and the
   * answer or the error of getGeminiResponse returned.
   */
  function HandleRequest(verb: string, body: Parse, key: KeyBinding, reply: UpstreamReply): (h: Handled)
    ensures h.sent.Some? ==> verb == "POST" && body.Parsed?
  {
    if verb == "OPTIONS" then Handled(Preflight(), None)
    else if verb != "POST" then Handled(JsonResponse(ErrorBody("Method not allowed"), 405), None)
    else
      match body
      case Malformed => Handled(ServerError(Engine(SyntaxErr)), None)
      case Parsed(data) =>
        match Prop(Val(data), "message")
        case TypeError => Handled(ServerError(Engine(TypeErr)), None)
        case Value(message) =>
          var history := Prop(Val(data), "history").v;
          if !ValidMessage(message) then Handled(JsonResponse(ErrorBody("Invalid message"), 400), None)
          else
            var a := GetGeminiResponse(message.j.s, history, key, reply);
            match a.outcome
            case Returned(text) => Handled(JsonResponse(StrObj("response", text)), a.sent)
            case Threw(f) => Handled(ServerError(f), a.sent)
  }

  // ---- properties ----

  /** The `message` a parsed, non-null body carries. */
  function MessageOf(data: Json): JsVal
    requires data != JNull
  {
    Prop(Val(data), "message").v
  }

  /** The `history` a parsed, non-null body carries (undefined when absent). */
  function HistoryOf(data: Json): JsVal
    requires data != JNull
  {
    Prop(Val(data), "history").v
  }

  /** A body object whose `message` is the string `s`, whatever else it carries. */
  predicate CarriesMessage(data: Json, s: string) {
    data.JObj? && "message" in data.fields && data.fields["message"] == JStr(s)
  }

  /** A preflight request gets a null body, exactly the CORS headers and status 200, and nothing is sent upstream. */
  lemma OptionsIsPreflight(body: Parse, key: KeyBinding, reply: UpstreamReply)
    ensures HandleRequest("OPTIONS", body, key, reply) == Handled(Response(200, CorsHeaders, None), None)
  {
  }

  /** Every method other than OPTIONS and POST gets 405 `{error: 'Method not allowed'}` and no upstream call. */
  lemma OtherMethodNotAllowed(verb: string, body: Parse, key: KeyBinding, reply: UpstreamReply)
    requires verb != "OPTIONS" && verb != "POST"
    ensures var h := HandleRequest(verb, body, key, reply);
      h.response.status == 405 && h.response.body == Some(StrObj("error", "Method not allowed")) && h.sent == None
  {
  }

  /**
   * A request is refused with 400 `{error: 'Invalid message'}` exactly when it is
   * a POST whose parsed, non-null body has a `message` that is missing, falsy or
   * not a string; then nothing is sent upstream.
   */
  lemma InvalidMessageIff(verb: string, body: Parse, key: KeyBinding, reply: UpstreamReply)
    ensures var h := HandleRequest(verb, body, key, reply);
      h.response.status == 400 <==>
        verb == "POST" && body.Parsed? && body.json != JNull && !ValidMessage(MessageOf(body.json))
    ensures var h := HandleRequest(verb, body, key, reply);
      h.response.status == 400 ==> h.response.body == Some(StrObj("error", "Invalid message")) && h.sent == None
  {
  }

  /** A message that is all whitespace but not empty passes validation: it reaches the upstream call. */
  lemma WhitespaceMessageAccepted(data: Json, s: string, key: KeyBinding, reply: UpstreamReply)
    requires CarriesMessage(data, s) && s != [] && AllWhitespace(s)
    requires key.Bound? && key.key != ""
    requires ContextOf(s, HistoryOf(data)).Value?
    ensures var h := HandleRequest("POST", Parsed(data), key, reply);
      h.response.status != 400 && h.sent.Some? && h.sent.value[|h.sent.value| - 1] == Turn(User, Val(JStr(s)))
  {
    assert Prop(Val(data), "message") == Value(Val(JStr(s)));
    ConfiguredKeyCalls(s, HistoryOf(data), key, reply);
  }

  /**
   * An upstream call is made only for a POST with a valid message and a
   * configured key, and what is sent is the context of that message.
   */
  lemma SentIsContextOfMessage(verb: string, body: Parse, key: KeyBinding, reply: UpstreamReply)
    ensures var h := HandleRequest(verb, body, key, reply);
      h.sent.Some? ==>
        && verb == "POST" && body.Parsed? && body.json != JNull
        && ValidMessage(MessageOf(body.json))
        && key.Bound? && key.key != ""
        && ContextOf(MessageOf(body.json).j.s, HistoryOf(body.json)) == Value(h.sent.value)
        && h.sent.value[|h.sent.value| - 1] == Turn(User, MessageOf(body.json))
  {
    var h := HandleRequest(verb, body, key, reply);
    if h.sent.Some? {
      var data := body.json;
      ContextShape(MessageOf(data).j.s, HistoryOf(data));
    }
  }

  /**
   * Every failure getGeminiResponse throws (missing key, non-OK reply, invalid
   * body, engine errors) becomes 500 `{error: 'Internal server error', details: <message>}`,
   * for any body whose `message` is a non-empty string.
   */
  lemma FailureBecomes500(data: Json, s: string, key: KeyBinding, reply: UpstreamReply)
    requires CarriesMessage(data, s) && s != []
    requires GetGeminiResponse(s, HistoryOf(data), key, reply).outcome.Threw?
    ensures var a := GetGeminiResponse(s, HistoryOf(data), key, reply);
      HandleRequest("POST", Parsed(data), key, reply) == Handled(ServerError(a.outcome.failure), a.sent)
    ensures var f := GetGeminiResponse(s, HistoryOf(data), key, reply).outcome.failure;
      HandleRequest("POST", Parsed(data), key, reply).response ==
        Response(500, [("Content-Type", "application/json")] + CorsHeaders,
                 Some(JObj(map["error" := JStr("Internal server error"), "details" := JStr(Message(f))])))
  {
    PostWithMessage(data, s, key, reply);
  }

  /**
   * A POST whose `message` is a non-empty string passes validation, and its
   * answer is whatever getGeminiResponse makes of that message and the body's
   * history: the text as `{response}`, or the failure as a 500.
   */
  lemma PostWithMessage(data: Json, s: string, key: KeyBinding, reply: UpstreamReply)
    requires CarriesMessage(data, s) && s != []
    ensures var a := GetGeminiResponse(s, HistoryOf(data), key, reply);
      HandleRequest("POST", Parsed(data), key, reply) ==
        Handled(if a.outcome.Returned? then JsonResponse(StrObj("response", a.outcome.value)) else ServerError(a.outcome.failure), a.sent)
  {
    assert Prop(Val(data), "message") == Value(Val(JStr(s)));
  }

  /** A body that does not parse throws a SyntaxError, a `null` body a TypeError; both become 500 and nothing is sent. */
  lemma RequestBodyErrors(key: KeyBinding, reply: UpstreamReply)
    ensures HandleRequest("POST", Malformed, key, reply) == Handled(ServerError(Engine(SyntaxErr)), None)
    ensures HandleRequest("POST", Parsed(JNull), key, reply) == Handled(ServerError(Engine(TypeErr)), None)
    ensures HandleRequest("POST", Malformed, key, reply).response.status == 500
    ensures HandleRequest("POST", Parsed(JNull), key, reply).response.status == 500
  {
  }

  /** A missing credential is reported as 500 with details 'GEMINI_API_KEY not configured'. */
  lemma EmptyKeyDetails(data: Json, s: string, reply: UpstreamReply)
    requires CarriesMessage(data, s) && s != []
    ensures var h := HandleRequest("POST", Parsed(data), Bound(""), reply);
      h.response.status == 500 && h.sent == None
      && h.response.body == Some(JObj(map["error" := JStr("Internal server error"), "details" := JStr("GEMINI_API_KEY not configured")]))
  {
    FailureBecomes500(data, s, Bound(""), reply);
  }

  /**
   * The success path: a POST whose `message` is a non-empty string, with a
   * configured key, a buildable context and an OK upstream reply whose text is
   * extracted, is answered 200 `{response: <that text>}` after posting the context.
   */
  lemma SuccessIsExtractedAnswer(data: Json, s: string, key: KeyBinding, status: nat, bodyText: string, reply: Json, answer: string)
    requires CarriesMessage(data, s) && s != []
    requires key.Bound? && key.key != ""
    requires ContextOf(s, HistoryOf(data)).Value?
    requires IsOk(status) && ExtractText(reply) == Returned(answer)
    ensures HandleRequest("POST", Parsed(data), key, Replied(status, bodyText, Parsed(reply))) ==
      Handled(JsonResponse(StrObj("response", answer)), Some(ContextOf(s, HistoryOf(data)).v))
  {
    PostWithMessage(data, s, key, Replied(status, bodyText, Parsed(reply)));
    OkReplyIsExtracted(s, HistoryOf(data), key, status, bodyText, reply);
  }

  /**
   * A body `{message: s}` alone, answered upstream with a reply of the expected
   * shape whose text has no edge whitespace, gets 200 `{response: <that text>}`
   * (`{message: 'Hello'}` answered with "Hi there!" gets `{response: 'Hi there!'}`).
   */
  lemma PlainMessageGetsReplyText(s: string, key: KeyBinding, bodyText: string, text: string)
    requires s != [] && key.Bound? && key.key != ""
    requires Trimmed(text)
    ensures var h := HandleRequest("POST", Parsed(StrObj("message", s)), key, Replied(200, bodyText, Parsed(CandidateReply(text))));
      h.response == Response(200, [("Content-Type", "application/json")] + CorsHeaders, Some(StrObj("response", text)))
  {
    var data := StrObj("message", s);
    var reply := CandidateReply(text);
    assert HistoryOf(data) == Undefined;
    NoArrayNoHistory(s, Undefined);
    assert ExtractText(reply) == Returned(text) by {
      TrimOfTrimmed(text);
      ExtractWellShaped(text);
    }
    SuccessIsExtractedAnswer(data, s, key, 200, bodyText, reply, text);
  }

  /**
   * A 200 answer to any request other than OPTIONS is `{response: text}` where
   * `text` is exactly what getGeminiResponse returned for that body's message and
   * history, trimmed, after the call it made.
   */
  lemma SuccessIsTrimmedResponse(verb: string, body: Parse, key: KeyBinding, reply: UpstreamReply)
    requires verb != "OPTIONS"
    ensures var h := HandleRequest(verb, body, key, reply);
      h.response.status == 200 ==>
        && verb == "POST" && body.Parsed? && body.json != JNull && ValidMessage(MessageOf(body.json))
        && var a := GetGeminiResponse(MessageOf(body.json).j.s, HistoryOf(body.json), key, reply);
        && a.outcome.Returned?
        && h == Handled(JsonResponse(StrObj("response", a.outcome.value)), a.sent)
        && a.sent.Some?
        && Trimmed(a.outcome.value)
  {
    var h := HandleRequest(verb, body, key, reply);
    if verb == "POST" && body.Parsed? && body.json != JNull && ValidMessage(MessageOf(body.json)) {
      var data := body.json;
      ReturnedIsTrimmed(MessageOf(data).j.s, HistoryOf(data), key, reply);
    }
  }

  /** The status is always one of 200, 400, 405 and 500. */
  lemma StatusCodes(verb: string, body: Parse, key: KeyBinding, reply: UpstreamReply)
    ensures HandleRequest(verb, body, key, reply).response.status in {200, 400, 405, 500}
  {
  }

  /**
   * Every response carries all three CORS headers; every response but the
   * preflight also carries `Content-Type: application/json`.
   */
  lemma {:induction false} EveryResponseHasCors(verb: string, body: Parse, key: KeyBinding, reply: UpstreamReply)
    ensures var r := HandleRequest(verb, body, key, reply).response;
      && HeaderValue(r.headers, "Access-Control-Allow-Origin") == Some("*")
      && HeaderValue(r.headers, "Access-Control-Allow-Methods") == Some("POST, OPTIONS")
      && HeaderValue(r.headers, "Access-Control-Allow-Headers") == Some("Content-Type")
      && HeaderValue(r.headers, "Content-Type") == (if verb == "OPTIONS" then None else Some("application/json"))
  {
    JsonHeaders();
    PreflightHeaders();
  }

  /** The header list of jsonResponse, read header by header. */
  lemma JsonHeaders()
    ensures var hs := [("Content-Type", "application/json")] + CorsHeaders;
      && HeaderValue(hs, "Content-Type") == Some("application/json")
      && HeaderValue(hs, "Access-Control-Allow-Origin") == Some("*")
      && HeaderValue(hs, "Access-Control-Allow-Methods") == Some("POST, OPTIONS")
      && HeaderValue(hs, "Access-Control-Allow-Headers") == Some("Content-Type")
  {
    var hs := [("Content-Type", "application/json")] + CorsHeaders;
    assert hs[1..] == CorsHeaders;
    assert CorsHeaders[1..][1..] == [("Access-Control-Allow-Headers", "Content-Type")];
  }

  /** The preflight's headers, read header by header: the three CORS headers and no content type. */
  lemma PreflightHeaders()
    ensures && HeaderValue(CorsHeaders, "Content-Type") == None
            && HeaderValue(CorsHeaders, "Access-Control-Allow-Origin") == Some("*")
            && HeaderValue(CorsHeaders, "Access-Control-Allow-Methods") == Some("POST, OPTIONS")
            && HeaderValue(CorsHeaders, "Access-Control-Allow-Headers") == Some("Content-Type")
  {
    assert CorsHeaders[1..][1..] == [("Access-Control-Allow-Headers", "Content-Type")];
    assert CorsHeaders[1..][1..][1..] == [];
  }

  /** The default status of jsonResponse is 200, and the given data is the body. */
  lemma JsonResponseDefaults(data: Json)
    ensures JsonResponse(data).status == 200 && JsonResponse(data).body == Some(data)
  {
  }
}
