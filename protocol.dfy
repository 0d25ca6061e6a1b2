/**
 * script.js and worker.js do not speak the same protocol: the client posts
 * `{question, language}` and reads `answer`, the proxy reads `{message, history}`
 * and answers `{response}`. These lemmas state what happens when the one meets
 * the other as both are written.
 */
module Protocol {
  import opened JsValue
  import opened JsString
  import opened Gemini
  import opened Handler
  import opened Client

  /** The body askAI posts: `JSON.stringify({question, language})`, as parsed by the proxy. */
  function AskBody(request: AskRequest): Json {
    JObj(map["question" := JStr(request.question), "language" := JStr(request.language)])
  }

  /** The proxy refuses every body the client sends with 400 `{error: 'Invalid message'}`, and calls nothing upstream. */
  lemma ClientBodyRejected(request: AskRequest, key: KeyBinding, reply: UpstreamReply)
    ensures HandleRequest("POST", Parsed(AskBody(request)), key, reply) ==
      Handled(JsonResponse(StrObj("error", "Invalid message"), 400), None)
  {
    assert Prop(Val(AskBody(request)), "message") == Value(Undefined);
  }

  /** Even a successful proxy answer `{response: text}` has no `answer`, so the client shows its fallback and stays silent. */
  lemma ProxyAnswerUnread(request: AskRequest, text: string)
    ensures AfterSend(request, Fetched(200, Parsed(StrObj("response", text)))) ==
      View([JStr(ThinkingMessage), JStr(NoAnswerMessage)], Some(request), None)
  {
    assert Prop(Val(StrObj("response", text)), "answer") == Value(Undefined);
  }

  /**
   * Whatever question is posted, the proxy's answer as written puts its
   * "Invalid message" on screen, and nothing is spoken.
   */
  lemma ClientMeetsProxy(request: AskRequest, key: KeyBinding, reply: UpstreamReply)
    ensures var r := HandleRequest("POST", Parsed(AskBody(request)), key, reply).response;
      r.body.Some? &&
      var v := AfterSend(request, Fetched(r.status, Parsed(r.body.value)));
      Final(v) == JStr("Invalid message") && v.speech == None
  {
    ClientBodyRejected(request, key, reply);
    var data := StrObj("error", "Invalid message");
    assert Prop(Val(data), "error") == Value(Val(JStr("Invalid message")));
    NotOkShowsError(request, 400, data);
  }
}
