/**
 * getGeminiResponse in worker.js: check the credential, build the context, make
 * one upstream call, map a non-OK reply to an error, and pull the first
 * candidate's text out of the reply. The network call is an input: the reply the
 * upstream gave (or the transport failure), and the model reports the contents
 * that were sent.
 */
module Gemini {
  import opened JsValue
  import opened JsString
  import opened Context

  /** The `GEMINI_API_KEY` global: not bound at all (reading it throws a ReferenceError), or bound to a string. */
  datatype KeyBinding = Unbound | Bound(key: string)

  /** What the one `fetch` to the upstream endpoint produced. */
  datatype UpstreamReply =
    | NetworkFailure
      /** `bodyText` is what `response.text()` yields and `body` what `response.json()` yields for it. */
    | Replied(status: nat, bodyText: string, body: Parse)

  /** The JavaScript engine's own errors, whose messages the code does not choose. */
  datatype EngineError = ReferenceErr | TypeErr | SyntaxErr | NetworkErr

  /** Everything getGeminiResponse can throw. */
  datatype Failure =
    | KeyNotConfigured
    | UpstreamError(status: nat, errorText: string)
    | InvalidResponse
    | Engine(kind: EngineError)

  /** A JavaScript completion: a returned value or a thrown error. */
  datatype Completion<T> = Returned(value: T) | Threw(failure: Failure)

  /** One call of getGeminiResponse: how it completed, and the contents it posted upstream, if it got that far. */
  datatype Attempt = Attempt(outcome: Completion<string>, sent: Option<seq<Turn>>)

  /** The engine's message for one of its own errors; its wording is not modelled. */
  const EngineMessage: EngineError -> string

  /** `error.message` for each failure. */
  function Message(f: Failure): string {
    match f
    case KeyNotConfigured => "GEMINI_API_KEY not configured"
    case UpstreamError(status, text) => "Gemini API error: " + Decimal(status) + " - " + text
    case InvalidResponse => "Invalid response from Gemini API"
    case Engine(k) => EngineMessage(k)
  }

  /**
   * worker.js:154-159: `data.candidates && data.candidates[0] && data.candidates[0].content`
   * guards the read of the text, which is then trimmed.
   */
  function ExtractText(data: Json): (r: Completion<string>)
    ensures r.Returned? ==> Trimmed(r.value)
  {
    match Prop(Val(data), "candidates")
    case TypeError => Threw(Engine(TypeErr))
    case Value(candidates) =>
      if !Truthy(candidates) then Threw(InvalidResponse)
      else
        var first := Index0(candidates).v;
        if !Truthy(first) then Threw(InvalidResponse)
        else
          var content := Prop(first, "content").v;
          if !Truthy(content) then Threw(InvalidResponse)
          else ContentText(content)
  }

  /** worker.js:155-156: `content.parts[0].text.trim()`, each step throwing a TypeError on a missing link. */
  function ContentText(content: JsVal): (r: Completion<string>)
    requires Truthy(content)
    ensures r.Returned? ==> Trimmed(r.value)
  {
    match Index0(Prop(content, "parts").v)
    case TypeError => Threw(Engine(TypeErr))
    case Value(part) =>
      match Prop(part, "text")
      case TypeError => Threw(Engine(TypeErr))
      case Value(text) =>
        if IsString(text) then TrimIsWhitespaceCut(text.j.s); Returned(Trim(text.j.s))
        else Threw(Engine(TypeErr))
  }

  /** getGeminiResponse(userMessage, conversationHistory). */
  function GetGeminiResponse(userMessage: string, history: JsVal, key: KeyBinding, reply: UpstreamReply): (a: Attempt)
    ensures a.sent.Some? ==> ContextOf(userMessage, history) == Value(a.sent.value)
  {
    match key
    case Unbound => Attempt(Threw(Engine(ReferenceErr)), None)
    case Bound(k) =>
      if k == "" then Attempt(Threw(KeyNotConfigured), None)
      else
        match ContextOf(userMessage, history)
        case TypeError => Attempt(Threw(Engine(TypeErr)), None)
        case Value(contents) =>
          var sent := Some(contents);
          match reply
          case NetworkFailure => Attempt(Threw(Engine(NetworkErr)), sent)
          case Replied(status, text, body) =>
            if !IsOk(status) then Attempt(Threw(UpstreamError(status, text)), sent)
            else
              match body
              case Malformed => Attempt(Threw(Engine(SyntaxErr)), sent)
              case Parsed(data) => Attempt(ExtractText(data), sent)
  }

  // ---- properties ----

  /** The reply shape the code expects: `{candidates: [{content: {parts: [{text}]}}]}`. */
  function CandidateReply(text: string): Json {
    JObj(map["candidates" := JArr([JObj(map["content" := JObj(map["parts" := JArr([StrObj("text", text)])])])])])
  }

  /**
   * For any reply object and any first candidate, once `candidates[0].content`
   * is truthy the outcome is decided by that content alone; other fields of the
   * reply, of the candidate and the later candidates play no part.
   */
  lemma ExtractFromFirstContent(data: Json, candidates: seq<Json>, content: Json)
    requires data.JObj? && "candidates" in data.fields && data.fields["candidates"] == JArr(candidates)
    requires candidates != [] && candidates[0].JObj? && "content" in candidates[0].fields
    requires candidates[0].fields["content"] == content && Truthy(Val(content))
    ensures ExtractText(data) == ContentText(Val(content))
  {
    assert Prop(Val(data), "candidates") == Value(Val(JArr(candidates)));
    assert Index0(Val(JArr(candidates))) == Value(Val(candidates[0]));
    assert Prop(Val(candidates[0]), "content") == Value(Val(content));
  }

  /** Content whose `parts[0].text` is a string yields that string trimmed, whatever other fields it carries. */
  lemma ContentTextValue(content: Json, parts: seq<Json>, text: string)
    requires content.JObj? && "parts" in content.fields && content.fields["parts"] == JArr(parts)
    requires parts != [] && parts[0].JObj? && "text" in parts[0].fields && parts[0].fields["text"] == JStr(text)
    ensures ContentText(Val(content)) == Returned(Trim(text))
  {
    assert Prop(Val(content), "parts") == Value(Val(JArr(parts)));
    assert Index0(Val(JArr(parts))) == Value(Val(parts[0]));
    assert Prop(Val(parts[0]), "text") == Value(Val(JStr(text)));
  }

  /**
   * Reading the text throws, and then only a TypeError, exactly when `parts` is
   * null or undefined, `parts[0]` is null or undefined, or `parts[0].text` is not
   * a string; otherwise that text is returned trimmed.
   */
  lemma ContentTextCases(content: JsVal)
    requires Truthy(content)
    ensures var parts := Prop(content, "parts").v;
      ContentText(content).Threw? <==>
        Nullish(parts) || Nullish(Index0(parts).v) || !IsString(Prop(Index0(parts).v, "text").v)
    ensures ContentText(content).Threw? ==> ContentText(content) == Threw(Engine(TypeErr))
    ensures ContentText(content).Returned? ==>
      ContentText(content).value == Trim(Prop(Index0(Prop(content, "parts").v).v, "text").v.j.s)
  {
  }

  /** Content without a `parts` field throws a TypeError. */
  lemma MissingPartsThrows(content: Json)
    requires content.JObj? && "parts" !in content.fields
    ensures ContentText(Val(content)) == Threw(Engine(TypeErr))
  {
    assert Prop(Val(content), "parts") == Value(Undefined);
  }

  /**
   * worker.js:154-156 for any reply: when `candidates[0].content.parts[0].text`
   * is a string, whatever other fields the reply, the candidates, the content and
   * the parts carry, that string trimmed is returned.
   */
  lemma ExtractReturnsFirstText(data: Json, candidates: seq<Json>, content: Json, parts: seq<Json>, text: string)
    requires data.JObj? && "candidates" in data.fields && data.fields["candidates"] == JArr(candidates)
    requires candidates != [] && candidates[0].JObj? && "content" in candidates[0].fields
    requires candidates[0].fields["content"] == content
    requires content.JObj? && "parts" in content.fields && content.fields["parts"] == JArr(parts)
    requires parts != [] && parts[0].JObj? && "text" in parts[0].fields && parts[0].fields["text"] == JStr(text)
    ensures ExtractText(data) == Returned(Trim(text))
  {
    ExtractFromFirstContent(data, candidates, content);
    ContentTextValue(content, parts, text);
  }

  /** A reply of the expected shape yields its text, trimmed. */
  lemma ExtractWellShaped(text: string)
    ensures ExtractText(CandidateReply(text)) == Returned(Trim(text))
  {
    var part := StrObj("text", text);
    var content := JObj(map["parts" := JArr([part])]);
    var candidate := JObj(map["content" := content]);
    ExtractReturnsFirstText(CandidateReply(text), [candidate], content, [part], text);
  }

  /**
   * A reply as the upstream actually sends it, with `role` in the content,
   * `finishReason` on the candidate and `usageMetadata` beside the candidates,
   * yields the text, trimmed.
   */
  lemma ExtractFullReply(text: string, finish: string, tokens: int)
    ensures var part := StrObj("text", text);
      var content := JObj(map["parts" := JArr([part]), "role" := JStr("model")]);
      var candidate := JObj(map["content" := content, "finishReason" := JStr(finish)]);
      var data := JObj(map["candidates" := JArr([candidate]), "usageMetadata" := JObj(map["totalTokenCount" := JNum(tokens)])]);
      ExtractText(data) == Returned(Trim(text))
  {
    var part := StrObj("text", text);
    var content := JObj(map["parts" := JArr([part]), "role" := JStr("model")]);
    var candidate := JObj(map["content" := content, "finishReason" := JStr(finish)]);
    var data := JObj(map["candidates" := JArr([candidate]), "usageMetadata" := JObj(map["totalTokenCount" := JNum(tokens)])]);
    ExtractReturnsFirstText(data, [candidate], content, [part], text);
  }

  /**
   * The reply is an invalid response exactly when it is not null and one of
   * `candidates`, `candidates[0]` or `candidates[0].content` is falsy.
   */
  lemma ExtractInvalidIff(data: Json)
    ensures ExtractText(data) == Threw(InvalidResponse) <==>
      data != JNull &&
      var candidates := Prop(Val(data), "candidates").v;
      (!Truthy(candidates) || !Truthy(Index0(candidates).v) || !Truthy(Prop(Index0(candidates).v, "content").v))
  {
  }

  /** A reply without a `candidates` field is an invalid response, not a crash. */
  lemma NoCandidatesIsInvalid(data: Json)
    requires data.JObj? && "candidates" !in data.fields
    ensures ExtractText(data) == Threw(InvalidResponse)
  {
  }

  /** A missing or empty credential fails before anything is sent. */
  lemma MissingKeyNoCall(userMessage: string, history: JsVal, key: KeyBinding, reply: UpstreamReply)
    requires key == Unbound || key == Bound("")
    ensures GetGeminiResponse(userMessage, history, key, reply).sent == None
    ensures key == Bound("") ==> GetGeminiResponse(userMessage, history, key, reply).outcome == Threw(KeyNotConfigured)
  {
  }

  /**
   * With a configured key and a history without null entries, exactly one call is
   * made, and its contents end with the user message.
   */
  lemma ConfiguredKeyCalls(userMessage: string, history: JsVal, key: KeyBinding, reply: UpstreamReply)
    requires key.Bound? && key.key != ""
    requires ContextOf(userMessage, history).Value?
    ensures var a := GetGeminiResponse(userMessage, history, key, reply);
      a.sent.Some? && |a.sent.value| >= 3 && a.sent.value[|a.sent.value| - 1] == Turn(User, Val(JStr(userMessage)))
  {
    ContextShape(userMessage, history);
  }

  /**
   * A non-OK reply throws a message made of the fixed prefix, the status in
   * decimal digits that read back as the status, " - " and the upstream error text.
   */
  lemma UpstreamErrorMessage(userMessage: string, history: JsVal, key: KeyBinding, status: nat, text: string, body: Parse)
    requires key.Bound? && key.key != ""
    requires ContextOf(userMessage, history).Value?
    requires !IsOk(status)
    ensures var a := GetGeminiResponse(userMessage, history, key, Replied(status, text, body));
      a.outcome == Threw(UpstreamError(status, text))
    ensures var m := Message(UpstreamError(status, text));
      var digits := m[|"Gemini API error: "|..|m| - |text| - 3];
      && m[..|"Gemini API error: "|] == "Gemini API error: "
      && digits == Decimal(status)
      && DecimalValue(digits) == status
      && m[|m| - |text| - 3..|m| - |text|] == " - "
      && m[|m| - |text|..] == text
  {
    var prefix := "Gemini API error: ";
    var d := Decimal(status);
    var m := Message(UpstreamError(status, text));
    assert m == prefix + d + " - " + text;
    var p := |prefix|;
    assert m[..p] == prefix;
    assert m[p..|m| - |text| - 3] == d;
    assert m[|m| - |text| - 3..|m| - |text|] == " - ";
    assert m[|m| - |text|..] == text;
    DecimalRoundTrip(status);
  }

  /**
   * With a configured key and a buildable context, an OK reply whose body parses
   * gives exactly what the extraction of that body gives, after one call that
   * posted the context.
   */
  lemma OkReplyIsExtracted(userMessage: string, history: JsVal, key: KeyBinding, status: nat, text: string, data: Json)
    requires key.Bound? && key.key != ""
    requires ContextOf(userMessage, history).Value?
    requires IsOk(status)
    ensures var a := GetGeminiResponse(userMessage, history, key, Replied(status, text, Parsed(data)));
      a.outcome == ExtractText(data) && a.sent == Some(ContextOf(userMessage, history).v)
  {
    var c := ContextOf(userMessage, history);
    assert c == Value(c.v);
  }

  /** Whatever it returns is trimmed text. */
  lemma ReturnedIsTrimmed(userMessage: string, history: JsVal, key: KeyBinding, reply: UpstreamReply)
    ensures var a := GetGeminiResponse(userMessage, history, key, reply);
      a.outcome.Returned? ==> a.sent.Some? && Trimmed(a.outcome.value)
  {
  }
}
