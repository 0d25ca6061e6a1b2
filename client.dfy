/**
 * The browser widget in script.js: what askAI shows in the output element, what
 * it posts, and whether it asks speakText to read the answer aloud, and in which
 * locale. The page elements and the fetch are inputs; the writes to the output
 * element, the request and the speech call are the result.
 */
module Client {
  import opened JsValue
  import opened JsString

  const PromptMessage: string := "Question likh pehle \U{1F921}"
  const ThinkingMessage: string := "Professor AI soch raha hai... \U{23F3}"
  const ServerErrorMessage: string := "Server error \U{274C}"
  const NoAnswerMessage: string := "AI ne kuch nahi bola \U{1F921}"
  const ConnectMessage: string := "Worker connect nahi ho raha \U{274C}"

  /** What the fetch to the worker produced: a thrown error, or a status and what `res.json()` made of the body. */
  datatype FetchOutcome = FetchThrew | Fetched(status: nat, body: Parse)

  /** The JSON posted to `/ask`. */
  datatype AskRequest = AskRequest(question: string, language: string)

  /** A speakText call: the value to read and the locale it is read in. */
  datatype Speech = Speech(text: Json, locale: string)

  /**
   * One run of askAI: the values assigned to `output.innerText`, in order, the
   * request posted (if any), and the speakText call (if any).
   */
  datatype View = View(shown: seq<Json>, request: Option<AskRequest>, speech: Option<Speech>)

  /** The text left in the output element when askAI finishes. */
  function Final(v: View): Json
    requires v.shown != []
  {
    v.shown[|v.shown| - 1]
  }

  /** speakText's choice of `utter.lang`. */
  function SpeechLocale(language: string): string {
    if language == "Hindi" then "hi-IN"
    else if language == "Marathi" then "mr-IN"
    else if language == "Urdu" then "ur-IN"
    else "en-US"
  }

  /**
   * askAI. `languageSelect` is the selector's value, None when the page has no
   * selector. A blank question stops at the prompt; any other is sent trimmed.
   */
  function AskAI(rawQuestion: string, languageSelect: Option<string>, fetch: FetchOutcome): (v: View)
    ensures v.shown != []
  {
    var question := Trim(rawQuestion);
    var language := if languageSelect.Some? then languageSelect.value else "English";
    if question == "" then View([JStr(PromptMessage)], None, None)
    else AfterSend(AskRequest(question, language), fetch)
  }

  /**
   * The rest of askAI once the request is posted: "thinking" is shown, then the
   * outcome. A TypeError on a null reply body lands in the catch block, like a
   * failed fetch or an unparsable body.
   */
  function AfterSend(request: AskRequest, fetch: FetchOutcome): (v: View)
    ensures |v.shown| == 2 && v.shown[0] == JStr(ThinkingMessage) && v.request == Some(request)
  {
    var caught := View([JStr(ThinkingMessage), JStr(ConnectMessage)], Some(request), None);
    match fetch
    case FetchThrew => caught
    case Fetched(status, body) =>
      match body
      case Malformed => caught
      case Parsed(data) =>
        if !IsOk(status) then
          match Prop(Val(data), "error")
          case TypeError => caught
          case Value(error) =>
            View([JStr(ThinkingMessage), if Truthy(error) then error.j else JStr(ServerErrorMessage)], Some(request), None)
        else
          match Prop(Val(data), "answer")
          case TypeError => caught
          case Value(answer) =>
            if !Truthy(answer) then View([JStr(ThinkingMessage), JStr(NoAnswerMessage)], Some(request), None)
            else View([JStr(ThinkingMessage), answer.j], Some(request), Some(Speech(answer.j, SpeechLocale(request.language))))
  }

  // ---- properties ----

  /** The languages read in an Indian locale, and that locale; every other language is read in en-US. */
  const IndianLocales: map<string, string> := map["Hindi" := "hi-IN", "Marathi" := "mr-IN", "Urdu" := "ur-IN"]

  /** speakText's if/else chain is the table lookup with en-US as the default. */
  lemma SpeechLocaleIsTable(language: string)
    ensures SpeechLocale(language) == if language in IndianLocales then IndianLocales[language] else "en-US"
    ensures SpeechLocale(language) == "en-US" <==> language !in IndianLocales
  {
  }

  /** English and Hinglish are both read in en-US. */
  lemma EnglishAndHinglishUseEnUs()
    ensures SpeechLocale("English") == "en-US" && SpeechLocale("Hinglish") == "en-US"
  {
  }

  /** Two languages share a locale only if they are equal or both fall to the en-US default. */
  lemma SpeechLocaleInjectiveOnTable(a: string, b: string)
    requires SpeechLocale(a) == SpeechLocale(b)
    ensures a == b || (a !in IndianLocales && b !in IndianLocales)
  {
  }

  /** An empty or all-whitespace question shows the prompt and sends nothing; any other question is sent. */
  lemma EmptyQuestionIff(rawQuestion: string, languageSelect: Option<string>, fetch: FetchOutcome)
    ensures var v := AskAI(rawQuestion, languageSelect, fetch);
      v.request == None <==> AllWhitespace(rawQuestion)
    ensures var v := AskAI(rawQuestion, languageSelect, fetch);
      AllWhitespace(rawQuestion) ==> v.shown == [JStr(PromptMessage)] && v.speech == None
  {
    TrimEmptyIff(rawQuestion);
  }

  /** A question that is not blank is posted trimmed, with the selected language or English. */
  lemma NonBlankIsSent(rawQuestion: string, languageSelect: Option<string>, fetch: FetchOutcome)
    requires !AllWhitespace(rawQuestion)
    ensures AskAI(rawQuestion, languageSelect, fetch) ==
      AfterSend(AskRequest(Trim(rawQuestion), if languageSelect.Some? then languageSelect.value else "English"), fetch)
  {
    TrimEmptyIff(rawQuestion);
  }

  /** The question is sent trimmed (non-empty, no whitespace at either end); without a selector the language is English. */
  lemma RequestIsTrimmed(rawQuestion: string, languageSelect: Option<string>, fetch: FetchOutcome)
    ensures var v := AskAI(rawQuestion, languageSelect, fetch);
      v.request.Some? ==>
        && v.request.value.question == Trim(rawQuestion)
        && v.request.value.question != []
        && Trimmed(v.request.value.question)
        && v.request.value.language == (if languageSelect.Some? then languageSelect.value else "English")
  {
    TrimIsWhitespaceCut(rawQuestion);
  }

  /** Once sent, "thinking" is shown first and exactly one more text replaces it. */
  lemma ThinkingThenOne(rawQuestion: string, languageSelect: Option<string>, fetch: FetchOutcome)
    ensures var v := AskAI(rawQuestion, languageSelect, fetch);
      v.request.Some? ==> |v.shown| == 2 && v.shown[0] == JStr(ThinkingMessage)
  {
  }

  /**
   * Speech fires exactly when the question is not blank and the reply is OK,
   * parses to a non-null value and has a truthy `answer`.
   */
  lemma SpeechIff(rawQuestion: string, languageSelect: Option<string>, fetch: FetchOutcome)
    ensures AskAI(rawQuestion, languageSelect, fetch).speech.Some? <==>
        && !AllWhitespace(rawQuestion)
        && fetch.Fetched? && IsOk(fetch.status) && fetch.body.Parsed? && fetch.body.json != JNull
        && Truthy(Prop(Val(fetch.body.json), "answer").v)
  {
    if AllWhitespace(rawQuestion) {
      EmptyQuestionIff(rawQuestion, languageSelect, fetch);
    } else {
      NonBlankIsSent(rawQuestion, languageSelect, fetch);
      var language := if languageSelect.Some? then languageSelect.value else "English";
      AfterSendSpeechIff(AskRequest(Trim(rawQuestion), language), fetch);
    }
  }

  /** Once posted, speech fires exactly for an OK reply that parses to a non-null value with a truthy `answer`. */
  lemma AfterSendSpeechIff(request: AskRequest, fetch: FetchOutcome)
    ensures AfterSend(request, fetch).speech.Some? <==>
        && fetch.Fetched? && IsOk(fetch.status) && fetch.body.Parsed? && fetch.body.json != JNull
        && Truthy(Prop(Val(fetch.body.json), "answer").v)
  {
    if fetch.Fetched? && fetch.body.Parsed? && IsOk(fetch.status) {
      var data := fetch.body.json;
      assert Prop(Val(data), "answer").TypeError? <==> data == JNull;
    }
  }

  /** When speech fires, the answer is what is shown last and it is read in the request's language's locale. */
  lemma SpokenAnswer(request: AskRequest, status: nat, data: Json)
    requires AfterSend(request, Fetched(status, Parsed(data))).speech.Some?
    ensures var v := AfterSend(request, Fetched(status, Parsed(data)));
        && data != JNull
        && Val(Final(v)) == Prop(Val(data), "answer").v
        && v.speech.value.text == Final(v)
        && v.speech.value.locale == SpeechLocale(request.language)
  {
    assert IsOk(status);
    assert data != JNull;
  }

  /** A non-OK reply shows `data.error` when it is truthy, otherwise the server-error text, and is not spoken. */
  lemma NotOkShowsError(request: AskRequest, status: nat, data: Json)
    requires !IsOk(status) && data != JNull
    ensures var v := AfterSend(request, Fetched(status, Parsed(data)));
      var error := Prop(Val(data), "error").v;
      && Final(v) == (if Truthy(error) then error.j else JStr(ServerErrorMessage))
      && v.speech == None
  {
  }

  /** An OK reply whose `answer` is missing or falsy shows the fallback text, unspoken. */
  lemma MissingAnswerFallback(request: AskRequest, status: nat, data: Json)
    requires IsOk(status) && data != JNull
    requires !Truthy(Prop(Val(data), "answer").v)
    ensures var v := AfterSend(request, Fetched(status, Parsed(data)));
      Final(v) == JStr(NoAnswerMessage) && v.speech == None
  {
  }

  /**
   * A sent request that ends in the catch block shows the connectivity text,
   * unspoken: the fetch throws, the body does not parse (whatever the status),
   * or the body is null.
   */
  lemma CaughtShowsConnectivity(request: AskRequest, fetch: FetchOutcome)
    requires fetch.FetchThrew? || fetch.body.Malformed? || fetch.body.json == JNull
    ensures var v := AfterSend(request, fetch);
      Final(v) == JStr(ConnectMessage) && v.speech == None
  {
  }
}
