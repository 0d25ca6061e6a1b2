/**
 * buildConversationContext in worker.js: the ordered list of turns sent
 * upstream. A persona preamble of two turns, then the usable history entries
 * in their original order, then the current message.
 */
module Context {
  import opened JsValue

  /** The upstream API's two roles. */
  datatype Speaker = User | Model

  /** One entry of `contents`: a role and a single part whose `text` is the given value. */
  datatype Turn = Turn(role: Speaker, text: JsVal)

  /** The persona instructions sent as the first user turn; its wording is not modelled. */
  const SystemPrompt: string

  /** The fixed model acknowledgement that follows the persona instructions; its wording is not modelled. */
  const Acknowledgement: string

  function Preamble(): seq<Turn> {
    [Turn(User, Val(JStr(SystemPrompt))), Turn(Model, Val(JStr(Acknowledgement)))]
  }

  /** A history entry whose `role` cannot even be read: `null` makes the forEach callback throw. */
  predicate NoNullEntry(h: seq<Json>) {
    forall i :: 0 <= i < |h| ==> h[i] != JNull
  }

  /** What one history entry pushes: a user turn, a model turn, or nothing for any other role. */
  function EntryTurns(msg: Json): seq<Turn>
    requires msg != JNull
  {
    var role := Prop(Val(msg), "role").v;
    var content := Prop(Val(msg), "content").v;
    if role == Val(JStr("user")) then [Turn(User, content)]
    else if role == Val(JStr("assistant")) then [Turn(Model, content)]
    else []
  }

  /** The turns the forEach over `history` pushes, in order. */
  function HistoryTurns(h: seq<Json>): seq<Turn>
    requires NoNullEntry(h)
  {
    if h == [] then [] else EntryTurns(h[0]) + HistoryTurns(h[1..])
  }

  /** The entries `history && Array.isArray(history)` lets through: none unless it is an array. */
  function HistoryItems(history: JsVal): seq<Json> {
    if history.Val? && history.j.JArr? then history.j.items else []
  }

  /** The context for `currentMessage`, or the TypeError a null history entry raises. */
  function ContextOf(currentMessage: string, history: JsVal): Eval<seq<Turn>> {
    var h := HistoryItems(history);
    if NoNullEntry(h) then Value(Preamble() + HistoryTurns(h) + [Turn(User, Val(JStr(currentMessage)))])
    else TypeError
  }

  /** buildConversationContext: pushes the preamble, walks the history, pushes the current message. */
  method BuildConversationContext(currentMessage: string, history: JsVal) returns (r: Eval<seq<Turn>>)
    ensures r == ContextOf(currentMessage, history)
  {
    var messages: seq<Turn> := [];
    messages := messages + [Turn(User, Val(JStr(SystemPrompt)))];
    messages := messages + [Turn(Model, Val(JStr(Acknowledgement)))];
    if history.Val? && history.j.JArr? {
      var items := history.j.items;
      var i := 0;
      while i < |items|
        invariant 0 <= i <= |items|
        invariant NoNullEntry(items[..i])
        invariant messages == Preamble() + HistoryTurns(items[..i])
      {
        var msg := items[i];
        if msg == JNull {
          return TypeError;
        }
        var role := Prop(Val(msg), "role").v;
        if role == Val(JStr("user")) {
          messages := messages + [Turn(User, Prop(Val(msg), "content").v)];
        } else if role == Val(JStr("assistant")) {
          messages := messages + [Turn(Model, Prop(Val(msg), "content").v)];
        }
        assert items[..i + 1] == items[..i] + [msg];
        HistoryTurnsAppend(items[..i], [msg]);
        i := i + 1;
      }
      assert items[..i] == items;
    } else {
      assert messages == Preamble() + HistoryTurns([]);
    }
    messages := messages + [Turn(User, Val(JStr(currentMessage)))];
    return Value(messages);
  }

  /** The history walk distributes over concatenation: entries never influence each other. */
  lemma {:induction false} HistoryTurnsAppend(a: seq<Json>, b: seq<Json>)
    requires NoNullEntry(a) && NoNullEntry(b)
    ensures NoNullEntry(a + b)
    ensures HistoryTurns(a + b) == HistoryTurns(a) + HistoryTurns(b)
    decreases |a|
  {
    assert NoNullEntry(a + b) by {
      forall i | 0 <= i < |a + b| ensures (a + b)[i] != JNull {
        if i >= |a| {
          assert (a + b)[i] == b[i - |a|];
        }
      }
    }
    if a == [] {
      assert a + b == b;
    } else {
      assert (a + b)[1..] == a[1..] + b;
      HistoryTurnsAppend(a[1..], b);
    }
  }

  // ---- an independent description of which entries survive ----

  /** An entry that is an object whose `role` is exactly the string "user" or "assistant". */
  predicate Conversational(msg: Json) {
    msg.JObj? && "role" in msg.fields && (msg.fields["role"] == JStr("user") || msg.fields["role"] == JStr("assistant"))
  }

  /** The turn a conversational entry becomes: `assistant` is renamed `model`, the content is carried over. */
  function TurnOf(msg: Json): Turn
    requires Conversational(msg)
  {
    Turn(if msg.fields["role"] == JStr("user") then User else Model,
         if "content" in msg.fields then Val(msg.fields["content"]) else Undefined)
  }

  /** The positions of the conversational entries of `h`, in increasing order. */
  function KeptIndices(h: seq<Json>): seq<nat>
    decreases |h|
  {
    if h == [] then []
    else KeptIndices(h[..|h| - 1]) + (if Conversational(h[|h| - 1]) then [|h| - 1] else [])
  }

  /** KeptIndices lists exactly the conversational positions, each once, in increasing order. */
  lemma {:induction false} KeptIndicesExact(h: seq<Json>)
    ensures forall k :: 0 <= k < |KeptIndices(h)| ==> KeptIndices(h)[k] < |h| && Conversational(h[KeptIndices(h)[k]])
    ensures forall a, b :: 0 <= a < b < |KeptIndices(h)| ==> KeptIndices(h)[a] < KeptIndices(h)[b]
    ensures forall i :: 0 <= i < |h| && Conversational(h[i]) ==> i in KeptIndices(h)
    decreases |h|
  {
    if h != [] {
      var n := |h| - 1;
      var init := h[..n];
      KeptIndicesExact(init);
      var ki := KeptIndices(init);
      var k := KeptIndices(h);
      assert k == ki + (if Conversational(h[n]) then [n] else []);
      forall j | 0 <= j < |k| ensures k[j] < |h| && Conversational(h[k[j]]) {
        if j < |ki| {
          assert k[j] == ki[j];
          assert init[ki[j]] == h[ki[j]];
        }
      }
      forall a, b | 0 <= a < b < |k| ensures k[a] < k[b] {
        if b >= |ki| {
          assert k[a] == ki[a];
        }
      }
      forall i | 0 <= i < |h| && Conversational(h[i]) ensures i in k {
        if i < n {
          assert init[i] == h[i];
          var j :| 0 <= j < |ki| && ki[j] == i;
          assert k[j] == i;
        }
      }
    }
  }

  /** One entry's turns, stated by the independent description. */
  lemma EntryTurnsAgree(msg: Json)
    requires msg != JNull
    ensures EntryTurns(msg) == if Conversational(msg) then [TurnOf(msg)] else []
  {
  }

  /**
   * The k-th history turn comes from the k-th conversational entry: nothing is
   * reordered, every user/assistant entry appears, every other entry is dropped.
   */
  lemma {:induction false} HistoryTurnsByIndex(h: seq<Json>)
    requires NoNullEntry(h)
    ensures |HistoryTurns(h)| == |KeptIndices(h)|
    ensures forall k :: 0 <= k < |KeptIndices(h)| ==>
              KeptIndices(h)[k] < |h| && Conversational(h[KeptIndices(h)[k]]) && HistoryTurns(h)[k] == TurnOf(h[KeptIndices(h)[k]])
    decreases |h|
  {
    if h != [] {
      var n := |h| - 1;
      var init := h[..n];
      var last := h[n];
      assert NoNullEntry(init) by {
        forall i | 0 <= i < |init| ensures init[i] != JNull {
          assert init[i] == h[i];
        }
      }
      HistoryTurnsByIndex(init);
      var ki := KeptIndices(init);
      var k := KeptIndices(h);
      var ti := HistoryTurns(init);
      var t := HistoryTurns(h);
      assert k == ki + (if Conversational(last) then [n] else []);
      assert t == ti + (if Conversational(last) then [TurnOf(last)] else []) by {
        HistoryTurnsSnoc(init, last);
        assert h == init + [last];
      }
      forall j | 0 <= j < |k| ensures k[j] < |h| && Conversational(h[k[j]]) && t[j] == TurnOf(h[k[j]]) {
        if j < |ki| {
          assert t[j] == ti[j];
          assert k[j] == ki[j];
          assert init[ki[j]] == h[ki[j]];
        }
      }
    }
  }

  /** Appending one entry appends that entry's turns. */
  lemma HistoryTurnsSnoc(init: seq<Json>, last: Json)
    requires NoNullEntry(init) && last != JNull
    ensures NoNullEntry(init + [last])
    ensures HistoryTurns(init + [last]) == HistoryTurns(init) + (if Conversational(last) then [TurnOf(last)] else [])
  {
    HistoryTurnsAppend(init, [last]);
    assert HistoryTurns([last]) == EntryTurns(last) by {
      assert [last][1..] == [];
    }
    EntryTurnsAgree(last);
  }

  // ---- the shape of the assembled context ----

  /** How many entries of `h` become turns. */
  function ConversationalCount(h: seq<Json>): nat {
    |KeptIndices(h)|
  }

  /**
   * Whenever the context is built, it is the preamble, then the history turns,
   * then the current message as a user turn; its length is three plus the number
   * of user/assistant entries.
   */
  lemma ContextShape(currentMessage: string, history: JsVal)
    requires ContextOf(currentMessage, history).Value?
    ensures var c := ContextOf(currentMessage, history).v;
      && |c| == 3 + ConversationalCount(HistoryItems(history))
      && c[0] == Turn(User, Val(JStr(SystemPrompt)))
      && c[1] == Turn(Model, Val(JStr(Acknowledgement)))
      && c[|c| - 1] == Turn(User, Val(JStr(currentMessage)))
      && c[2..|c| - 1] == HistoryTurns(HistoryItems(history))
  {
    HistoryTurnsByIndex(HistoryItems(history));
  }

  /** The context fails exactly when the history is an array holding a null entry. */
  lemma ContextFailsOnlyOnNull(currentMessage: string, history: JsVal)
    ensures ContextOf(currentMessage, history).TypeError? <==>
      (history.Val? && history.j.JArr? && exists i :: 0 <= i < |history.j.items| && history.j.items[i] == JNull)
  {
  }

  /** Absent, null or non-array history contributes nothing: the context is the preamble and the message. */
  lemma NoArrayNoHistory(currentMessage: string, history: JsVal)
    requires !(history.Val? && history.j.JArr?)
    ensures ContextOf(currentMessage, history) == Value(Preamble() + [Turn(User, Val(JStr(currentMessage)))])
  {
    assert Preamble() + HistoryTurns([]) == Preamble();
  }
}
