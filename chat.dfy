/**
 * The chat page: the transcript, the input box, the `loading` flag, sending a
 * message to `/chat` and clearing the conversation. The clock is a parameter
 * (the formatted time of day of each message), `/chat`'s outcome is a
 * parameter (`None` stands for a request that threw) and `window.confirm`'s
 * answer is a parameter.
 */
module Chat {
  import opened Wrappers
  import opened Text
  import Generation

  datatype Role = User | Bot

  /** One transcript entry; only answers from `/chat` carry advice. */
  datatype Message = Message(role: Role, text: string, time: string, advice: Option<string>)

  const Greeting := "Hello! I'm MindEase AI. I'm here to listen and help you navigate your stress. How are you feeling right now?"
  const ConnectionError := "I'm having trouble connecting to the server. Please check if the backend is running."
  const ClearedGreeting := "Chat cleared. How can I support you now?"
  const QuickSuggestions: seq<string> := ["I'm feeling overwhelmed", "I can't sleep", "Help me with a panic attack", "I have too much homework"]

  /** `!msgText.trim()`: the text is empty once JavaScript whitespace is trimmed. */
  predicate IsBlank(text: string)
  {
    Strip(text, JsWhitespace) == ""
  }

  /** A text is blank exactly when every character of it is JavaScript whitespace. */
  lemma BlankIff(text: string)
    ensures IsBlank(text) <==> forall k :: 0 <= k < |text| ==> text[k] in JsWhitespace
  {
    StripEmptyIff(text, JsWhitespace);
  }

  /** A text that starts with a capital letter is not blank. */
  lemma CapitalVisible(text: string)
    requires |text| > 0 && 'A' <= text[0] <= 'Z'
    ensures !IsBlank(text)
  {
    assert text[0] !in JsWhitespace;
    BlankIff(text);
  }

  /** Every quick-suggestion chip holds a non-blank text, so clicking one always sends it. */
  lemma SuggestionsNotBlank()
    ensures forall i :: 0 <= i < |QuickSuggestions| ==> !IsBlank(QuickSuggestions[i])
  {
    var q := QuickSuggestions;
    forall i | 0 <= i < |q| ensures !IsBlank(q[i]) {
      assert q[i][0] == 'I' || q[i][0] == 'H';
      CapitalVisible(q[i]);
    }
  }

  /** `history.map(h => h.text)`: the context the page posts with a message. */
  function Texts(history: seq<Message>): (texts: seq<string>)
    ensures |texts| == |history|
    ensures forall i :: 0 <= i < |history| ==> texts[i] == history[i].text
  {
    seq(|history|, i requires 0 <= i < |history| => history[i].text)
  }

  /**
   * The bot's answer to a message sent at `sentAt`: `/chat`'s reply and advice,
   * timed when it arrived, or the connection error, timed like the message.
   */
  function BotAnswer(response: Option<Generation.ChatResponse>, sentAt: string, answeredAt: string): (m: Message)
    ensures m.role == Bot
    ensures response.Some? ==> m.text == response.value.reply && m.advice == Some(response.value.advice) && m.time == answeredAt
    ensures response.None? ==> m.text == ConnectionError && m.advice == None && m.time == sentAt
  {
    match response
    case Some(r) => Message(Bot, r.reply, answeredAt, Some(r.advice))
    case None => Message(Bot, ConnectionError, sentAt, None)
  }

  /** `{m.advice && ...}`: the wellness-tip card shows only a present, non-empty advice. */
  function AdviceCard(m: Message): Option<string>
  {
    if m.advice.Some? && m.advice.value != "" then m.advice else None
  }

  /**
   * Every answer `/chat` serves gets a tip card: "Active Listening" with the
   * generator loaded, "Check server." without it.
   */
  lemma ServedAnswerAdvice(req: Generation.ChatRequest, aiLoaded: bool, gen: Generation.Generator, sentAt: string, answeredAt: string)
    ensures var card := AdviceCard(BotAnswer(Some(Generation.ChatEndpoint(req, aiLoaded, gen)), sentAt, answeredAt));
      && (aiLoaded ==> card == Some(Generation.ChatAdvice))
      && (!aiLoaded ==> card == Some(Generation.OfflineReply.advice))
  {
  }

  /**
   * The transcript's shape when sends do not overlap: it opens with the bot,
   * and user and bot take turns, so it ends with a bot message.
   */
  ghost predicate Alternating(history: seq<Message>)
  {
    && |history| % 2 == 1
    && forall i :: 0 <= i < |history| ==> (history[i].role == Bot <==> i % 2 == 0)
  }

  /** A send appends the user's message and then the bot's answer. */
  function Exchange(history: seq<Message>, msgText: string, sentAt: string,
                    response: Option<Generation.ChatResponse>, answeredAt: string): seq<Message>
  {
    history + [Message(User, msgText, sentAt, None), BotAnswer(response, sentAt, answeredAt)]
  }

  /**
   * An exchange keeps the earlier transcript, adds the message as the user's
   * and the answer as the bot's, and keeps the turns alternating.
   */
  lemma ExchangeSpec(history: seq<Message>, msgText: string, sentAt: string,
                     response: Option<Generation.ChatResponse>, answeredAt: string)
    requires Alternating(history)
    ensures var h := Exchange(history, msgText, sentAt, response, answeredAt);
      && |h| == |history| + 2
      && h[..|history|] == history
      && h[|history|] == Message(User, msgText, sentAt, None)
      && h[|history| + 1].role == Bot
      && Alternating(h)
  {
    var h := Exchange(history, msgText, sentAt, response, answeredAt);
    forall i | 0 <= i < |h|
      ensures h[i].role == Bot <==> i % 2 == 0
    {
      if i < |history| {
        assert h[i] == history[i];
      }
    }
  }

  /**
   * An exchange shows no tip card under the user's message, nor under the
   * connection error that stands in for a failed post.
   */
  lemma ExchangeAdvice(history: seq<Message>, msgText: string, sentAt: string,
                       response: Option<Generation.ChatResponse>, answeredAt: string)
    ensures var h := Exchange(history, msgText, sentAt, response, answeredAt);
      && AdviceCard(h[|history|]) == None
      && (response.None? ==> AdviceCard(h[|history| + 1]) == None)
      && (response.Some? ==> h[|history| + 1].advice == Some(response.value.advice))
  {
  }

  /** In an alternating transcript every user message has been answered by the bot. */
  lemma UserAnswered(history: seq<Message>, i: nat)
    requires Alternating(history)
    requires i < |history| && history[i].role == User
    ensures i + 1 < |history| && history[i + 1].role == Bot
  {
    assert i % 2 == 1;
  }

  /**
   * What `/chat` hears of the conversation: with the generator loaded, only
   * the last four texts before the new message; the message itself is the
   * separate `message` field.
   */
  lemma ContextWindow(older: seq<Message>, recent: seq<Message>, msgText: string, aiLoaded: bool, gen: Generation.Generator)
    requires |recent| >= 4
    ensures Generation.ChatEndpoint(Generation.ChatRequest(msgText, Texts(older + recent)), aiLoaded, gen)
         == Generation.ChatEndpoint(Generation.ChatRequest(msgText, Texts(recent)), aiLoaded, gen)
  {
    assert Texts(older + recent) == Texts(older) + Texts(recent);
    Generation.OlderHistoryIgnored(msgText, Texts(older), Texts(recent), aiLoaded, gen);
  }

  class ChatSession {
    var history: seq<Message>
    var input: string
    var loading: bool

    /** Between user actions the transcript alternates and no request is outstanding. */
    ghost predicate Valid()
      reads this
    {
      Alternating(history) && !loading
    }

    /** The page opens with the greeting, timed `now`, an empty input and no request. */
    constructor (now: string)
      ensures Valid()
      ensures history == [Message(Bot, Greeting, now, None)] && input == "" && !loading
    {
      history := [Message(Bot, Greeting, now, None)];
      input := "";
      loading := false;
    }

    /** `disabled={loading || !input.trim()}` on the send button. */
    function SendEnabled(): bool
      reads this
    {
      !loading && !IsBlank(input)
    }

    /** The input box's `onChange`. */
    method SetInput(text: string)
      requires Valid()
      modifies this`input
      ensures Valid()
      ensures input == text
    {
      input := text;
    }

    /**
     * `send(msgText)`. A blank text changes nothing and posts nothing.
     * Otherwise the page posts the message with the texts of the transcript
     * as it was BEFORE the message was added, appends the message and the
     * answer (`response`, or the connection error when the post threw),
     * empties the input and clears `loading`, which `pending` shows set while
     * the post is outstanding; `enabledAtAwait` is the send button's state then.
     */
    method Send(msgText: string, sentAt: string, response: Option<Generation.ChatResponse>, answeredAt: string)
      returns (request: Option<Generation.ChatRequest>, ghost pending: bool, ghost enabledAtAwait: bool)
      requires Valid()
      modifies this`history, this`input, this`loading
      ensures Valid()
      ensures pending ==> !enabledAtAwait
      ensures IsBlank(msgText) ==> request == None && history == old(history) && input == old(input) && !pending
      ensures !IsBlank(msgText) ==>
        && request == Some(Generation.ChatRequest(msgText, Texts(old(history))))
        && history == Exchange(old(history), msgText, sentAt, response, answeredAt)
        && input == ""
        && pending
    {
      if IsBlank(msgText) {
        return None, false, false;
      }
      var context := Texts(history);
      ExchangeSpec(history, msgText, sentAt, response, answeredAt);
      history := history + [Message(User, msgText, sentAt, None)];
      input := "";
      loading := true;
      pending, enabledAtAwait := loading, SendEnabled();
      request := Some(Generation.ChatRequest(msgText, context));
      history := history + [BotAnswer(response, sentAt, answeredAt)];
      loading := false;
    }

    /**
     * `send()` from the Enter key or the send button: sends what the input box
     * holds. It posts and extends the transcript by one exchange exactly when
     * the send button was enabled.
     */
    method SendInput(sentAt: string, response: Option<Generation.ChatResponse>, answeredAt: string)
      returns (request: Option<Generation.ChatRequest>, ghost pending: bool)
      requires Valid()
      modifies this`history, this`input, this`loading
      ensures Valid()
      ensures request.Some? <==> old(SendEnabled())
      ensures old(SendEnabled()) ==> |history| == |old(history)| + 2 && input == ""
      ensures !old(SendEnabled()) ==> history == old(history)
      ensures IsBlank(old(input)) ==> request == None && history == old(history) && input == old(input)
      ensures !IsBlank(old(input)) ==>
        && request == Some(Generation.ChatRequest(old(input), Texts(old(history))))
        && history == Exchange(old(history), old(input), sentAt, response, answeredAt)
        && input == ""
    {
      ghost var enabledAtAwait;
      request, pending, enabledAtAwait := Send(input, sentAt, response, answeredAt);
    }

    /** `clearChat`: when the user confirms, the transcript restarts with the "cleared" greeting. */
    method ClearChat(confirmed: bool, now: string)
      requires Valid()
      modifies this`history
      ensures Valid()
      ensures confirmed ==> history == [Message(Bot, ClearedGreeting, now, None)]
      ensures !confirmed ==> history == old(history)
    {
      if confirmed {
        history := [Message(Bot, ClearedGreeting, now, None)];
      }
    }
  }
}
