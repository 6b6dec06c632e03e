/**
 * The back end's `/explain` and `/chat` handlers around the text generator:
 * which part of the request reaches the prompt, which fixed answers are given
 * when the generator is not loaded or fails, and how the reply is cut out of
 * the generated text. The generator itself is a parameter.
 */
module Generation {
  import opened Wrappers
  import opened Text
  import Scoring

  /** The marker that opens the assistant's turn in the prompt format. */
  const AssistantMarker := "<|assistant|>\n"

  /** The request-dependent parts of a prompt; the fixed wording around them is not modelled. */
  datatype Prompt =
    | ExplainPrompt(stressLabel: string, stressors: string)
    | ChatPrompt(conversation: string, message: string)

  /** The text-generation pipeline: the generated text for a prompt, or `None` when the call raises. */
  type Generator = Prompt -> Option<string>

  // ---------------------------------------------------------------------------
  // Reply extraction

  /** `generated.split("<|assistant|>\n")[-1].strip()`. */
  function ExtractReply(generated: string): string
  {
    Strip(LastPiece(generated, AssistantMarker), PyWhitespace)
  }

  /** The reply contains no marker. */
  lemma ExtractReplyMarkerFree(generated: string)
    ensures !Contains(ExtractReply(generated), AssistantMarker)
  {
    LastPieceFollowsSeparator(generated, AssistantMarker);
    StripKeepsAbsence(LastPiece(generated, AssistantMarker), AssistantMarker, PyWhitespace);
  }

  /**
   * When the text holds a marker, the piece `split` leaves last starts right
   * after the LAST marker: no marker occurs further on.
   */
  lemma LastMarker(generated: string)
    requires Contains(generated, AssistantMarker)
    ensures var p := |generated| - |LastPiece(generated, AssistantMarker)|;
      && p >= |AssistantMarker|
      && OccursAt(generated, AssistantMarker, p - |AssistantMarker|)
      && forall q :: OccursAt(generated, AssistantMarker, q) ==> q <= p - |AssistantMarker|
  {
    var m, last := AssistantMarker, LastPiece(generated, AssistantMarker);
    LastPieceFollowsSeparator(generated, m);
    var p := |generated| - |last|;
    MarkerHeadOnce();
    forall q | p - |m| < q && q + |m| <= |generated|
      ensures !OccursAt(generated, m, q)
    {
      if q >= p {
        NoOccurrenceAfter(generated, m, p, q);
      } else {
        NoOverlap(generated, m, p - |m|, q);
      }
    }
  }

  /** The marker's first character, `'<'`, occurs nowhere else in it. */
  lemma MarkerHeadOnce()
    ensures forall d :: 0 < d < |AssistantMarker| ==> AssistantMarker[d] != AssistantMarker[0]
  {
  }

  /**
   * The reply is the text after the last marker, stripped: it contains no
   * marker, neither starts nor ends with whitespace, is the whole text
   * stripped when there is no marker, and otherwise is the stripped suffix
   * that directly follows a marker after which no marker occurs.
   */
  lemma ExtractReplySpec(generated: string)
    ensures var r := ExtractReply(generated);
      && !Contains(r, AssistantMarker)
      && (r == [] || (r[0] !in PyWhitespace && r[|r| - 1] !in PyWhitespace))
      && (!Contains(generated, AssistantMarker) ==> r == Strip(generated, PyWhitespace))
      && (Contains(generated, AssistantMarker) ==>
            var p := |generated| - |LastPiece(generated, AssistantMarker)|;
            && p >= |AssistantMarker|
            && generated[p - |AssistantMarker|..p] == AssistantMarker
            && (forall q :: OccursAt(generated, AssistantMarker, q) ==> q <= p - |AssistantMarker|)
            && r == Strip(generated[p..], PyWhitespace))
  {
    ExtractReplyMarkerFree(generated);
    if Contains(generated, AssistantMarker) {
      LastMarker(generated);
    }
    LastPieceFollowsSeparator(generated, AssistantMarker);
    StripSlice(LastPiece(generated, AssistantMarker), PyWhitespace);
  }

  // ---------------------------------------------------------------------------
  // /explain

  datatype ExplainRequest = ExplainRequest(stressLabel: string, factors: seq<string>)

  const AiOffline := "AI offline."
  const ExplainFallback := "Focus on deep breathing."

  /** The prompt `/explain` builds: the label and the factors joined with `", "`. */
  function ExplainPromptFor(req: ExplainRequest): Prompt
  {
    ExplainPrompt(req.stressLabel, Scoring.FactorsText(req.factors))
  }

  /** `get_explanation`: the fixed offline text, the fixed fallback when generation raises, or the extracted reply. */
  function GetExplanation(req: ExplainRequest, aiLoaded: bool, gen: Generator): string
  {
    if !aiLoaded then AiOffline
    else match gen(ExplainPromptFor(req))
      case None => ExplainFallback
      case Some(generated) => ExtractReply(generated)
  }

  /**
   * An explanation is one of the two fixed texts only when generation did not
   * run or failed; otherwise it is a reply cut from what was generated for
   * this request's label and factors.
   */
  lemma ExplanationCases(req: ExplainRequest, aiLoaded: bool, gen: Generator)
    ensures var e := GetExplanation(req, aiLoaded, gen);
      && (!aiLoaded ==> e == AiOffline)
      && (aiLoaded && gen(ExplainPromptFor(req)).None? ==> e == ExplainFallback)
      && (aiLoaded && gen(ExplainPromptFor(req)).Some? ==>
            e == ExtractReply(gen(ExplainPromptFor(req)).value) && !Contains(e, AssistantMarker))
  {
    if aiLoaded && gen(ExplainPromptFor(req)).Some? {
      ExtractReplySpec(gen(ExplainPromptFor(req)).value);
    }
  }

  // ---------------------------------------------------------------------------
  // /chat

  datatype ChatRequest = ChatRequest(message: string, history: seq<string>)

  datatype ChatResponse = ChatResponse(reply: string, advice: string)

  const OfflineReply := ChatResponse("I'm offline.", "Check server.")
  const ChatFallback := "I'm listening."
  const ChatAdvice := "Active Listening"

  /** `history[-4:]`: the last four entries, or all of them when there are fewer. */
  function RecentHistory(history: seq<string>): (recent: seq<string>)
    ensures |recent| == if |history| < 4 then |history| else 4
    ensures recent == history[|history| - |recent|..]
  {
    if |history| <= 4 then history else history[|history| - 4..]
  }

  /** `"\n".join(history[-4:])`. */
  function ConversationText(history: seq<string>): string
  {
    Join("\n", RecentHistory(history))
  }

  /** `chat_endpoint`: the fixed offline answer, or a reply to the message and the recent conversation. */
  function ChatEndpoint(req: ChatRequest, aiLoaded: bool, gen: Generator): ChatResponse
  {
    if !aiLoaded then OfflineReply
    else
      var reply :=
        match gen(ChatPrompt(ConversationText(req.history), req.message))
        case None => ChatFallback
        case Some(generated) => ExtractReply(generated);
      ChatResponse(reply, ChatAdvice)
  }

  /** With the generator loaded the advice is always "Active Listening"; without it the fixed offline answer. */
  lemma ChatAdviceFixed(req: ChatRequest, aiLoaded: bool, gen: Generator)
    ensures aiLoaded ==> ChatEndpoint(req, aiLoaded, gen).advice == ChatAdvice
    ensures !aiLoaded ==> ChatEndpoint(req, aiLoaded, gen) == OfflineReply
  {
  }

  /**
   * Only the last four history entries matter: entries before them never
   * change the answer.
   */
  lemma {:induction false} OlderHistoryIgnored(message: string, older: seq<string>, history: seq<string>, aiLoaded: bool, gen: Generator)
    requires |history| >= 4
    ensures ChatEndpoint(ChatRequest(message, older + history), aiLoaded, gen) == ChatEndpoint(ChatRequest(message, history), aiLoaded, gen)
  {
    var h := older + history;
    RecentOfLonger(older, history);
    assert ConversationText(h) == ConversationText(history);
  }

  /** Prepending entries to a history of at least four leaves its last four unchanged. */
  lemma RecentOfLonger(older: seq<string>, history: seq<string>)
    requires |history| >= 4
    ensures RecentHistory(older + history) == RecentHistory(history)
  {
    var h := older + history;
    assert h[|h| - 4..] == history[|history| - 4..];
  }

  /**
   * The conversation text has one line per recent entry: when no entry holds
   * a newline, splitting it on newlines gives back the last (at most four) entries.
   */
  lemma ConversationLines(history: seq<string>)
    requires |history| > 0
    requires forall h :: h in history ==> '\n' !in h
    ensures Split(ConversationText(history), "\n") == RecentHistory(history)
  {
    var recent := RecentHistory(history);
    forall h | h in recent ensures "\n"[0] !in h {
      assert h in history;
    }
    SplitJoin("\n", recent);
  }
}
