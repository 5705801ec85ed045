/**
 * The web front door: the `/chat` handler reads the `message` field of the
 * JSON body, prefixes the fixed omnibot preamble, hands the prompt to the
 * agent wrapper's `invoke` and turns the agent's response (or the exception
 * raised on the way) into the JSON reply body.
 */
module FrontDoor {
  import opened Wrappers
  import opened Text
  import opened Messages
  import opened AgentClient

  const BotName := "omnibot"
  const Preamble := "You are " + BotName + " a personal assistant built by waleed abbas. Now cater this query: "
  const InvalidFormatText := "Invalid response format from MCP wrapper"
  const NoReplyText := "No AIMessage returned. Try rephrasing your request."

  /**
   * The request body as `request.json()` sees it: an object with or without a
   * string `message` field, some other JSON value, or text that is not JSON.
   */
  datatype RequestBody = JsonObject(message: Option<string>) | JsonOther(typeName: string) | NotJson(error: string)

  /** The handler's JSON reply: `{"response": ...}` or `{"error": ...}`. */
  datatype ChatBody = Reply(response: string) | ErrorBody(error: string)

  /** A reply body, or an exception that escapes the handler (an HTTP 500 from the framework). */
  datatype ChatOutcome = Answered(body: ChatBody) | Unhandled(error: string)

  /** `data.get("message", "")`: raises on a body that is not JSON or not an object. */
  function RequestMessage(body: RequestBody): (r: Result<string, string>)
    ensures r.Success? <==> body.JsonObject?
    ensures body.JsonObject? && body.message.None? ==> r == Success("")
    ensures body.JsonObject? && body.message.Some? ==> r == Success(body.message.value)
  {
    match body
    case JsonObject(m) => Success(m.GetOr(""))
    case JsonOther(t) => Failure("'" + t + "' object has no attribute 'get'")
    case NotJson(e) => Failure(e)
  }

  /** The text sent to the agent: the fixed preamble followed by the user's message. */
  function Prompt(message: string): (p: string)
    ensures |p| == |Preamble| + |message|
    ensures p[..|Preamble|] == Preamble && p[|Preamble|..] == message
  {
    Preamble + message
  }

  /** Different messages give different prompts. */
  lemma PromptInjective(a: string, b: string)
    requires Prompt(a) == Prompt(b)
    ensures a == b
  {
    assert a == Prompt(a)[|Preamble|..];
  }

  /** A prompt is never blank, whatever the message: its first character is not whitespace. */
  lemma PromptNotBlank(message: string)
    ensures !IsBlank(Prompt(message))
  {
    var p := Prompt(message);
    assert p[0] == Preamble[0] == 'Y';
    BlankIffAllSpace(p);
  }

  /** A response whose `messages` the handler's selection raises on: one of them, of any role, has list content. */
  predicate ReplyRaises(outcome: Result<Response, string>) {
    outcome.Success? && outcome.value.Response? && SomeRaises(outcome.value.messages.GetOr([]), IsListContent)
  }

  /**
   * The reply body for what `invoke` did: an exception becomes `{"error": str(e)}`;
   * a response without `.get` becomes the invalid-format reply; a message with
   * list content makes the selection raise, which becomes an error body too;
   * otherwise the reply is the content of the last message, of any role, with
   * non-blank content.
   */
  function ChatReply(outcome: Result<Response, string>): (body: ChatBody)
    ensures outcome.Failure? ==> body == ErrorBody(outcome.error)
    ensures ReplyRaises(outcome) ==> body == ErrorBody(ListStripText)
    ensures outcome.Success? ==> (body.Reply? <==> !ReplyRaises(outcome))
    ensures outcome.Success? && outcome.value.NonMapping? ==> body == Reply(InvalidFormatText)
  {
    match outcome
    case Failure(e) => ErrorBody(e)
    case Success(NonMapping(_)) => Reply(InvalidFormatText)
    case Success(Response(ms)) =>
      if SomeRaises(ms.GetOr([]), IsListContent) then ErrorBody(ListStripText)
      else
        match LastKept(ms.GetOr([]), HasText)
        case None => Reply(NoReplyText)
        case Some(m) => Reply(m.content)
  }

  /**
   * For a response without list content, the reply is the fallback text when
   * no message has non-blank content, and otherwise the content of the last
   * message that has.
   */
  lemma ChatReplySelection(ms: Option<seq<Message>>)
    ensures var xs := ms.GetOr([]);
            !SomeRaises(xs, IsListContent) && (forall i :: 0 <= i < |xs| ==> !HasText(xs[i])) ==>
              ChatReply(Success(Response(ms))) == Reply(NoReplyText)
    ensures var xs := ms.GetOr([]);
            !SomeRaises(xs, IsListContent) && (exists i :: 0 <= i < |xs| && HasText(xs[i])) ==>
              exists i :: 0 <= i < |xs| && HasText(xs[i]) && ChatReply(Success(Response(ms))) == Reply(xs[i].content)
                          && forall j :: i < j < |xs| ==> !HasText(xs[j])
  {
    LastKeptIsLastMatch(ms.GetOr([]), HasText);
  }

  /**
   * One request: the wrapper's history afterwards and the handler's outcome.
   * Only a body that is not a JSON object escapes the handler; the history
   * keeps what it held and grows by at most a user turn and an answer.
   */
  function ChatStep(agent: Option<Agent>, history: seq<Message>, body: RequestBody,
                    run: (seq<Tool>, seq<Message>) -> AgentResult): (r: (seq<Message>, ChatOutcome))
    ensures r.1.Unhandled? <==> !body.JsonObject?
    ensures |history| <= |r.0| <= |history| + 2 && r.0[..|history|] == history
    ensures !body.JsonObject? ==> r.0 == history
    ensures body.JsonObject? && agent.Some? ==>
              var a := run(agent.value.tools, history + [Message(Human, Prompt(RequestMessage(body).value))]);
              (a.AgentFailed? ==> r.1 == Answered(ChatReply(Failure(a.error))))
              && (a.Replied? && a.response.Response? && !SomeRaises(a.response.messages.GetOr([]), AIListContent) ==>
                    r.1 == Answered(ChatReply(Success(a.response))))
  {
    match RequestMessage(body)
    case Failure(e) => (history, Unhandled(e))
    case Success(m) =>
      var st := InvokeStep(agent, history, Prompt(m), run);
      (st.history, Answered(ChatReply(st.outcome)))
  }

  /**
   * A body that is not a JSON object fails the handler with the error from
   * reading the message, whatever the agent and however it would answer:
   * the agent is never consulted.
   */
  lemma OnlyBodyParsingEscapes(agent: Option<Agent>, other: Option<Agent>, history: seq<Message>,
                               body: RequestBody,
                               run: (seq<Tool>, seq<Message>) -> AgentResult,
                               otherRun: (seq<Tool>, seq<Message>) -> AgentResult)
    requires !body.JsonObject?
    ensures RequestMessage(body).Failure?
    ensures ChatStep(agent, history, body, run).1 == Unhandled(RequestMessage(body).error)
    ensures ChatStep(agent, history, body, run) == ChatStep(other, history, body, otherRun)
  {
  }

  /** Before the agent is initialised, every well-formed request gets the not-initialised error body. */
  lemma ChatBeforeInitialize(history: seq<Message>, body: RequestBody,
                             run: (seq<Tool>, seq<Message>) -> AgentResult)
    requires body.JsonObject?
    ensures ChatStep(None, history, body, run) == (history, Answered(ErrorBody(NotInitializedText)))
  {
  }

  /**
   * The invalid-format reply is never produced through `invoke`: a response
   * without `.get` already makes `invoke` raise, so the handler answers with
   * that `AttributeError`'s text instead.
   */
  lemma InvalidFormatUnreachable(agent: Option<Agent>, history: seq<Message>, body: RequestBody,
                                 run: (seq<Tool>, seq<Message>) -> AgentResult)
    ensures body.JsonObject? ==>
              var st := InvokeStep(agent, history, Prompt(RequestMessage(body).value), run);
              st.outcome.Success? ==> st.outcome.value.Response?
    ensures body.JsonObject? && agent.Some? ==>
              var prompt := Prompt(RequestMessage(body).value);
              forall t :: run(agent.value.tools, history + [Message(Human, prompt)]) == Replied(NonMapping(t)) ==>
                ChatStep(agent, history, body, run).1 == Answered(ErrorBody(NoGetText(t)))
  {
  }

  /** Dropping a trailing message that is not kept leaves the selection unchanged. */
  lemma LastKeptSkipsUnkept(xs: seq<Message>, x: Message, keep: Message -> bool)
    requires !keep(x)
    ensures LastKept(xs + [x], keep) == LastKept(xs, keep)
  {
    assert (xs + [x])[..|xs|] == xs;
  }

  /** A trailing kept message is the one selected. */
  lemma LastKeptTakesLast(xs: seq<Message>, x: Message, keep: Message -> bool)
    requires keep(x)
    ensures LastKept(xs + [x], keep) == Some(x)
  {
    assert (xs + [x])[..|xs|] == xs;
  }

  /**
   * The selection ignores the role, so the user's own prompt can come back
   * as the reply: when the agent's response is the conversation followed by
   * an AI message with blank content, the reply is the prompt itself, while
   * `invoke` records no new answer (it appends again the last answer already
   * in the history, if there is one).
   */
  lemma ChatEchoesPrompt(agent: Agent, history: seq<Message>, message: string, blank: string,
                         run: (seq<Tool>, seq<Message>) -> AgentResult)
    requires IsBlank(blank)
    requires var withUser := history + [Message(Human, Prompt(message))];
             run(agent.tools, withUser) == Replied(Response(Some(withUser + [Message(AI, blank)])))
    requires WellFormedHistory(history)
    ensures ChatStep(Some(agent), history, JsonObject(Some(message)), run)
            == (history + [Message(Human, Prompt(message))] + AssistantTurn(history), Answered(Reply(Prompt(message))))
  {
    var user := Message(Human, Prompt(message));
    var withUser := history + [user];
    var last := Message(AI, blank);
    var ms := withUser + [last];
    WellFormedHasNoListContent(history);
    NoListContentAppend(history, [user, last]);
    assert ms == history + [user, last];
    PromptNotBlank(message);
    LastKeptSkipsUnkept(withUser, last, HasText);
    LastKeptTakesLast(history, user, HasText);
    assert LastKept(ms, HasText) == Some(user);
    LastKeptSkipsUnkept(withUser, last, IsAssistantText);
    LastKeptSkipsUnkept(history, user, IsAssistantText);
    assert AssistantTurn(ms) == AssistantTurn(history);
    var st := InvokeStep(Some(agent), history, Prompt(message), run);
    assert st == Step(withUser + AssistantTurn(history), Success(Response(Some(ms))));
    assert ChatReply(st.outcome) == Reply(Prompt(message));
  }

  /** When the last message with text is an AI message, it is also the last non-blank AI message. */
  lemma LastTextIsLastAnswer(ms: seq<Message>, m: Message)
    requires LastKept(ms, HasText) == Some(m) && m.role == AI
    ensures LastKept(ms, IsAssistantText) == Some(m)
  {
    LastKeptAtIndex(ms, HasText);
    LastKeptAtIndex(ms, IsAssistantText);
    var k := LastKeptIndex(ms, HasText);
    var k' := LastKeptIndex(ms, IsAssistantText);
    assert IsAssistantText(ms[k]);
    assert k' == k;
  }

  /**
   * When the last message with text in a response is an AI message, the
   * reply is exactly the assistant entry `invoke` appended to the history.
   */
  lemma ChatAgreesWithTranscript(agent: Agent, history: seq<Message>, message: string,
                                 ms: Option<seq<Message>>, m: Message,
                                 run: (seq<Tool>, seq<Message>) -> AgentResult)
    requires run(agent.tools, history + [Message(Human, Prompt(message))]) == Replied(Response(ms))
    requires LastKept(ms.GetOr([]), HasText) == Some(m) && m.role == AI
    requires !SomeRaises(ms.GetOr([]), IsListContent)
    ensures ChatStep(Some(agent), history, JsonObject(Some(message)), run)
            == (history + [Message(Human, Prompt(message)), m], Answered(Reply(m.content)))
  {
    LastTextIsLastAnswer(ms.GetOr([]), m);
    NoListContentAppend(ms.GetOr([]), []);
    assert ms.GetOr([]) + [] == ms.GetOr([]);
    var withUser := history + [Message(Human, Prompt(message))];
    assert AssistantTurn(ms.GetOr([])) == [m];
    assert InvokeStep(Some(agent), history, Prompt(message), run) == Step(withUser + [m], Success(Response(ms)));
    assert withUser + [m] == history + [Message(Human, Prompt(message)), m];
  }

  /**
   * The two selections test list content differently: when only a message
   * of another role (a tool result, say) carries list content, `invoke`
   * succeeds and records its answer, but the handler's own selection raises
   * and the reply is the `AttributeError` body.
   */
  lemma ListContentAnsweredButNotReplied(agent: Agent, history: seq<Message>, message: string,
                                         ms: seq<Message>, run: (seq<Tool>, seq<Message>) -> AgentResult)
    requires run(agent.tools, history + [Message(Human, Prompt(message))]) == Replied(Response(Some(ms)))
    requires SomeRaises(ms, IsListContent) && !SomeRaises(ms, AIListContent)
    ensures ChatStep(Some(agent), history, JsonObject(Some(message)), run)
            == (history + [Message(Human, Prompt(message))] + AssistantTurn(ms), Answered(ErrorBody(ListStripText)))
  {
  }

  /**
   * The `/chat` handler, acting on the shared wrapper. The agent is left as it
   * was; the history and the outcome are those of `ChatStep`.
   */
  method Chat(wrapper: AgentWrapper, body: RequestBody, run: (seq<Tool>, seq<Message>) -> AgentResult)
    returns (outcome: ChatOutcome)
    requires wrapper.Valid()
    modifies wrapper
    ensures wrapper.Valid() && wrapper.agent == old(wrapper.agent)
    ensures (wrapper.chatHistory, outcome) == ChatStep(old(wrapper.agent), old(wrapper.chatHistory), body, run)
  {
    var message := RequestMessage(body);
    if message.Failure? {
      return Unhandled(message.error);
    }
    var response := wrapper.Invoke(Prompt(message.value), run);
    outcome := Answered(ChatReply(response));
  }
}
