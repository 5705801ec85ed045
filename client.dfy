/**
 * The agent wrapper of the chat client: it reads the tool-server
 * configuration, collects the tools every configured server offers, builds
 * the agent once, and keeps the append-only chat history that every
 * `invoke` hands to the agent.
 *
 * Connecting to a server and running the agent are done by foreign code;
 * they are the oracles `Env.connect` and `Env.run` / the `run` parameter.
 */
module AgentClient {
  import opened Wrappers
  import opened Text
  import opened Messages

  /** A tool as loaded from a server (its argument schema is not modelled). */
  datatype Tool = Tool(name: string, description: string)

  /** One member of the `mcpServers` object: its name and its `command` and `args`, either possibly missing. */
  datatype ServerEntry = ServerEntry(name: string, command: Option<string>, args: Option<seq<string>>)

  /** The parsed configuration document; `mcpServers` keeps the document's member order. */
  datatype ConfigDocument = ConfigDocument(mcpServers: Option<seq<ServerEntry>>)

  /** Connecting to one server, handshaking and loading its tools: all of them, or an error. */
  datatype LoadOutcome = Loaded(tools: seq<Tool>) | ConnectFailed(error: string)

  /** The agent built over a fixed tool list. */
  datatype Agent = Agent(tools: seq<Tool>)

  /** What `agent.ainvoke` returns: a mapping with an optional `messages` entry, or an object without `get`. */
  datatype Response = Response(messages: Option<seq<Message>>) | NonMapping(typeName: string)

  /** One run of the agent over a history: its response, or the exception it raised. */
  datatype AgentResult = Replied(response: Response) | AgentFailed(error: string)

  /**
   * The environment `initialize` and `run_agent` depend on: the `config`
   * environment variable, the directory of the client script, reading and
   * parsing a configuration file, connecting to a server, and running the agent.
   */
  datatype Env = Env(
    configVar: Option<string>,
    scriptDir: string,
    readConfig: string -> Option<ConfigDocument>,
    connect: ServerEntry -> LoadOutcome,
    run: (seq<Tool>, seq<Message>) -> AgentResult)

  /** Why `initialize` stops: an unreadable configuration (the process exits), no servers, or no tools. */
  datatype InitError = ConfigUnreadable(path: string) | NoServers | NoTools

  const DefaultConfigName := "config.json"
  const NotInitializedText := "Agent not initialized. Call initialize() first."
  const ReadyBanner := "\nMCP Client Ready! Type 'quit' to exit."
  const NoAnswerText := "\n\U{26A0}\U{FE0F} No AIMessage found."
  const QuitWord := "quit"

  /** `os.path.join(dir, name)` on POSIX for a relative `name`. */
  function JoinPath(dir: string, name: string): string {
    if dir == [] || dir[|dir| - 1] == '/' then dir + name else dir + "/" + name
  }

  /**
   * The configuration path: the `config` environment variable when it is set
   * and non-empty, otherwise `config.json` in the script's directory.
   */
  function ConfigPath(configVar: Option<string>, scriptDir: string): (path: string)
    ensures configVar.Some? && configVar.value != [] ==> path == configVar.value
    ensures configVar.None? || configVar.value == [] ==>
              |scriptDir| + |DefaultConfigName| <= |path| <= |scriptDir| + 1 + |DefaultConfigName|
              && path[..|scriptDir|] == scriptDir
              && path[|path| - |DefaultConfigName|..] == DefaultConfigName
              && (scriptDir != [] ==> path[|path| - |DefaultConfigName| - 1] == '/')
    ensures (configVar.None? || configVar.value == []) && scriptDir != [] && scriptDir[|scriptDir| - 1] == '/' ==>
              |path| == |scriptDir| + |DefaultConfigName|
  {
    if configVar.Some? && configVar.value != [] then configVar.value
    else JoinPath(scriptDir, DefaultConfigName)
  }

  /**
   * The tools one server adds to the aggregate: all the tools it loads, or
   * none when its entry lacks `command` or `args` or the connection fails.
   */
  function ServerTools(entry: ServerEntry, connect: ServerEntry -> LoadOutcome): seq<Tool> {
    if entry.command.None? || entry.args.None? then []
    else match connect(entry)
      case Loaded(tools) => tools
      case ConnectFailed(_) => []
  }

  /** The aggregate tool list: each server's tools, in configuration order. */
  function AggregateTools(servers: seq<ServerEntry>, connect: ServerEntry -> LoadOutcome): seq<Tool> {
    if servers == [] then []
    else AggregateTools(servers[..|servers| - 1], connect) + ServerTools(servers[|servers| - 1], connect)
  }

  /** The aggregate over two runs of servers is the two aggregates one after the other. */
  lemma {:induction false} AggregateAppend(a: seq<ServerEntry>, b: seq<ServerEntry>, connect: ServerEntry -> LoadOutcome)
    ensures AggregateTools(a + b, connect) == AggregateTools(a, connect) + AggregateTools(b, connect)
    decreases |b|
  {
    if b != [] {
      var b' := b[..|b| - 1];
      AggregateAppend(a, b', connect);
      var last := b[|b| - 1];
      assert b == b' + [last];
      assert a + b == (a + b') + [last];
      assert AggregateTools(a + b, connect) == AggregateTools(a + b', connect) + ServerTools(last, connect);
      assert AggregateTools(b, connect) == AggregateTools(b', connect) + ServerTools(last, connect);
    } else {
      assert a + b == a;
    }
  }

  /** A server whose loading fails adds nothing, and the servers after it are still loaded. */
  lemma FailingServerAddsNothing(before: seq<ServerEntry>, entry: ServerEntry, after: seq<ServerEntry>,
                                 connect: ServerEntry -> LoadOutcome)
    requires entry.command.None? || entry.args.None? || connect(entry).ConnectFailed?
    ensures AggregateTools(before + [entry] + after, connect)
            == AggregateTools(before, connect) + AggregateTools(after, connect)
  {
    AggregateAppend(before + [entry], after, connect);
    assert (before + [entry])[..|before|] == before;
    assert AggregateTools(before + [entry], connect) == AggregateTools(before, connect) + ServerTools(entry, connect);
    assert ServerTools(entry, connect) == [];
  }

  /** A server that loads adds every one of its tools, in its own order, at its place in the configuration. */
  lemma LoadedServerAddsAllItsTools(before: seq<ServerEntry>, entry: ServerEntry, after: seq<ServerEntry>,
                                    connect: ServerEntry -> LoadOutcome)
    requires entry.command.Some? && entry.args.Some? && connect(entry).Loaded?
    ensures AggregateTools(before + [entry] + after, connect)
            == AggregateTools(before, connect) + connect(entry).tools + AggregateTools(after, connect)
  {
    AggregateAppend(before + [entry], after, connect);
    assert (before + [entry])[..|before|] == before;
    assert AggregateTools(before + [entry], connect) == AggregateTools(before, connect) + ServerTools(entry, connect);
    assert ServerTools(entry, connect) == connect(entry).tools;
  }

  /** A tool is in the aggregate exactly when some configured server contributed it. */
  lemma {:induction false} AggregateMembership(servers: seq<ServerEntry>, connect: ServerEntry -> LoadOutcome, t: Tool)
    ensures t in AggregateTools(servers, connect)
            <==> exists i :: 0 <= i < |servers| && t in ServerTools(servers[i], connect)
  {
    if servers != [] {
      var init := servers[..|servers| - 1];
      AggregateMembership(init, connect, t);
      if t in ServerTools(servers[|servers| - 1], connect) {
        assert t in AggregateTools(servers, connect);
      }
      if exists i :: 0 <= i < |init| && t in ServerTools(init[i], connect) {
        var i :| 0 <= i < |init| && t in ServerTools(init[i], connect);
        assert servers[i] == init[i];
      }
    }
  }

  /** The aggregate is empty exactly when no server contributed a tool. */
  lemma {:induction false} AggregateEmptyIff(servers: seq<ServerEntry>, connect: ServerEntry -> LoadOutcome)
    ensures AggregateTools(servers, connect) == []
            <==> forall i :: 0 <= i < |servers| ==> ServerTools(servers[i], connect) == []
  {
    if servers != [] {
      var init := servers[..|servers| - 1];
      AggregateEmptyIff(init, connect);
      assert forall i :: 0 <= i < |init| ==> servers[i] == init[i];
    }
  }

  /** The loop of `initialize` that extends the tool list server by server. */
  method CollectTools(servers: seq<ServerEntry>, connect: ServerEntry -> LoadOutcome) returns (tools: seq<Tool>)
    ensures tools == AggregateTools(servers, connect)
  {
    tools := [];
    for i := 0 to |servers|
      invariant tools == AggregateTools(servers[..i], connect)
    {
      var entry := servers[i];
      if entry.command.Some? && entry.args.Some? {
        match connect(entry) {
          case Loaded(serverTools) =>
            tools := tools + serverTools;
          case ConnectFailed(_) =>
        }
      }
      assert servers[..i + 1][..i] == servers[..i];
    }
    assert servers[..|servers|] == servers;
  }

  /**
   * What `initialize` arrives at: the tools the agent is built over, or why it
   * stops. An unreadable file is reported with the path that was tried, and
   * an agent is never built over an empty tool list.
   */
  function LoadTools(env: Env): (r: Result<seq<Tool>, InitError>)
    ensures env.readConfig(ConfigPath(env.configVar, env.scriptDir)).None? <==>
              r == Failure(ConfigUnreadable(ConfigPath(env.configVar, env.scriptDir)))
    ensures r.Success? ==> r.value != []
    ensures r.Success? ==> forall t :: t in r.value ==>
              exists e :: e in env.readConfig(ConfigPath(env.configVar, env.scriptDir)).value.mcpServers.GetOr([])
                          && t in ServerTools(e, env.connect)
  {
    var path := ConfigPath(env.configVar, env.scriptDir);
    match env.readConfig(path)
    case None => Failure(ConfigUnreadable(path))
    case Some(doc) =>
      var servers := doc.mcpServers.GetOr([]);
      if servers == [] then Failure(NoServers)
      else
        var tools := AggregateTools(servers, env.connect);
        assert forall t :: t in tools ==> exists e :: e in servers && t in ServerTools(e, env.connect) by {
          forall t | t in tools ensures exists e :: e in servers && t in ServerTools(e, env.connect) {
            AggregateMembership(servers, env.connect, t);
          }
        }
        if tools == [] then Failure(NoTools) else Success(tools)
  }

  /**
   * A configuration without servers is refused whatever the servers would
   * do: no connection is consulted.
   */
  lemma NoServersRefusedBeforeConnecting(env: Env, other: ServerEntry -> LoadOutcome)
    requires env.readConfig(ConfigPath(env.configVar, env.scriptDir)).Some?
    requires env.readConfig(ConfigPath(env.configVar, env.scriptDir)).value.mcpServers.GetOr([]) == []
    ensures LoadTools(env) == Failure(NoServers)
    ensures LoadTools(env.(connect := other)) == Failure(NoServers)
  {
  }

  /**
   * Initialisation succeeds exactly when the configuration is read, lists
   * servers, and at least one of them contributes a tool; the agent is then
   * built over the non-empty aggregate.
   */
  lemma LoadToolsSucceedsIff(env: Env)
    ensures LoadTools(env).Success? <==>
              var doc := env.readConfig(ConfigPath(env.configVar, env.scriptDir));
              doc.Some? &&
              var servers := doc.value.mcpServers.GetOr([]);
              exists i :: 0 <= i < |servers| && ServerTools(servers[i], env.connect) != []
    ensures LoadTools(env).Success? ==> LoadTools(env).value != []
  {
    var doc := env.readConfig(ConfigPath(env.configVar, env.scriptDir));
    if doc.Some? {
      AggregateEmptyIff(doc.value.mcpServers.GetOr([]), env.connect);
    }
  }

  /** The history after and the result of one `invoke`. */
  datatype Step = Step(history: seq<Message>, outcome: Result<Response, string>)

  /** The text of the `AttributeError` raised by `.get` on an object without it. */
  function NoGetText(typeName: string): string {
    "'" + typeName + "' object has no attribute 'get'"
  }

  /** The assistant entry `invoke` appends: the last AI message with non-blank content, if any. */
  function AssistantTurn(messages: seq<Message>): seq<Message> {
    match LastKept(messages, IsAssistantText)
    case None => []
    case Some(m) => [m]
  }

  /**
   * One `invoke(userInput)`: refused without an agent; otherwise the user turn
   * is appended, the agent runs over the whole history, and the last
   * non-blank AI message of its response is appended when there is one. An
   * AI message with list content makes the selection raise. The old history
   * is always kept; a failure records at most the user turn.
   */
  function InvokeStep(agent: Option<Agent>, history: seq<Message>, userInput: string,
                      run: (seq<Tool>, seq<Message>) -> AgentResult): (r: Step)
    ensures |history| <= |r.history| <= |history| + 2 && r.history[..|history|] == history
    ensures r.outcome.Failure? ==>
              r.history == if agent.None? then history else history + [Message(Human, userInput)]
    ensures agent.Some? ==>
              var a := run(agent.value.tools, history + [Message(Human, userInput)]);
              (r.outcome.Success? <==> a.Replied? && a.response.Response?
                                       && !SomeRaises(a.response.messages.GetOr([]), AIListContent))
    ensures agent.Some? && r.outcome.Success? ==>
              r.outcome == Success(run(agent.value.tools, history + [Message(Human, userInput)]).response)
  {
    if agent.None? then Step(history, Failure(NotInitializedText))
    else
      var withUser := history + [Message(Human, userInput)];
      match run(agent.value.tools, withUser)
      case AgentFailed(e) => Step(withUser, Failure(e))
      case Replied(NonMapping(t)) => Step(withUser, Failure(NoGetText(t)))
      case Replied(Response(ms)) =>
        if SomeRaises(ms.GetOr([]), AIListContent) then Step(withUser, Failure(ListStripText))
        else
          assert (withUser + AssistantTurn(ms.GetOr([])))[..|history|] == history;
          Step(withUser + AssistantTurn(ms.GetOr([])), Success(Response(ms)))
  }

  /** Without an agent, `invoke` fails and the history is left as it was. */
  lemma InvokeRefusedWithoutAgent(history: seq<Message>, userInput: string,
                                  run: (seq<Tool>, seq<Message>) -> AgentResult)
    ensures InvokeStep(None, history, userInput, run) == Step(history, Failure(NotInitializedText))
  {
  }

  /**
   * With an agent, `invoke` keeps the old history as a prefix and appends the
   * user turn first; it appends one more entry only on success, and that entry
   * is the last non-blank AI message of the agent's response, which is what
   * `invoke` returns.
   */
  lemma InvokeExtendsHistory(agent: Agent, history: seq<Message>, userInput: string,
                             run: (seq<Tool>, seq<Message>) -> AgentResult)
    ensures var st := InvokeStep(Some(agent), history, userInput, run);
            var a := run(agent.tools, history + [Message(Human, userInput)]);
            |history| + 1 <= |st.history| <= |history| + 2
            && st.history[..|history|] == history
            && st.history[|history|] == Message(Human, userInput)
            && (|st.history| == |history| + 2 ==>
                  a.Replied? && a.response.Response? && st.outcome == Success(a.response)
                  && var ms := a.response.messages.GetOr([]);
                  exists i :: 0 <= i < |ms| && ms[i] == st.history[|history| + 1]
                              && IsAssistantText(ms[i])
                              && forall j :: i < j < |ms| ==> !IsAssistantText(ms[j]))
  {
    var st := InvokeStep(Some(agent), history, userInput, run);
    if |st.history| == |history| + 2 {
      LastKeptIsLastMatch(st.outcome.value.messages.GetOr([]), IsAssistantText);
    }
  }

  /** On success `invoke` adds an assistant entry exactly when the agent's response holds a non-blank AI message. */
  lemma InvokeAddsAnswerIff(agent: Agent, history: seq<Message>, userInput: string,
                            run: (seq<Tool>, seq<Message>) -> AgentResult)
    requires InvokeStep(Some(agent), history, userInput, run).outcome.Success?
    ensures var st := InvokeStep(Some(agent), history, userInput, run);
            var a := run(agent.tools, history + [Message(Human, userInput)]);
            a.Replied? && a.response.Response?
            && var ms := a.response.messages.GetOr([]);
            |st.history| == |history| + 2
            <==> exists i :: 0 <= i < |ms| && IsAssistantText(ms[i])
  {
    var st := InvokeStep(Some(agent), history, userInput, run);
    LastKeptIsLastMatch(st.outcome.value.messages.GetOr([]), IsAssistantText);
  }

  /** Entry `i` of `h` is a user turn, or a non-blank AI message right after a user turn. */
  ghost predicate WellPlaced(h: seq<Message>, i: int)
    requires 0 <= i < |h|
  {
    IsUserTurn(h[i]) || (IsAssistantText(h[i]) && 0 < i && IsUserTurn(h[i - 1]))
  }

  /**
   * The shape of a history built by `invoke`: user turns, each followed by at
   * most one non-blank AI message.
   */
  ghost predicate WellFormedHistory(h: seq<Message>) {
    forall i :: 0 <= i < |h| ==> WellPlaced(h, i)
  }

  /** A well-formed history holds text messages only: no list content. */
  lemma WellFormedHasNoListContent(h: seq<Message>)
    requires WellFormedHistory(h)
    ensures !SomeRaises(h, IsListContent)
  {
    forall i | 0 <= i < |h| ensures !IsListContent(h[i]) {
      assert WellPlaced(h, i);
    }
  }

  /** Appending a user turn, or an AI answer right after a user turn, keeps a history well formed. */
  lemma WellFormedAppend(h: seq<Message>, m: Message)
    requires WellFormedHistory(h)
    requires IsUserTurn(m) || (IsAssistantText(m) && h != [] && IsUserTurn(h[|h| - 1]))
    ensures WellFormedHistory(h + [m])
  {
    var h' := h + [m];
    forall i | 0 <= i < |h'| ensures WellPlaced(h', i) {
      if i < |h| {
        assert WellPlaced(h, i);
        assert h'[i] == h[i];
        if 0 < i { assert h'[i - 1] == h[i - 1]; }
      }
    }
  }

  /** `invoke` keeps a well-formed history well formed. */
  lemma InvokeKeepsHistoryWellFormed(agent: Option<Agent>, history: seq<Message>, userInput: string,
                                     run: (seq<Tool>, seq<Message>) -> AgentResult)
    requires WellFormedHistory(history)
    ensures WellFormedHistory(InvokeStep(agent, history, userInput, run).history)
  {
    var st := InvokeStep(agent, history, userInput, run);
    if agent.Some? {
      var withUser := history + [Message(Human, userInput)];
      WellFormedAppend(history, Message(Human, userInput));
      if |st.history| == |withUser| + 1 {
        var ms := st.outcome.value.messages.GetOr([]);
        assert st.history == withUser + AssistantTurn(ms);
        WellFormedAppend(withUser, st.history[|withUser|]);
        assert st.history == withUser + [st.history[|withUser|]];
      } else {
        assert st.history == withUser;
      }
    }
  }

  /**
   * A line that stops the interactive loop: `quit` in any letter case,
   * surrounding whitespace ignored. Such a line strips to four characters.
   */
  predicate IsQuit(line: string): (b: bool)
    ensures Strip(line) == QuitWord ==> b
    ensures b ==> |Strip(line)| == |QuitWord|
  {
    assert Lower(QuitWord) == QuitWord by {
      assert QuitWord == ['q', 'u', 'i', 't'];
    }
    Lower(Strip(line)) == QuitWord
  }

  /** The index of the first quitting line, or the number of lines when none quits. */
  function FirstQuit(lines: seq<string>): (k: nat)
    ensures k <= |lines|
    ensures forall j :: 0 <= j < k ==> !IsQuit(lines[j])
    ensures k < |lines| ==> IsQuit(lines[k])
  {
    if lines == [] then 0
    else if IsQuit(lines[0]) then 0
    else 1 + FirstQuit(lines[1..])
  }

  /** The queries the interactive loop sends: the stripped lines before the first quitting one. */
  function SessionQueries(lines: seq<string>): (queries: seq<string>)
    ensures |queries| == FirstQuit(lines)
  {
    StripAll(lines[..FirstQuit(lines)])
  }

  /** The line printed for an exception caught in the interactive loop. */
  function ErrorLine(e: string): (r: string)
    ensures |r| > 0 && r[0] == ' '
  {
    " Error: " + e
  }

  /** A response the loop can print an answer for: a mapping with `messages`, none of whose AI messages has list content. */
  predicate Answerable(outcome: Result<Response, string>) {
    outcome.Success? && outcome.value.Response? && outcome.value.messages.Some?
    && !SomeRaises(outcome.value.messages.value, AIListContent)
  }

  /**
   * What the interactive loop prints after one query: an answer (or the
   * no-answer warning) on a new line, or a caught exception as an error line.
   */
  function Display(outcome: Result<Response, string>): (r: string)
    ensures outcome.Failure? ==> r == ErrorLine(outcome.error)
    ensures outcome.Success? && outcome.value.NonMapping? ==>
              r == ErrorLine("'" + outcome.value.typeName + "' object is not subscriptable")
    ensures outcome.Success? && outcome.value.Response? && outcome.value.messages.None? ==> r == ErrorLine("'messages'")
    ensures |r| > 0 && (r[0] == '\n' <==> Answerable(outcome))
  {
    match outcome
    case Failure(e) => ErrorLine(e)
    case Success(NonMapping(t)) => ErrorLine("'" + t + "' object is not subscriptable")
    case Success(Response(None)) => ErrorLine("'messages'")
    case Success(Response(Some(ms))) =>
      if SomeRaises(ms, AIListContent) then ErrorLine(ListStripText)
      else
        match LastKept(ms, IsAssistantText)
        case Some(m) => "\n" + m.content
        case None => assert NoAnswerText[0] == '\n'; NoAnswerText
  }

  /**
   * For a printable response, the warning is printed when no AI message has
   * non-blank content, and otherwise the content of the last one that has.
   */
  lemma DisplayShowsLastAnswer(ms: seq<Message>)
    requires !SomeRaises(ms, AIListContent)
    ensures (forall i :: 0 <= i < |ms| ==> !IsAssistantText(ms[i])) ==> Display(Success(Response(Some(ms)))) == NoAnswerText
    ensures (exists i :: 0 <= i < |ms| && IsAssistantText(ms[i])) ==>
              exists i :: 0 <= i < |ms| && IsAssistantText(ms[i]) && Display(Success(Response(Some(ms)))) == "\n" + ms[i].content
                          && forall j :: i < j < |ms| ==> !IsAssistantText(ms[j])
  {
    LastKeptIsLastMatch(ms, IsAssistantText);
  }

  /** The history and the printed answers after the loop has sent `queries`, in order, to `invoke`. */
  function Session(agent: Agent, history: seq<Message>, queries: seq<string>,
                   run: (seq<Tool>, seq<Message>) -> AgentResult): (seq<Message>, seq<string>)
  {
    if queries == [] then (history, [])
    else
      var (h, printed) := Session(agent, history, queries[..|queries| - 1], run);
      var st := InvokeStep(Some(agent), h, queries[|queries| - 1], run);
      (st.history, printed + [Display(st.outcome)])
  }

  /** Every query of a session is answered by exactly one printed line, and the history only grows. */
  lemma {:induction false} SessionAnswersEveryQuery(agent: Agent, history: seq<Message>, queries: seq<string>,
                                                    run: (seq<Tool>, seq<Message>) -> AgentResult)
    ensures |Session(agent, history, queries, run).1| == |queries|
    ensures |history| + |queries| <= |Session(agent, history, queries, run).0| <= |history| + 2 * |queries|
    ensures Session(agent, history, queries, run).0[..|history|] == history
  {
    if queries != [] {
      var init := queries[..|queries| - 1];
      SessionAnswersEveryQuery(agent, history, init, run);
      var h := Session(agent, history, init, run).0;
      InvokeExtendsHistory(agent, h, queries[|queries| - 1], run);
      var h' := InvokeStep(Some(agent), h, queries[|queries| - 1], run).history;
      assert h'[..|history|] == h[..|history|];
    }
  }

  /** Sending one more line to the loop runs one more `invoke` on the history so far. */
  lemma SessionExtends(agent: Agent, history: seq<Message>, lines: seq<string>, i: nat,
                       run: (seq<Tool>, seq<Message>) -> AgentResult)
    requires i < |lines|
    ensures var before := Session(agent, history, StripAll(lines[..i]), run);
            var st := InvokeStep(Some(agent), before.0, Strip(lines[i]), run);
            Session(agent, history, StripAll(lines[..i + 1]), run) == (st.history, before.1 + [Display(st.outcome)])
  {
    var queries := StripAll(lines[..i + 1]);
    assert queries[..i] == StripAll(lines[..i]);
  }

  /** How the interactive loop ends: on `quit`, at the end of input (`EOFError`), or because initialisation failed. */
  datatype SessionEnd = Quit | EndOfInput | InitFailed(error: InitError)

  /** `MCPAgentWrapper`: the agent once built, and the chat history. */
  class AgentWrapper {
    var agent: Option<Agent>
    var chatHistory: seq<Message>

    /** An agent is only ever built over a non-empty tool list, and the history has the shape `invoke` gives it. */
    ghost predicate Valid()
      reads this
    {
      (agent.Some? ==> agent.value.tools != []) && WellFormedHistory(chatHistory)
    }

    constructor ()
      ensures Valid()
      ensures agent == None && chatHistory == []
    {
      agent := None;
      chatHistory := [];
    }

    /**
     * `initialize`: on success the agent is built over the aggregate tool
     * list; on failure the agent is left as it was. The history is untouched.
     */
    method Initialize(env: Env) returns (outcome: Result<(), InitError>)
      requires Valid()
      modifies this
      ensures Valid()
      ensures chatHistory == old(chatHistory)
      ensures LoadTools(env).Success? ==> outcome == Success(()) && agent == Some(Agent(LoadTools(env).value))
      ensures LoadTools(env).Failure? ==> outcome == Failure(LoadTools(env).error) && agent == old(agent)
    {
      var path := ConfigPath(env.configVar, env.scriptDir);
      var doc := env.readConfig(path);
      if doc.None? {
        return Failure(ConfigUnreadable(path));
      }
      var servers := doc.value.mcpServers.GetOr([]);
      if servers == [] {
        return Failure(NoServers);
      }
      var tools := CollectTools(servers, env.connect);
      if tools == [] {
        return Failure(NoTools);
      }
      agent := Some(Agent(tools));
      outcome := Success(());
    }

    /** `invoke(userInput)`, with `run` standing for the agent's own reasoning loop. */
    method Invoke(userInput: string, run: (seq<Tool>, seq<Message>) -> AgentResult)
      returns (outcome: Result<Response, string>)
      requires Valid()
      modifies this
      ensures Valid()
      ensures agent == old(agent)
      ensures old(agent).None? ==> outcome == Failure(NotInitializedText) && chatHistory == old(chatHistory)
      ensures Step(chatHistory, outcome) == InvokeStep(old(agent), old(chatHistory), userInput, run)
    {
      ghost var st := InvokeStep(agent, chatHistory, userInput, run);
      InvokeKeepsHistoryWellFormed(agent, chatHistory, userInput, run);
      if agent.None? {
        return Failure(NotInitializedText);
      }
      chatHistory := chatHistory + [Message(Human, userInput)];
      var result := run(agent.value.tools, chatHistory);
      match result {
        case AgentFailed(e) =>
          outcome := Failure(e);
        case Replied(NonMapping(t)) =>
          outcome := Failure(NoGetText(t));
        case Replied(Response(ms)) =>
          if SomeRaises(ms.GetOr([]), AIListContent) {
            outcome := Failure(ListStripText);
          } else {
            var aiMessages := Filter(ms.GetOr([]), IsAssistantText);
            if aiMessages != [] {
              chatHistory := chatHistory + [aiMessages[|aiMessages| - 1]];
            }
            assert chatHistory == st.history;
            outcome := Success(Response(ms));
          }
      }
    }

    /**
     * `run_agent`: initialises when there is no agent yet, then runs the
     * query loop, returning what it prints.
     */
    method RunAgent(env: Env, lines: seq<string>) returns (printed: seq<string>, end: SessionEnd)
      requires Valid()
      modifies this
      ensures Valid()
      ensures old(agent).None? && LoadTools(env).Failure? ==>
                end == InitFailed(LoadTools(env).error) && printed == [] && chatHistory == old(chatHistory)
                && agent == old(agent)
      ensures old(agent).Some? || LoadTools(env).Success? ==>
                agent == (if old(agent).Some? then old(agent) else Some(Agent(LoadTools(env).value)))
                && var session := Session(agent.value, old(chatHistory), SessionQueries(lines), env.run);
                chatHistory == session.0 && printed == [ReadyBanner] + session.1
                && end == (if FirstQuit(lines) < |lines| then Quit else EndOfInput)
    {
      if agent.None? {
        var init := Initialize(env);
        if init.Failure? {
          return [], InitFailed(init.error);
        }
      }
      var answers := QueryLoop(lines, env.run);
      printed := [ReadyBanner] + answers;
      end := if FirstQuit(lines) < |lines| then Quit else EndOfInput;
    }

    /**
     * The `while True` loop of `run_agent`: each stripped input line goes to
     * `invoke` until a `quit` line or the end of input; returns the printed answers.
     */
    method QueryLoop(lines: seq<string>, run: (seq<Tool>, seq<Message>) -> AgentResult)
      returns (answers: seq<string>)
      requires Valid() && agent.Some?
      modifies this
      ensures Valid() && agent == old(agent)
      ensures (chatHistory, answers) == Session(agent.value, old(chatHistory), SessionQueries(lines), run)
    {
      ghost var start := chatHistory;
      var a := agent.value;
      answers := [];
      var i := 0;
      assert StripAll(lines[..0]) == [];
      while i < |lines| && !IsQuit(lines[i])
        invariant 0 <= i <= FirstQuit(lines)
        invariant Valid() && agent == Some(a)
        invariant (chatHistory, answers) == Session(a, start, StripAll(lines[..i]), run)
      {
        SessionExtends(a, start, lines, i, run);
        var outcome := Invoke(Strip(lines[i]), run);
        answers := answers + [Display(outcome)];
        i := i + 1;
      }
      assert i == FirstQuit(lines);
      assert StripAll(lines[..i]) == SessionQueries(lines);
    }
  }
}
