/**
 * The chat messages the agent exchanges (LangChain's HumanMessage,
 * AIMessage, ToolMessage and SystemMessage) and the "keep the matching
 * messages, then take the last one" selection both the client and the web
 * front door apply to an agent response.
 */
module Messages {
  import opened Wrappers
  import opened Text

  datatype Role = Human | AI | ToolResult | System

  /**
   * A message with its role and text content, a message whose content is a
   * list of content blocks, or an object without a `content` attribute.
   */
  datatype Message = Message(role: Role, content: string) | ListContent(role: Role) | Contentless

  /** The text of the `AttributeError` that `.strip()` raises on list content. */
  const ListStripText := "'list' object has no attribute 'strip'"

  /** A user turn: `HumanMessage(content=text)`. */
  predicate IsUserTurn(m: Message) {
    m.Message? && m.role == Human
  }

  /** `isinstance(msg, AIMessage) and msg.content.strip()`. */
  predicate IsAssistantText(m: Message) {
    m.Message? && m.role == AI && !IsBlank(m.content)
  }

  /** `hasattr(msg, "content") and getattr(msg, "content", "").strip()`: any role. */
  predicate HasText(m: Message) {
    m.Message? && !IsBlank(m.content)
  }

  /** The client's test `isinstance(msg, AIMessage) and msg.content.strip()` raises on this message. */
  predicate AIListContent(m: Message) {
    m.ListContent? && m.role == AI
  }

  /** The front door's test `getattr(msg, "content", "").strip()` raises on this message: any role. */
  predicate IsListContent(m: Message) {
    m.ListContent?
  }

  /** Some message of `ms` makes a comprehension's test raise, so the comprehension raises. */
  predicate SomeRaises(ms: seq<Message>, raises: Message -> bool) {
    exists i :: 0 <= i < |ms| && raises(ms[i])
  }

  /**
   * Messages without list content make neither test raise, and appending
   * such messages keeps it so.
   */
  lemma NoListContentAppend(xs: seq<Message>, ys: seq<Message>)
    requires !SomeRaises(xs, IsListContent) && !SomeRaises(ys, IsListContent)
    ensures !SomeRaises(xs + ys, IsListContent) && !SomeRaises(xs + ys, AIListContent)
  {
    forall i | 0 <= i < |xs + ys| ensures !IsListContent((xs + ys)[i]) {
      if i < |xs| { assert (xs + ys)[i] == xs[i]; } else { assert (xs + ys)[i] == ys[i - |xs|]; }
    }
  }

  /** `[msg for msg in ms if keep(msg)]`. */
  function Filter(ms: seq<Message>, keep: Message -> bool): (r: seq<Message>)
    ensures |r| <= |ms|
    ensures forall i :: 0 <= i < |r| ==> keep(r[i]) && r[i] in ms
  {
    if ms == [] then []
    else Filter(ms[..|ms| - 1], keep) + (if keep(ms[|ms| - 1]) then [ms[|ms| - 1]] else [])
  }

  /** The last kept message, `kept[-1] if kept else None`. */
  function LastKept(ms: seq<Message>, keep: Message -> bool): (r: Option<Message>)
    ensures r.Some? ==> keep(r.value)
  {
    var kept := Filter(ms, keep);
    if kept == [] then None else Some(kept[|kept| - 1])
  }

  /** The index of the last kept message, or -1 when none is kept. */
  function LastKeptIndex(ms: seq<Message>, keep: Message -> bool): (r: int)
    ensures -1 <= r < |ms|
    ensures r >= 0 ==> keep(ms[r])
    ensures forall j :: r < j < |ms| ==> !keep(ms[j])
  {
    if ms == [] then -1
    else if keep(ms[|ms| - 1]) then |ms| - 1
    else LastKeptIndex(ms[..|ms| - 1], keep)
  }

  /** The selection picks the message at the last kept index. */
  lemma {:induction false} LastKeptAtIndex(ms: seq<Message>, keep: Message -> bool)
    ensures var k := LastKeptIndex(ms, keep);
            LastKept(ms, keep) == if k < 0 then None else Some(ms[k])
  {
    if ms != [] && !keep(ms[|ms| - 1]) {
      var init := ms[..|ms| - 1];
      LastKeptAtIndex(init, keep);
      assert Filter(ms, keep) == Filter(init, keep);
    }
  }

  /**
   * The selection finds nothing exactly when no message is kept, and
   * otherwise finds the kept message with the greatest index.
   */
  lemma LastKeptIsLastMatch(ms: seq<Message>, keep: Message -> bool)
    ensures LastKept(ms, keep).None? <==> forall i :: 0 <= i < |ms| ==> !keep(ms[i])
    ensures LastKept(ms, keep).Some? ==>
              exists i :: 0 <= i < |ms| && ms[i] == LastKept(ms, keep).value && keep(ms[i])
                          && forall j :: i < j < |ms| ==> !keep(ms[j])
  {
    LastKeptAtIndex(ms, keep);
  }
}
