/** src/store/chat.ts: the conversation, the answer mode, the loading flag
    and the focus. The clock and the id generator are arguments of the
    actions that read them. */
module Chat {
  import opened Wrappers
  import opened Types

  /** The argument of `addMessage`: a message whose id and timestamp may be
      left for the store to fill in. */
  datatype NewMessage = NewMessage(
    id: Option<string>,
    timestamp: Option<int>,
    role: Role,
    content: string,
    sources: Option<seq<SourceRef>>)

  /** The message `addMessage` appends; a supplied id or timestamp is kept,
      a missing one is taken from `freshId` or `now`. */
  function Stamped(message: NewMessage, freshId: string, now: int): (m: ChatMessage)
    ensures m.id == (if message.id.Some? then message.id.value else freshId)
    ensures m.timestamp == (if message.timestamp.Some? then message.timestamp.value else now)
    ensures m.role == message.role && m.content == message.content && m.sources == message.sources
  {
    ChatMessage(message.id.GetOr(freshId), message.role, message.content, message.sources, message.timestamp.GetOr(now))
  }

  /** The message `addAssistantMessage` appends. */
  function AssistantMessage(content: string, sources: Option<seq<SourceRef>>, freshId: string, now: int): ChatMessage {
    ChatMessage(freshId, Assistant, content, sources, now)
  }

  /** `addAssistantMessage` is `addMessage` of an assistant message with
      neither id nor timestamp. */
  lemma AssistantIsStamped(content: string, sources: Option<seq<SourceRef>>, freshId: string, now: int)
    ensures AssistantMessage(content, sources, freshId, now)
      == Stamped(NewMessage(None, None, Assistant, content, sources), freshId, now)
  {
  }

  /** Stamping a message that already has its id and timestamp keeps them,
      whatever id and clock the store has at hand. */
  lemma StampedIgnoresFreshWhenGiven(message: NewMessage, id1: string, now1: int, id2: string, now2: int)
    requires message.id.Some? && message.timestamp.Some?
    ensures Stamped(message, id1, now1) == Stamped(message, id2, now2)
  {
  }

  class ChatStore {
    var messages: seq<ChatMessage>
    var mode: Mode
    var isLoading: bool
    var focus: FocusType

    /** The initial state: no messages, rules mode, not loading, general focus. */
    constructor ()
      ensures messages == [] && mode == Rules && !isLoading && focus == General
    {
      messages := [];
      mode := Rules;
      isLoading := false;
      focus := General;
    }

    method AddMessage(message: NewMessage, freshId: string, now: int)
      modifies this
      ensures messages == old(messages) + [Stamped(message, freshId, now)]
      ensures mode == old(mode) && isLoading == old(isLoading) && focus == old(focus)
    {
      messages := messages + [Stamped(message, freshId, now)];
    }

    method AddAssistantMessage(content: string, sources: Option<seq<SourceRef>>, freshId: string, now: int)
      modifies this
      ensures messages == old(messages) + [AssistantMessage(content, sources, freshId, now)]
      ensures mode == old(mode) && isLoading == old(isLoading) && focus == old(focus)
    {
      messages := messages + [AssistantMessage(content, sources, freshId, now)];
    }

    method SetMode(m: Mode)
      modifies this
      ensures mode == m
      ensures messages == old(messages) && isLoading == old(isLoading) && focus == old(focus)
    {
      mode := m;
    }

    method SetLoading(loading: bool)
      modifies this
      ensures isLoading == loading
      ensures messages == old(messages) && mode == old(mode) && focus == old(focus)
    {
      isLoading := loading;
    }

    method SetFocus(f: FocusType)
      modifies this
      ensures focus == f
      ensures messages == old(messages) && mode == old(mode) && isLoading == old(isLoading)
    {
      focus := f;
    }

    /** Empties the conversation and keeps the mode, the flag and the focus. */
    method ClearChat()
      modifies this
      ensures messages == []
      ensures mode == old(mode) && isLoading == old(isLoading) && focus == old(focus)
    {
      messages := [];
    }
  }
}
