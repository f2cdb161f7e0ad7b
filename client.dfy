/** The chat component as an object: its state hooks are fields, and each handler
    replaces them as the matching transition of `Session` says. The server's side of a
    request (status, body, title reply) is passed in, and the completion request is the
    `Completion.GetResponse` method. */
module Client {
  import opened Options
  import opened Text
  import opened Chat
  import opened Session
  import Completion

  class ChatSession {
    var conversations: seq<Conversation>
    var inputs: map<ConvId, string>
    var activeId: ConvId
    var apiKey: string
    /** The fresh-id supply standing for `Date.now()`. */
    var clock: nat

    function Snapshot(): State
      reads this
    {
      State(conversations, inputs, activeId, apiKey, clock)
    }

    ghost predicate Valid()
      reads this
    {
      Consistent(Snapshot())
    }

    /** One main conversation, active, with an empty input, and no key yet. */
    constructor ()
      ensures Valid() && Snapshot() == Initial()
    {
      var s := Initial();
      conversations := s.conversations;
      inputs := s.inputs;
      activeId := s.activeId;
      apiKey := s.apiKey;
      clock := s.clock;
    }

    method Load(s: State)
      modifies this
      ensures Snapshot() == s
    {
      conversations := s.conversations;
      inputs := s.inputs;
      activeId := s.activeId;
      apiKey := s.apiKey;
      clock := s.clock;
    }

    /** `saveApiKey()` with the text of the key field. */
    method SaveApiKey(temp: string)
      requires Valid()
      modifies this
      ensures Valid() && Snapshot() == SaveKey(old(Snapshot()), temp)
    {
      apiKey := SaveKey(Snapshot(), temp).apiKey;
    }

    /** `handleInputChange(value)`. */
    method HandleInputChange(value: string)
      requires Valid()
      modifies this
      ensures Valid() && Snapshot() == SetInput(old(Snapshot()), value)
    {
      Load(SetInput(Snapshot(), value));
    }

    /** `clearChat()`. */
    method ClearChat()
      requires Valid()
      modifies this
      ensures Valid() && Snapshot() == Session.ClearChat(old(Snapshot()))
    {
      Load(Session.ClearChat(Snapshot()));
    }

    /** `closeDetourConversation(id)`. */
    method CloseDetourConversation(id: ConvId)
      requires Valid()
      modifies this
      ensures Valid() && Snapshot() == Close(old(Snapshot()), id)
    {
      Load(Close(Snapshot(), id));
    }

    /** `goBackToParent()`. */
    method GoBackToParent()
      requires Valid()
      modifies this
      ensures Valid() && Snapshot() == Back(old(Snapshot()))
    {
      Load(Back(Snapshot()));
    }

    /** `newChat()`. */
    method NewChat()
      requires Valid()
      modifies this
      ensures Valid() && Snapshot() == Session.NewChat(old(Snapshot()))
    {
      Load(Session.NewChat(Snapshot()));
    }

    /** One callback of a running request: the update reaches the message `msgId` of the
        conversation `convId`. */
    method Deliver(convId: ConvId, msgId: nat, u: MsgUpdate)
      requires Valid()
      modifies this
      ensures Valid() && Snapshot() == Session.Deliver(old(Snapshot()), convId, msgId, u)
    {
      conversations := Session.Deliver(Snapshot(), convId, msgId, u).conversations;
    }

    /** The request's side after `getOpenAIResponse` returns: each `onChunk` call in
        order, then the completion or the error and, for a first exchange, the title. */
    method Respond(q: Request, calls: seq<string>, outcome: Completion.Outcome, titleReply: Option<string>)
      requires Valid() && (outcome.Failed? ==> calls == [])
      modifies this
      ensures Valid()
      ensures Snapshot() == Answered(old(Snapshot()), q,
        if outcome.Failed? then Some(outcome.message) else None, calls, titleReply)
    {
      ghost var start := Snapshot();
      var i := 0;
      while i < |calls|
        invariant 0 <= i <= |calls|
        invariant Valid() && Snapshot() == StreamAll(start, q.convId, q.msgId, calls[..i])
      {
        Deliver(q.convId, q.msgId, AppendChunk(calls[i]));
        assert calls[..i + 1][..i] == calls[..i];
        i := i + 1;
      }
      assert calls[..i] == calls;
      match outcome
      case Failed(message) =>
        Deliver(q.convId, q.msgId, MarkFailed(message));
      case Completed(_) =>
        Deliver(q.convId, q.msgId, MarkDone);
        if q.retitle {
          conversations := Retitle(Snapshot(), q.convId, titleReply).conversations;
        }
    }

    /** `sendMessage()`, with the server's response: `sent` is the message list posted,
        if a request was made. */
    method SendMessage(status: nat, statusText: string, chunks: seq<string>,
                       parse: string -> Completion.Delta, titleReply: Option<string>)
      returns (sent: Option<seq<Completion.WireMessage>>)
      requires Valid()
      modifies this
      ensures Valid() && Snapshot() == Exchange(old(Snapshot()), status, statusText, chunks, parse, titleReply)
      ensures sent == if Send(old(Snapshot())).1.None? then None
        else
          var q := Send(old(Snapshot())).1.value;
          Some(Completion.Payload(Completion.PromptText(Completion.PromptFor(q.conversation)), q.conversation.messages, q.userMessage))
    {
      var (t, req) := Send(Snapshot());
      SendConsistent(Snapshot());
      Load(t);
      if req.None? {
        return None;
      }
      var q := req.value;
      TrimEmptyIffBlank(apiKey);
      var calls, outcome;
      sent, calls, outcome := Completion.GetResponse(apiKey, q.conversation, q.userMessage, status, statusText, chunks, parse);
      Respond(q, calls, outcome, titleReply);
    }

    /** `createDetourConversation(kind)` on the selection `sel`, with the server's
        response to an auto-sent lookup. */
    method CreateDetourConversation(sel: string, kind: Kind, status: nat, statusText: string,
                                    chunks: seq<string>, parse: string -> Completion.Delta)
      returns (sent: Option<seq<Completion.WireMessage>>)
      requires Valid()
      modifies this
      ensures Valid() && Snapshot() == DetourExchange(old(Snapshot()), sel, kind, status, statusText, chunks, parse)
      ensures sent == if OpenDetour(old(Snapshot()), sel, kind).1.None? then None
        else
          var q := OpenDetour(old(Snapshot()), sel, kind).1.value;
          Some(Completion.Payload(Completion.PromptText(Completion.PromptFor(q.conversation)), q.conversation.messages, q.userMessage))
    {
      var (t, req) := OpenDetour(Snapshot(), sel, kind);
      OpenDetourConsistent(Snapshot(), sel, kind);
      Load(t);
      if req.None? {
        return None;
      }
      var q := req.value;
      var calls, outcome;
      sent, calls, outcome := Completion.GetResponse(apiKey, q.conversation, q.userMessage, status, statusText, chunks, parse);
      Respond(q, calls, outcome, None);
    }
  }
}
