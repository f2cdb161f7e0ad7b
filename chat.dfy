/** The records the chat client keeps: messages, conversations and the seed messages of
    a detour (a side conversation branched off selected text). Conversation and message
    ids come from a fresh-id supply (the source uses `Date.now()`), so they are numbers
    here; the first main conversation has `MainId`. */
module Chat {
  import opened Options
  import opened Text

  datatype Role = System | User | Assistant

  /** The three kinds of detour. */
  datatype Kind = Lookup | Focus | Explore

  type ConvId = nat

  /** The id of the conversation the client starts with (`'main'`). */
  const MainId: ConvId := 0

  /** A message. Only streamed assistant placeholders carry an id; `isContext` marks the
      seed holding a detour's kind and term, `isContextSeparator` a divider shown between
      seeded history and the detour's own exchange. */
  datatype Message = Message(
    role: Role,
    content: string,
    id: Option<nat>,
    isStreaming: bool,
    isContext: bool,
    isContextSeparator: bool)

  datatype Conversation = Conversation(
    id: ConvId,
    title: string,
    messages: seq<Message>,
    isMain: bool,
    parentId: Option<ConvId>,
    kind: Option<Kind>)

  function UserMessage(content: string): Message {
    Message(User, content, None, false, false, false)
  }

  /** The empty assistant message a stream writes into. */
  function Placeholder(id: nat): Message {
    Message(Assistant, "", Some(id), true, false, false)
  }

  function Separator(text: string): Message {
    Message(Assistant, text, None, false, false, true)
  }

  function KindName(kind: Kind): string {
    match kind
    case Lookup => "lookup"
    case Focus => "focus"
    case Explore => "explore"
  }

  /** How a context text starts: the kind, then the opening quote of the term. */
  function ContextHead(kind: Kind): string {
    "{\"type\":\"" + KindName(kind) + "\",\"term\":\""
  }

  lemma Framed(p: string, m: string, q: string)
    ensures |p + m + q| == |p| + |m| + |q|
    ensures (p + m + q)[..|p|] == p && (p + m + q)[|p|..|p| + |m|] == m
  {
  }

  /** `JSON.stringify({ type, term })`. The kind names need no escaping. The text starts
      with the kind, and the term reads back from what follows it. */
  function ContextContent(kind: Kind, term: string): (r: string)
    ensures |r| == |ContextHead(kind)| + |JsonEscape(term)| + 2
    ensures r[..|ContextHead(kind)|] == ContextHead(kind)
    ensures JsonUnescape(r[|ContextHead(kind)|..|r| - 2]) == term
  {
    var r := "{\"type\":\"" + KindName(kind) + "\",\"term\":" + JsonQuote(term) + "}";
    assert r == ContextHead(kind) + JsonEscape(term) + "\"}";
    Framed(ContextHead(kind), JsonEscape(term), "\"}");
    JsonEscapeRoundTrip(term);
    r
  }

  function ContextMessage(kind: Kind, term: string): Message {
    Message(System, ContextContent(kind, term), None, false, true, false)
  }

  /** The messages of a conversation the completion API sees as history, and whose
      absence makes an exchange the first one. */
  predicate Conversational(m: Message) {
    !m.isContext && !m.isContextSeparator
  }

  /** `conversations.find(c => c.id === id)`: the first conversation with that id. */
  function FindConv(convs: seq<Conversation>, id: ConvId): (r: Option<Conversation>)
    ensures r.Some? <==> exists k :: 0 <= k < |convs| && convs[k].id == id
    ensures r.Some? ==> r.value in convs && r.value.id == id
  {
    if convs == [] then None
    else if convs[0].id == id then Some(convs[0])
    else
      var r := FindConv(convs[1..], id);
      assert forall k :: 1 <= k < |convs| ==> convs[k] == convs[1..][k - 1];
      r
  }

  /** The first index holding a conversation with that id is where `FindConv` looks. */
  lemma {:induction false} FindConvFirst(convs: seq<Conversation>, id: ConvId, k: nat)
    requires k < |convs| && convs[k].id == id
    requires forall j :: 0 <= j < k ==> convs[j].id != id
    ensures FindConv(convs, id) == Some(convs[k])
  {
    if k > 0 {
      assert convs[1..][k - 1] == convs[k];
      FindConvFirst(convs[1..], id, k - 1);
    }
  }

  /** `.filter(m => !m.isContext)`. */
  function NonContext(msgs: seq<Message>): (r: seq<Message>)
    ensures |r| <= |msgs|
    ensures forall k :: 0 <= k < |r| ==> !r[k].isContext && r[k] in msgs
    ensures forall k :: 0 <= k < |msgs| && !msgs[k].isContext ==> msgs[k] in r
  {
    if msgs == [] then []
    else
      var rest := NonContext(msgs[1..]);
      assert forall m :: m in msgs[1..] ==> m in msgs;
      assert forall k :: 1 <= k < |msgs| ==> msgs[k] == msgs[1..][k - 1];
      if msgs[0].isContext then rest else [msgs[0]] + rest
  }

  /** The filter keeps the order: filtering a concatenation filters each part. */
  lemma {:induction false} NonContextAppend(a: seq<Message>, b: seq<Message>)
    ensures NonContext(a + b) == NonContext(a) + NonContext(b)
  {
    if a == [] {
      assert a + b == b;
    } else {
      assert (a + b)[0] == a[0];
      assert (a + b)[1..] == a[1..] + b;
      NonContextAppend(a[1..], b);
    }
  }

  /** `.filter(m => m.isContext)`. */
  function ContextOnly(msgs: seq<Message>): (r: seq<Message>)
    ensures |r| <= |msgs|
    ensures forall k :: 0 <= k < |r| ==> r[k].isContext && r[k] in msgs
  {
    if msgs == [] then []
    else
      var rest := ContextOnly(msgs[1..]);
      assert forall m :: m in msgs[1..] ==> m in msgs;
      if msgs[0].isContext then [msgs[0]] + rest else rest
  }

  /** `.slice(-n)`: the last `n` elements, or all of them when there are fewer. */
  function LastN<T>(s: seq<T>, n: nat): (r: seq<T>)
    ensures |r| == if |s| <= n then |s| else n
    ensures r == s[|s| - |r|..]
  {
    if |s| <= n then s else s[|s| - n..]
  }
}
