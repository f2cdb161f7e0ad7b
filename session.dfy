/** The chat client's session: the list of conversations, the draft input of each one,
    the active conversation, the stored API key, and the operations the user triggers on
    them (detours, sending, streaming updates, clearing, closing, going back, new chats).
    Every operation replaces whole fields with a new value computed from the old one;
    the pure helpers below compute those values. */
module Session {
  import opened Options
  import opened Text
  import opened Chat
  import Completion

  const NewChatTitle: string := "New Chat"
  const ErrorPrefix: string := "Sorry, I encountered an error: "
  const PreviousContext: string := "--- Previous Context ---"
  const LookupDivider: string := "--- Dictionary Lookup ---"
  const ExploreDivider: string := "--- Continuing Conversation ---"

  // ---------------------------------------------------------------------------------
  // Detour seeds

  function TitlePrefix(kind: Kind): string {
    match kind
    case Lookup => "Lookup: "
    case Focus => "Focus: "
    case Explore => "Explore: "
  }

  /** The selection as a title shows it: its first 25 characters, and `...` when it is
      longer than that. */
  function Abbrev(sel: string): (r: string)
    ensures |sel| <= 25 ==> r == sel
    ensures |sel| > 25 ==> |r| == 28 && r[..25] == sel[..25] && r[25..] == "..."
  {
    var shown := if |sel| <= 25 then sel else sel[..25];
    shown + (if |sel| > 25 then "..." else "")
  }

  /** A detour's title: its kind's prefix, then the abbreviated selection in quotes, so
      it is bounded whatever the selection. */
  function DetourTitle(kind: Kind, sel: string): (r: string)
    ensures |r| <= |TitlePrefix(kind)| + 30
    ensures StartsWith(r, TitlePrefix(kind))
  {
    var r := TitlePrefix(kind) + "\"" + Abbrev(sel) + "\"";
    assert r == TitlePrefix(kind) + ("\"" + Abbrev(sel) + "\"");
    assert r[..|TitlePrefix(kind)|] == TitlePrefix(kind);
    r
  }

  /** A detour's title tells its kind. */
  lemma DetourTitleKind(k1: Kind, s1: string, k2: Kind, s2: string)
    requires DetourTitle(k1, s1) == DetourTitle(k2, s2)
    ensures k1 == k2
  {
    assert DetourTitle(k1, s1)[0] == TitlePrefix(k1)[0];
    assert DetourTitle(k2, s2)[0] == TitlePrefix(k2)[0];
  }

  /** Titles are bounded, and a selection of at most 25 characters is shown whole, so
      two such selections of the same kind get the same title only if they are equal. */
  lemma DetourTitleShort(kind: Kind, s1: string, s2: string)
    requires |s1| <= 25 && |s2| <= 25
    requires DetourTitle(kind, s1) == DetourTitle(kind, s2)
    ensures s1 == s2
  {
    var p := TitlePrefix(kind) + "\"";
    assert DetourTitle(kind, s1) == p + s1 + "\"";
    assert DetourTitle(kind, s2) == p + s2 + "\"";
    Completion.SameSurroundings(p, s1, s2, "\"");
  }

  /** The text the new detour's input is filled with. */
  function DetourInput(kind: Kind, sel: string): (r: string)
    ensures kind == Lookup ==> |r| == |sel| + 18 && r[11..11 + |sel|] == sel
    ensures kind != Lookup ==> |r| == |sel| + 2 && r[1..1 + |sel|] == sel
    ensures kind == Lookup ==> r[..11] == "What does \"" && r[11 + |sel|..] == "\" mean?"
    ensures kind != Lookup ==> r[0] == '"' && r[|r| - 1] == '"'
  {
    if kind == Lookup then "What does \"" + sel + "\" mean?" else "\"" + sel + "\""
  }

  /** The last (at most) four non-context messages of the conversation the detour
      branches from; none when no conversation is active. */
  function Recent(active: Option<Conversation>): (r: seq<Message>)
    ensures |r| <= 4
    ensures forall k :: 0 <= k < |r| ==> !r[k].isContext && active.Some? && r[k] in active.value.messages
    ensures active.None? ==> r == []
    ensures active.Some? ==> var nc := NonContext(active.value.messages);
      |r| == (if |nc| <= 4 then |nc| else 4) && r == nc[|nc| - |r|..]
  {
    if active.Some? then LastN(NonContext(active.value.messages), 4) else []
  }

  /** The messages a new detour starts with. */
  function Seed(kind: Kind, sel: string, active: Option<Conversation>): (r: seq<Message>)
    ensures r != [] && r[0] == ContextMessage(kind, sel)
    ensures |r| == if kind == Focus then 1 else |Recent(active)| + 3
    ensures kind != Focus ==> r[1] == Separator(PreviousContext) && r[2..|r| - 1] == Recent(active)
    ensures kind == Lookup ==> r[|r| - 1] == Separator(LookupDivider)
    ensures kind == Explore ==> r[|r| - 1] == Separator(ExploreDivider)
  {
    match kind
    case Focus => [ContextMessage(kind, sel)]
    case Lookup =>
      [ContextMessage(kind, sel), Separator(PreviousContext)] + Recent(active) + [Separator(LookupDivider)]
    case Explore =>
      [ContextMessage(kind, sel), Separator(PreviousContext)] + Recent(active) + [Separator(ExploreDivider)]
  }

  /** The conversation `createDetourConversation` builds, before any message is sent. */
  function Detour(id: ConvId, kind: Kind, sel: string, parent: ConvId, active: Option<Conversation>): (r: Conversation)
    ensures r.id == id && !r.isMain && r.parentId == Some(parent) && r.kind == Some(kind)
    ensures Completion.PromptFor(r) == Completion.KindPrompt(kind)
  {
    var r := Conversation(id, DetourTitle(kind, sel), Seed(kind, sel, active), false, Some(parent), Some(kind));
    Completion.DetourPrompt(r, kind, sel);
    r
  }

  lemma {:induction false} ContextOnlyAppend(a: seq<Message>, b: seq<Message>)
    ensures ContextOnly(a + b) == ContextOnly(a) + ContextOnly(b)
  {
    if a == [] {
      assert a + b == b;
    } else {
      assert (a + b)[0] == a[0];
      assert (a + b)[1..] == a[1..] + b;
      ContextOnlyAppend(a[1..], b);
    }
  }

  lemma {:induction false} NoContextOnly(msgs: seq<Message>)
    requires forall k :: 0 <= k < |msgs| ==> !msgs[k].isContext
    ensures ContextOnly(msgs) == []
  {
    if msgs != [] {
      NoContextOnly(msgs[1..]);
    }
  }

  /** A detour holds exactly one context message, the one naming its kind and term. */
  lemma SeedContext(kind: Kind, sel: string, active: Option<Conversation>)
    ensures ContextOnly(Seed(kind, sel, active)) == [ContextMessage(kind, sel)]
  {
    var ctx := ContextMessage(kind, sel);
    if kind == Focus {
      ContextOnlyOne(ctx);
    } else {
      var close := if kind == Lookup then LookupDivider else ExploreDivider;
      assert Seed(kind, sel, active) == [ctx, Separator(PreviousContext)] + Recent(active) + [Separator(close)];
      NoContextOnly(Recent(active));
      FramedContext(ctx, Recent(active), close);
    }
  }

  /** Around messages that are not context, the context message is all that remains. */
  lemma FramedContext(ctx: Message, mid: seq<Message>, close: string)
    requires ctx.isContext && ContextOnly(mid) == []
    ensures ContextOnly([ctx, Separator(PreviousContext)] + mid + [Separator(close)]) == [ctx]
  {
    var a := [ctx, Separator(PreviousContext)];
    assert a == [ctx] + [Separator(PreviousContext)];
    ContextOnlyOne(ctx);
    ContextOnlyOne(Separator(PreviousContext));
    ContextOnlyOne(Separator(close));
    ContextOnlyAppend([ctx], [Separator(PreviousContext)]);
    ContextOnlyAppend(a, mid);
    ContextOnlyAppend(a + mid, [Separator(close)]);
  }

  lemma ContextOnlyOne(m: Message)
    ensures ContextOnly([m]) == if m.isContext then [m] else []
  {
    assert [m][1..] == [];
  }

  /** What the completion API sees of a fresh lookup or explore detour is exactly the
      seeded recent messages of its parent: the context message and both dividers drop
      out. A fresh focus detour has no history. */
  lemma SeedHistory(kind: Kind, sel: string, active: Option<Conversation>)
    ensures Completion.History(Seed(kind, sel, active))
      == if kind == Focus then [] else Completion.History(Recent(active))
  {
    var ctx := ContextMessage(kind, sel);
    if kind == Focus {
      Completion.HistoryOne(ctx);
    } else {
      var close := if kind == Lookup then LookupDivider else ExploreDivider;
      assert Seed(kind, sel, active) == [ctx, Separator(PreviousContext)] + Recent(active) + [Separator(close)];
      FramedHistory(ctx, Separator(PreviousContext), Recent(active), Separator(close));
    }
  }

  /** Messages the completion API does not see, around ones it does, drop out. */
  lemma FramedHistory(first: Message, second: Message, mid: seq<Message>, last: Message)
    requires !Conversational(first) && !Conversational(second) && !Conversational(last)
    ensures Completion.History([first, second] + mid + [last]) == Completion.History(mid)
  {
    Completion.HistoryOne(first);
    Completion.HistoryOne(second);
    Completion.HistoryOne(last);
    assert [first, second] == [first] + [second];
    Completion.HistoryAppend([first], [second]);
    Completion.HistoryAppend([first, second], mid);
    Completion.HistoryAppend([first, second] + mid, [last]);
  }

  // ---------------------------------------------------------------------------------
  // Titles

  predicate IsQuote(c: char) {
    c == '\'' || c == '"'
  }

  /** `.replace(/['"]/g, '')`. */
  function StripQuotes(s: string): (r: string)
    ensures |r| <= |s|
    ensures forall k :: 0 <= k < |r| ==> !IsQuote(r[k]) && r[k] in s
    ensures forall k :: 0 <= k < |s| && !IsQuote(s[k]) ==> s[k] in r
  {
    if s == [] then []
    else
      var rest := StripQuotes(s[1..]);
      assert forall c :: c in s[1..] ==> c in s;
      assert forall k :: 1 <= k < |s| ==> s[k] == s[1..][k - 1];
      if IsQuote(s[0]) then rest else [s[0]] + rest
  }

  /** Quotes are removed character by character, so stripping distributes over
      concatenation and keeps the order of what remains. */
  lemma {:induction false} StripQuotesAppend(a: string, b: string)
    ensures StripQuotes(a + b) == StripQuotes(a) + StripQuotes(b)
  {
    if a == [] {
      assert a + b == b;
    } else {
      assert (a + b)[0] == a[0];
      assert (a + b)[1..] == a[1..] + b;
      StripQuotesAppend(a[1..], b);
    }
  }

  lemma {:induction false} StripQuotesNone(s: string)
    requires forall k :: 0 <= k < |s| ==> !IsQuote(s[k])
    ensures StripQuotes(s) == s
  {
    if s != [] {
      StripQuotesNone(s[1..]);
    }
  }

  /** The title after the first exchange of a main conversation, from the text the title
      request returned (`None` when it failed). The reply is trimmed before the quotes are
      removed, so spaces that stood inside quotes stay. */
  function TitleFrom(reply: Option<string>): (r: string)
    ensures r != ""
    ensures forall k :: 0 <= k < |r| ==> !IsQuote(r[k])
    ensures reply.None? ==> r == NewChatTitle
    ensures reply.Some? && StripQuotes(Trim(reply.value)) != "" ==> r == StripQuotes(Trim(reply.value))
  {
    if reply.None? then NewChatTitle
    else
      var t := StripQuotes(Trim(reply.value));
      if t == "" then NewChatTitle else t
  }

  /** A reply without quote characters is used trimmed, or replaced by `New Chat` when it
      is blank. */
  lemma TitlePlain(reply: string)
    requires forall k :: 0 <= k < |reply| ==> !IsQuote(reply[k])
    ensures TitleFrom(Some(reply)) == if AllSpace(reply) then NewChatTitle else Trim(reply)
  {
    var t := Trim(reply);
    assert forall k :: 0 <= k < |t| ==> t[k] in reply by {
      TrimSubstring(reply);
    }
    StripQuotesNone(t);
    TrimEmptyIffBlank(reply);
  }

  lemma TrimSubstring(s: string)
    ensures forall c :: c in Trim(s) ==> c in s
  {
    TrimStartSuffix(s);
    TrimEndPrefix(TrimStart(s));
  }

  /** A reply that is only quotes and spaces gives `New Chat`; one with a space inside
      its quotes keeps that space. */
  lemma TitleQuirks()
    ensures TitleFrom(Some("\"\"")) == NewChatTitle
    ensures TitleFrom(Some("' x'")) == " x"
  {
    var q := "\"\"";
    assert !IsSpace(q[0]) && !IsSpace(q[|q| - 1]);
    assert Trim(q) == q;
    assert StripQuotes(q[1..]) == [];
    var s := "' x'";
    assert !IsSpace(s[0]) && !IsSpace(s[|s| - 1]);
    assert Trim(s) == s;
    assert s[1..] == " x'" && s[1..][1..] == "x'" && s[1..][1..][1..] == "'";
    assert StripQuotes("'") == [];
  }

  // ---------------------------------------------------------------------------------
  // Message edits

  /** What a stream callback does to the message it addresses: append a chunk, mark the
      stream complete, or replace the text by the error. */
  datatype MsgUpdate = AppendChunk(chunk: string) | MarkDone | MarkFailed(error: string)

  function ApplyUpdate(m: Message, u: MsgUpdate): (r: Message)
    ensures r.role == m.role && r.id == m.id
    ensures r.isContext == m.isContext && r.isContextSeparator == m.isContextSeparator
  {
    match u
    case AppendChunk(c) => m.(content := m.content + c)
    case MarkDone => m.(isStreaming := false)
    case MarkFailed(e) => m.(content := ErrorPrefix + e, isStreaming := false)
  }

  /** `messages.map(m => m.id === msgId ? update(m) : m)`. */
  function UpdateMessages(msgs: seq<Message>, msgId: nat, u: MsgUpdate): (r: seq<Message>)
    ensures |r| == |msgs|
    ensures forall k :: 0 <= k < |r| ==>
      r[k] == if msgs[k].id == Some(msgId) then ApplyUpdate(msgs[k], u) else msgs[k]
  {
    if msgs == [] then []
    else
      var head := if msgs[0].id == Some(msgId) then ApplyUpdate(msgs[0], u) else msgs[0];
      [head] + UpdateMessages(msgs[1..], msgId, u)
  }

  /** Every message id is below `n`. */
  predicate IdsBelow(msgs: seq<Message>, n: nat) {
    forall k :: 0 <= k < |msgs| ==> msgs[k].id.Some? ==> msgs[k].id.value < n
  }

  /** Two chunks appended one after the other are one chunk appended. */
  lemma ChunksCompose(msgs: seq<Message>, msgId: nat, a: string, b: string)
    ensures UpdateMessages(UpdateMessages(msgs, msgId, AppendChunk(a)), msgId, AppendChunk(b))
      == UpdateMessages(msgs, msgId, AppendChunk(a + b))
  {
    var once := UpdateMessages(msgs, msgId, AppendChunk(a));
    var twice := UpdateMessages(once, msgId, AppendChunk(b));
    var both := UpdateMessages(msgs, msgId, AppendChunk(a + b));
    forall k | 0 <= k < |msgs| ensures twice[k] == both[k] {
      if msgs[k].id == Some(msgId) {
        assert msgs[k].content + a + b == msgs[k].content + (a + b);
      }
    }
  }

  lemma AppendNothing(msgs: seq<Message>, msgId: nat)
    ensures UpdateMessages(msgs, msgId, AppendChunk("")) == msgs
  {
    var r := UpdateMessages(msgs, msgId, AppendChunk(""));
    forall k | 0 <= k < |msgs| ensures r[k] == msgs[k] {
      assert msgs[k].content + "" == msgs[k].content;
    }
  }

  lemma IdsBelowSnoc(msgs: seq<Message>, m: Message, n: nat)
    requires IdsBelow(msgs, n) && m.id.None?
    ensures IdsBelow(msgs + [m], n)
  {
    forall k | 0 <= k < |msgs| ensures (msgs + [m])[k] == msgs[k] {
    }
  }

  lemma SnocTwo<T>(xs: seq<T>, a: T, b: T)
    ensures xs + [a] + [b] == xs + [a, b]
  {
  }

  /** A message whose id is fresh is the only message a callback for that id touches. */
  lemma FreshTarget(msgs: seq<Message>, m: Message, u: MsgUpdate)
    requires m.id.Some? && IdsBelow(msgs, m.id.value)
    ensures UpdateMessages(msgs + [m], m.id.value, u) == msgs + [ApplyUpdate(m, u)]
  {
    var r := UpdateMessages(msgs + [m], m.id.value, u);
    forall k | 0 <= k < |msgs| ensures r[k] == msgs[k] {
      assert (msgs + [m])[k] == msgs[k];
    }
  }

  /** The placeholder of an answer, after its chunks were appended and it was marked
      complete, holds exactly their text and has stopped streaming. */
  lemma StreamedPlaceholder(msgs: seq<Message>, n: nat, text: string)
    requires IdsBelow(msgs, n)
    ensures UpdateMessages(UpdateMessages(msgs + [Placeholder(n)], n, AppendChunk(text)), n, MarkDone)
      == msgs + [Placeholder(n).(content := text, isStreaming := false)]
  {
    FreshTarget(msgs, Placeholder(n), AppendChunk(text));
    FreshTarget(msgs, ApplyUpdate(Placeholder(n), AppendChunk(text)), MarkDone);
    assert "" + text == text;
  }

  // ---------------------------------------------------------------------------------
  // Conversation edits

  /** An edit the session applies to the conversations with one id. */
  datatype Edit = AddMessage(m: Message) | UpdateMessage(msgId: nat, u: MsgUpdate) | SetTitle(title: string) | Clear

  function ApplyEdit(c: Conversation, e: Edit): (r: Conversation)
    ensures r.id == c.id && r.isMain == c.isMain && r.parentId == c.parentId && r.kind == c.kind
    ensures !e.SetTitle? ==> r.title == c.title
  {
    match e
    case AddMessage(m) => c.(messages := c.messages + [m])
    case UpdateMessage(msgId, u) => c.(messages := UpdateMessages(c.messages, msgId, u))
    case SetTitle(t) => c.(title := t)
    case Clear => c.(messages := if c.isMain then [] else ContextOnly(c.messages))
  }

  /** `conversations.map(c => c.id === id ? edit(c) : c)`. */
  function EditWhere(convs: seq<Conversation>, id: ConvId, e: Edit): (r: seq<Conversation>)
    ensures |r| == |convs|
    ensures forall k :: 0 <= k < |r| ==> r[k] == if convs[k].id == id then ApplyEdit(convs[k], e) else convs[k]
  {
    if convs == [] then []
    else
      var head := if convs[0].id == id then ApplyEdit(convs[0], e) else convs[0];
      [head] + EditWhere(convs[1..], id, e)
  }

  /** `conversations.filter(c => c.id !== id)`. */
  function RemoveConv(convs: seq<Conversation>, id: ConvId): (r: seq<Conversation>)
    ensures |r| <= |convs|
    ensures forall k :: 0 <= k < |r| ==> r[k].id != id && r[k] in convs
    ensures forall k :: 0 <= k < |convs| && convs[k].id != id ==> convs[k] in r
  {
    if convs == [] then []
    else
      var rest := RemoveConv(convs[1..], id);
      assert forall c :: c in convs[1..] ==> c in convs;
      assert forall k :: 1 <= k < |convs| ==> convs[k] == convs[1..][k - 1];
      if convs[0].id == id then rest else [convs[0]] + rest
  }

  /** Removal is a filter: it distributes over concatenation and keeps the order of the
      conversations that stay. */
  lemma {:induction false} RemoveConvAppend(a: seq<Conversation>, b: seq<Conversation>, id: ConvId)
    ensures RemoveConv(a + b, id) == RemoveConv(a, id) + RemoveConv(b, id)
  {
    if a == [] {
      assert a + b == b;
    } else {
      assert (a + b)[0] == a[0];
      assert (a + b)[1..] == a[1..] + b;
      RemoveConvAppend(a[1..], b, id);
    }
  }

  /** What finding a conversation by id sees after an edit: the edited conversation under
      the edited id, and under every other id the conversation found before. */
  lemma {:induction false} FindEdited(convs: seq<Conversation>, id: ConvId, e: Edit, other: ConvId)
    ensures other != id ==> FindConv(EditWhere(convs, id, e), other) == FindConv(convs, other)
    ensures other == id ==>
      FindConv(EditWhere(convs, id, e), other)
        == if FindConv(convs, id).Some? then Some(ApplyEdit(FindConv(convs, id).value, e)) else None
  {
    if convs != [] {
      FindEdited(convs[1..], id, e, other);
      assert EditWhere(convs, id, e)[1..] == EditWhere(convs[1..], id, e);
    }
  }

  /** After removal no conversation has that id; the others are found as before. */
  lemma {:induction false} FindRemoved(convs: seq<Conversation>, id: ConvId, other: ConvId)
    ensures FindConv(RemoveConv(convs, id), other) == if other == id then None else FindConv(convs, other)
  {
    if convs != [] {
      FindRemoved(convs[1..], id, other);
      if convs[0].id != id {
        assert ([convs[0]] + RemoveConv(convs[1..], id))[1..] == RemoveConv(convs[1..], id);
      }
    }
  }

  lemma {:induction false} RemoveAbsent(convs: seq<Conversation>, id: ConvId)
    requires forall k :: 0 <= k < |convs| ==> convs[k].id != id
    ensures RemoveConv(convs, id) == convs
  {
    if convs != [] {
      RemoveAbsent(convs[1..], id);
      assert [convs[0]] + convs[1..] == convs;
    }
  }

  /** Closing a conversation that was appended with a fresh id gives back the list it
      was appended to. */
  lemma {:induction false} RemoveAppended(convs: seq<Conversation>, c: Conversation)
    requires forall k :: 0 <= k < |convs| ==> convs[k].id != c.id
    ensures RemoveConv(convs + [c], c.id) == convs
  {
    if convs == [] {
      assert [c][1..] == [];
    } else {
      assert (convs + [c])[1..] == convs[1..] + [c];
      RemoveAppended(convs[1..], c);
      assert [convs[0]] + convs[1..] == convs;
    }
  }

  /** An edit addressed to the id of the last conversation, when no other has that id,
      changes only that conversation. */
  lemma EditAppended(convs: seq<Conversation>, c: Conversation, e: Edit)
    requires forall k :: 0 <= k < |convs| ==> convs[k].id != c.id
    ensures EditWhere(convs + [c], c.id, e) == convs + [ApplyEdit(c, e)]
  {
    var r := EditWhere(convs + [c], c.id, e);
    forall k | 0 <= k < |convs| ensures r[k] == convs[k] {
      assert (convs + [c])[k] == convs[k];
    }
  }

  lemma {:induction false} ContextTextContextOnly(msgs: seq<Message>)
    ensures Completion.ContextText(ContextOnly(msgs)) == Completion.ContextText(msgs)
  {
    if msgs != [] {
      ContextTextContextOnly(msgs[1..]);
      if msgs[0].isContext {
        assert ContextOnly(msgs)[0] == msgs[0];
      }
    }
  }

  lemma {:induction false} ContextOnlyNoHistory(msgs: seq<Message>)
    ensures Completion.History(ContextOnly(msgs)) == []
  {
    if msgs != [] {
      ContextOnlyNoHistory(msgs[1..]);
      if msgs[0].isContext {
        Completion.HistoryAppend([msgs[0]], ContextOnly(msgs[1..]));
        Completion.HistoryOne(msgs[0]);
      }
    }
  }

  /** Clearing keeps the system prompt a conversation is answered with, and leaves it
      without history. */
  lemma ClearKeepsPrompt(c: Conversation)
    ensures Completion.PromptFor(ApplyEdit(c, Clear)) == Completion.PromptFor(c)
    ensures Completion.History(ApplyEdit(c, Clear).messages) == []
  {
    if !c.isMain {
      ContextTextContextOnly(c.messages);
      ContextOnlyNoHistory(c.messages);
    }
  }

  /** Clearing a fresh detour leaves its context message alone. */
  lemma ClearDetour(id: ConvId, kind: Kind, sel: string, parent: ConvId, active: Option<Conversation>)
    ensures ApplyEdit(Detour(id, kind, sel, parent, active), Clear).messages == [ContextMessage(kind, sel)]
  {
    SeedContext(kind, sel, active);
  }

  // ---------------------------------------------------------------------------------
  // The session

  /** No conversation, message, parent or input key uses an id at or above `n`. */
  predicate ConvIdsBelow(convs: seq<Conversation>, n: nat) {
    forall k :: 0 <= k < |convs| ==>
      convs[k].id < n && IdsBelow(convs[k].messages, n) && (convs[k].parentId.Some? ==> convs[k].parentId.value < n)
  }

  predicate UniqueIds(convs: seq<Conversation>) {
    forall j, k :: 0 <= j < k < |convs| ==> convs[j].id != convs[k].id
  }

  /** An edit keeps a conversation's message ids below the supply, as long as a message
      it adds has an id below it. */
  lemma EditBelow(c: Conversation, e: Edit, n: nat)
    requires IdsBelow(c.messages, n)
    requires e.AddMessage? && e.m.id.Some? ==> e.m.id.value < n
    ensures IdsBelow(ApplyEdit(c, e).messages, n)
  {
    var msgs := ApplyEdit(c, e).messages;
    match e
    case AddMessage(m) =>
      assert msgs == c.messages + [m];
    case UpdateMessage(msgId, u) =>
    case SetTitle(t) =>
    case Clear =>
      if !c.isMain {
        forall j | 0 <= j < |msgs| && msgs[j].id.Some? ensures msgs[j].id.value < n {
          assert msgs[j] in c.messages;
        }
      }
  }

  /** An edit keeps ids unique and below the supply, as long as a message it adds has an
      id below it. */
  lemma EditKeepsIds(convs: seq<Conversation>, id: ConvId, e: Edit, n: nat)
    requires ConvIdsBelow(convs, n) && UniqueIds(convs)
    requires e.AddMessage? && e.m.id.Some? ==> e.m.id.value < n
    ensures ConvIdsBelow(EditWhere(convs, id, e), n) && UniqueIds(EditWhere(convs, id, e))
  {
    var r := EditWhere(convs, id, e);
    forall k | 0 <= k < |r|
      ensures r[k].id == convs[k].id && r[k].parentId == convs[k].parentId && IdsBelow(r[k].messages, n)
    {
      if convs[k].id == id {
        EditBelow(convs[k], e, n);
      }
    }
  }

  /** The tail of well-numbered conversations is well numbered, and holds no
      conversation with the head's id. */
  lemma TailKeepsIds(convs: seq<Conversation>, n: nat)
    requires convs != [] && ConvIdsBelow(convs, n) && UniqueIds(convs)
    ensures ConvIdsBelow(convs[1..], n) && UniqueIds(convs[1..])
    ensures convs[0].id < n && IdsBelow(convs[0].messages, n)
    ensures convs[0].parentId.Some? ==> convs[0].parentId.value < n
    ensures forall c :: c in convs[1..] ==> c.id != convs[0].id
  {
    assert forall k :: 0 <= k < |convs| - 1 ==> convs[1..][k] == convs[k + 1];
  }

  /** Putting a well-numbered conversation with a new id in front keeps ids unique and
      below the supply. */
  lemma ConsKeepsIds(c: Conversation, rest: seq<Conversation>, n: nat)
    requires c.id < n && IdsBelow(c.messages, n) && (c.parentId.Some? ==> c.parentId.value < n)
    requires ConvIdsBelow(rest, n) && UniqueIds(rest)
    requires forall k :: 0 <= k < |rest| ==> rest[k].id != c.id
    ensures ConvIdsBelow([c] + rest, n) && UniqueIds([c] + rest)
  {
    var r := [c] + rest;
    assert forall k :: 1 <= k < |r| ==> r[k] == rest[k - 1];
  }

  lemma {:induction false} RemoveKeepsIds(convs: seq<Conversation>, id: ConvId, n: nat)
    requires ConvIdsBelow(convs, n) && UniqueIds(convs)
    ensures ConvIdsBelow(RemoveConv(convs, id), n)
    ensures UniqueIds(RemoveConv(convs, id))
    decreases |convs|
  {
    if convs != [] {
      TailKeepsIds(convs, n);
      RemoveKeepsIds(convs[1..], id, n);
      var rest := RemoveConv(convs[1..], id);
      if convs[0].id != id {
        forall k | 0 <= k < |rest| ensures rest[k].id != convs[0].id {
          assert rest[k] in convs[1..];
        }
        ConsKeepsIds(convs[0], rest, n);
      }
    }
  }

  /** Appending a conversation whose id is at or above every id in use keeps ids
      unique and below the supply. */
  lemma AppendKeepsIds(convs: seq<Conversation>, c: Conversation, n: nat, m: nat)
    requires ConvIdsBelow(convs, n) && UniqueIds(convs)
    requires n <= c.id < m && IdsBelow(c.messages, m) && (c.parentId.Some? ==> c.parentId.value < m)
    ensures ConvIdsBelow(convs + [c], m) && UniqueIds(convs + [c])
    ensures forall k :: 0 <= k < |convs| ==> convs[k].id != c.id
  {
    var r := convs + [c];
    forall k | 0 <= k < |convs| ensures r[k] == convs[k] && IdsBelow(r[k].messages, m) {
      assert IdsBelow(convs[k].messages, n);
    }
  }

  /** Every message the seed copies comes from the active conversation, so a bound on
      its ids bounds the seed's. */
  lemma SeedIdsBelow(kind: Kind, sel: string, active: Option<Conversation>, n: nat)
    requires active.Some? ==> IdsBelow(active.value.messages, n)
    ensures IdsBelow(Seed(kind, sel, active), n)
  {
    var r := Seed(kind, sel, active);
    var recent := Recent(active);
    if kind != Focus {
      forall k | 0 <= k < |r| && r[k].id.Some? ensures r[k].id.value < n {
        if 2 <= k < 2 + |recent| {
          assert r[k] == recent[k - 2];
          assert r[k] in active.value.messages;
        }
      }
    }
  }

  /** A conversation with no conversational message yet: its next exchange is its
      first. */
  predicate IsFirstExchange(msgs: seq<Message>) {
    forall k :: 0 <= k < |msgs| ==> !Conversational(msgs[k])
  }

  /** The first exchange is exactly the one sent with no history. */
  lemma {:induction false} FirstExchangeNoHistory(msgs: seq<Message>)
    ensures IsFirstExchange(msgs) <==> Completion.History(msgs) == []
  {
    if msgs != [] {
      FirstExchangeNoHistory(msgs[1..]);
      assert IsFirstExchange(msgs) <==> !Conversational(msgs[0]) && IsFirstExchange(msgs[1..]) by {
        assert forall k :: 1 <= k < |msgs| ==> msgs[k] == msgs[1..][k - 1];
      }
    }
  }

  /** What is handed to `getOpenAIResponse` and where its answer goes: the conversation
      and placeholder ids, the user text, the conversation as it was before the user
      message was added, and whether a title is to be generated afterwards. */
  datatype Request = Request(convId: ConvId, msgId: nat, userMessage: string, conversation: Conversation, retitle: bool)

  /** The session fields: `conversations`, `inputs`, `activeConversationId`, `apiKey`,
      and the fresh-id supply standing in for `Date.now()`. */
  datatype State = State(
    conversations: seq<Conversation>,
    inputs: map<ConvId, string>,
    activeId: ConvId,
    apiKey: string,
    clock: nat)

  /** Ids are unique and all below the supply, and the stored key is trimmed. */
  predicate Consistent(s: State) {
    && ConvIdsBelow(s.conversations, s.clock)
    && UniqueIds(s.conversations)
    && s.activeId < s.clock
    && (forall id :: id in s.inputs ==> id < s.clock)
    && Trim(s.apiKey) == s.apiKey
  }

  function ActiveOf(s: State): Option<Conversation> {
    FindConv(s.conversations, s.activeId)
  }

  /** `inputs[activeConversationId] || ''`. */
  function InputOf(s: State): string {
    if s.activeId in s.inputs then s.inputs[s.activeId] else ""
  }

  /** One main conversation titled `New Chat`, active, with an empty input; no key. */
  function Initial(): (s: State)
    ensures Consistent(s)
    ensures ActiveOf(s) == Some(Conversation(MainId, NewChatTitle, [], true, None, None)) && InputOf(s) == ""
    ensures s.conversations == [Conversation(MainId, NewChatTitle, [], true, None, None)]
    ensures s.inputs == map[MainId := ""] && s.apiKey == ""
  {
    var main := Conversation(MainId, NewChatTitle, [], true, None, None);
    assert Trim("") == "";
    State([main], map[MainId := ""], MainId, "", MainId + 1)
  }

  /** `saveApiKey`: stores the trimmed key, unless it is blank. */
  function SaveKey(s: State, temp: string): (r: State)
    ensures r == s.(apiKey := r.apiKey)
    ensures r.apiKey == if AllSpace(temp) then s.apiKey else Trim(temp)
    ensures Consistent(s) ==> Consistent(r)
  {
    TrimEmptyIffBlank(temp);
    TrimIdempotent(temp);
    if Trim(temp) != "" then s.(apiKey := Trim(temp)) else s
  }

  /** `handleInputChange`: the active conversation's draft. */
  function SetInput(s: State, value: string): (r: State)
    ensures r == s.(inputs := r.inputs) && InputOf(r) == value
    ensures forall id :: id != s.activeId ==> (id in r.inputs <==> id in s.inputs)
    ensures forall id :: id != s.activeId && id in s.inputs ==> r.inputs[id] == s.inputs[id]
    ensures Consistent(s) ==> Consistent(r)
  {
    s.(inputs := s.inputs[s.activeId := value])
  }

  lemma ConvIdsBelowMono(convs: seq<Conversation>, n: nat, m: nat)
    requires ConvIdsBelow(convs, n) && n <= m
    ensures ConvIdsBelow(convs, m)
  {
    forall k | 0 <= k < |convs| ensures IdsBelow(convs[k].messages, m) {
      assert IdsBelow(convs[k].messages, n);
    }
  }

  lemma FoundIdsBelow(convs: seq<Conversation>, id: ConvId, n: nat)
    requires ConvIdsBelow(convs, n) && FindConv(convs, id).Some?
    ensures IdsBelow(FindConv(convs, id).value.messages, n)
  {
    var k :| 0 <= k < |convs| && convs[k] == FindConv(convs, id).value;
    assert IdsBelow(convs[k].messages, n);
  }

  /** The question and then a streaming placeholder added to the conversation `id`,
      as the two `setConversations` calls of a send do. */
  function AskIn(convs: seq<Conversation>, id: ConvId, text: string, msgId: nat): seq<Conversation> {
    EditWhere(EditWhere(convs, id, AddMessage(UserMessage(text))), id, AddMessage(Placeholder(msgId)))
  }

  /** Only the conversation `id` gains the question and the placeholder. */
  lemma AskInFound(convs: seq<Conversation>, id: ConvId, text: string, msgId: nat)
    ensures FindConv(AskIn(convs, id, text, msgId), id)
      == if FindConv(convs, id).Some? then Some(Asked(FindConv(convs, id).value, text, msgId)) else None
    ensures forall other :: other != id ==> FindConv(AskIn(convs, id, text, msgId), other) == FindConv(convs, other)
  {
    var asked := EditWhere(convs, id, AddMessage(UserMessage(text)));
    FindEdited(convs, id, AddMessage(UserMessage(text)), id);
    FindEdited(asked, id, AddMessage(Placeholder(msgId)), id);
    if FindConv(convs, id).Some? {
      var c := FindConv(convs, id).value;
      SnocTwo(c.messages, UserMessage(text), Placeholder(msgId));
    }
    forall other | other != id ensures FindConv(AskIn(convs, id, text, msgId), other) == FindConv(convs, other) {
      FindEdited(convs, id, AddMessage(UserMessage(text)), other);
      FindEdited(asked, id, AddMessage(Placeholder(msgId)), other);
    }
  }

  /** The question and the placeholder keep ids unique and below the supply, when the
      placeholder's id is the next fresh one. */
  lemma AskInKeepsIds(convs: seq<Conversation>, id: ConvId, text: string, msgId: nat)
    requires ConvIdsBelow(convs, msgId) && UniqueIds(convs)
    ensures ConvIdsBelow(AskIn(convs, id, text, msgId), msgId + 1) && UniqueIds(AskIn(convs, id, text, msgId))
  {
    ConvIdsBelowMono(convs, msgId, msgId + 1);
    EditKeepsIds(convs, id, AddMessage(UserMessage(text)), msgId + 1);
    var asked := EditWhere(convs, id, AddMessage(UserMessage(text)));
    EditKeepsIds(asked, id, AddMessage(Placeholder(msgId)), msgId + 1);
  }

  /** The state after the conversation `d`, built for a detour with the fresh id
      `s.clock`, is added: it is appended and becomes active, and its input holds
      `input`. A detour that is sent at once (`autoSend`, a lookup) has an empty input
      instead; with a key stored it then also gets the question and a streaming
      placeholder, and the request is returned; without a key the question waits in the
      input. */
  function Opened(s: State, d: Conversation, input: string, autoSend: bool): (r: (State, Option<Request>))
    ensures r.0.activeId == s.clock && r.0.apiKey == s.apiKey
    ensures r.1.Some? <==> autoSend && Trim(s.apiKey) != ""
  {
    var id := s.clock;
    var branched := s.(conversations := s.conversations + [d],
                       inputs := s.inputs[id := if autoSend then "" else input],
                       activeId := id, clock := id + 1);
    if autoSend && Trim(s.apiKey) != "" then
      var msgId := branched.clock;
      (branched.(conversations := AskIn(branched.conversations, id, input, msgId), clock := msgId + 1),
       Some(Request(id, msgId, input, d, false)))
    else if autoSend then (branched.(inputs := branched.inputs[id := input]), None)
    else (branched, None)
  }

  /** `createDetourConversation(kind)` on the selection `sel`; an empty selection changes
      nothing. */
  function OpenDetour(s: State, sel: string, kind: Kind): (r: (State, Option<Request>))
    ensures sel == "" ==> r == (s, None)
    ensures r.1.Some? <==> sel != "" && kind == Lookup && Trim(s.apiKey) != ""
  {
    if sel == "" then (s, None)
    else Opened(s, Detour(s.clock, kind, sel, s.activeId, ActiveOf(s)), DetourInput(kind, sel), kind == Lookup)
  }

  /** The question and the placeholder, each added by id to a conversation appended
      with a fresh id, end up at the end of that conversation only. */
  lemma AskAppended(convs: seq<Conversation>, d: Conversation, input: string, msgId: nat)
    requires forall k :: 0 <= k < |convs| ==> convs[k].id != d.id
    ensures AskIn(convs + [d], d.id, input, msgId) == convs + [Asked(d, input, msgId)]
  {
    EditAppended(convs, d, AddMessage(UserMessage(input)));
    var d1 := ApplyEdit(d, AddMessage(UserMessage(input)));
    EditAppended(convs, d1, AddMessage(Placeholder(msgId)));
    SnocTwo(d.messages, UserMessage(input), Placeholder(msgId));
  }

  /** The conversation the request is about, as sent at once, ends the list holding
      also the question and a streaming placeholder. */
  function Asked(d: Conversation, input: string, msgId: nat): Conversation {
    d.(messages := d.messages + [UserMessage(input), Placeholder(msgId)])
  }

  /** The new conversation is appended after all existing ones, as built, or, when sent
      at once, with the question and a placeholder; no other conversation changes. The
      new input is set and no other. */
  lemma OpenedAppends(s: State, d: Conversation, input: string, autoSend: bool)
    requires forall k :: 0 <= k < |s.conversations| ==> s.conversations[k].id < s.clock
    requires d.id == s.clock
    ensures
      var r := Opened(s, d, input, autoSend).0;
      var send := autoSend && Trim(s.apiKey) != "";
      && r.conversations == s.conversations + [if send then Asked(d, input, s.clock + 1) else d]
      && r.inputs == s.inputs[s.clock := if send then "" else input]
      && r.clock == if send then s.clock + 2 else s.clock + 1
  {
    var r := Opened(s, d, input, autoSend).0;
    if autoSend && Trim(s.apiKey) != "" {
      assert forall k :: 0 <= k < |s.conversations| ==> s.conversations[k].id != d.id;
      AskAppended(s.conversations, d, input, s.clock + 1);
    }
  }

  /** A state whose only new conversation is appended with a fresh id, whose ids stay
      below the new supply, is consistent when the old one was. */
  lemma AppendConsistent(s: State, r: State, last: Conversation)
    requires Consistent(s)
    requires r.conversations == s.conversations + [last] && s.clock <= last.id < r.clock
    requires IdsBelow(last.messages, r.clock) && (last.parentId.Some? ==> last.parentId.value < r.clock)
    requires r.activeId < r.clock && r.apiKey == s.apiKey
    requires forall id :: id in r.inputs ==> id in s.inputs || id == last.id
    ensures Consistent(r)
  {
    AppendKeepsIds(s.conversations, last, s.clock, r.clock);
  }

  lemma OpenedConsistent(s: State, d: Conversation, input: string, autoSend: bool)
    requires Consistent(s)
    requires d.id == s.clock && IdsBelow(d.messages, s.clock + 1) && (d.parentId.Some? ==> d.parentId.value < s.clock)
    ensures Consistent(Opened(s, d, input, autoSend).0)
  {
    OpenedAppends(s, d, input, autoSend);
    var r := Opened(s, d, input, autoSend).0;
    var send := autoSend && Trim(s.apiKey) != "";
    var last := if send then Asked(d, input, s.clock + 1) else d;
    assert IdsBelow(last.messages, r.clock);
    AppendConsistent(s, r, last);
  }

  /** The detour's messages carry only ids of the active conversation's messages. */
  lemma DetourIdsBelow(s: State, sel: string, kind: Kind)
    requires Consistent(s)
    ensures IdsBelow(Detour(s.clock, kind, sel, s.activeId, ActiveOf(s)).messages, s.clock + 1)
  {
    var active := ActiveOf(s);
    if active.Some? {
      var k :| 0 <= k < |s.conversations| && s.conversations[k] == active.value;
      assert IdsBelow(active.value.messages, s.clock);
    }
    SeedIdsBelow(kind, sel, active, s.clock + 1);
  }

  /** Opening a detour keeps the session consistent. */
  lemma OpenDetourConsistent(s: State, sel: string, kind: Kind)
    requires Consistent(s)
    ensures Consistent(OpenDetour(s, sel, kind).0)
  {
    if sel != "" {
      DetourIdsBelow(s, sel, kind);
      OpenedConsistent(s, Detour(s.clock, kind, sel, s.activeId, ActiveOf(s)), DetourInput(kind, sel), kind == Lookup);
    }
  }

  /** The detour of a selection is appended after all existing conversations, with the
      active conversation as parent, and becomes active; a lookup sent at once also
      holds the question and a streaming placeholder, and its input is empty. */
  lemma OpenDetourAppends(s: State, sel: string, kind: Kind)
    requires Consistent(s) && sel != ""
    ensures
      var r := OpenDetour(s, sel, kind).0;
      var d := Detour(s.clock, kind, sel, s.activeId, ActiveOf(s));
      var send := kind == Lookup && Trim(s.apiKey) != "";
      && r.conversations == s.conversations + [if send then Asked(d, DetourInput(kind, sel), s.clock + 1) else d]
      && r.inputs == s.inputs[s.clock := if send then "" else DetourInput(kind, sel)]
      && r.activeId == s.clock
  {
    OpenedAppends(s, Detour(s.clock, kind, sel, s.activeId, ActiveOf(s)), DetourInput(kind, sel), kind == Lookup);
  }

  /** Closing the conversation appended last, with an id above all others, removes just
      it, its input, and makes its parent active. */
  lemma CloseAppended(t: State, convs: seq<Conversation>, last: Conversation)
    requires t.conversations == convs + [last] && last.parentId.Some?
    requires forall k :: 0 <= k < |convs| ==> convs[k].id < last.id
    ensures Close(t, last.id).conversations == convs
    ensures Close(t, last.id).inputs == t.inputs - {last.id}
    ensures Close(t, last.id).activeId == last.parentId.value
  {
    RemoveAppended(convs, last);
    FindAppended(convs, last);
  }

  /** Adding a conversation sets the input of its fresh id and no other. */
  lemma OpenedInputs(s: State, d: Conversation, input: string, autoSend: bool)
    requires s.clock !in s.inputs
    ensures Opened(s, d, input, autoSend).0.inputs - {s.clock} == s.inputs
  {
    var t := Opened(s, d, input, autoSend).0;
    assert t.inputs.Keys == s.inputs.Keys + {s.clock};
    assert forall id :: id in s.inputs ==> t.inputs[id] == s.inputs[id];
  }

  /** Closing a conversation right after adding it gives back the conversations, the
      inputs and the active conversation from before. */
  lemma CloseUndoesOpened(s: State, d: Conversation, input: string, autoSend: bool)
    requires Consistent(s) && d.id == s.clock && d.parentId == Some(s.activeId)
    ensures
      var r := Close(Opened(s, d, input, autoSend).0, s.clock);
      r.conversations == s.conversations && r.inputs == s.inputs && r.activeId == s.activeId
  {
    assert forall k :: 0 <= k < |s.conversations| ==> s.conversations[k].id < s.clock;
    assert s.clock !in s.inputs;
    OpenedCloses(s, d, input, autoSend);
  }

  lemma OpenedCloses(s: State, d: Conversation, input: string, autoSend: bool)
    requires forall k :: 0 <= k < |s.conversations| ==> s.conversations[k].id < s.clock
    requires s.clock !in s.inputs && d.id == s.clock && d.parentId == Some(s.activeId)
    ensures
      var r := Close(Opened(s, d, input, autoSend).0, s.clock);
      r.conversations == s.conversations && r.inputs == s.inputs && r.activeId == s.activeId
  {
    OpenedAppends(s, d, input, autoSend);
    var t := Opened(s, d, input, autoSend).0;
    var last := if autoSend && Trim(s.apiKey) != "" then Asked(d, input, s.clock + 1) else d;
    CloseAppended(t, s.conversations, last);
    OpenedInputs(s, d, input, autoSend);
  }

  /** Closing a detour right after opening it undoes the opening. */
  lemma CloseUndoesOpen(s: State, sel: string, kind: Kind)
    requires Consistent(s) && sel != ""
    ensures
      var r := Close(OpenDetour(s, sel, kind).0, s.clock);
      r.conversations == s.conversations && r.inputs == s.inputs && r.activeId == s.activeId
  {
    CloseUndoesOpened(s, Detour(s.clock, kind, sel, s.activeId, ActiveOf(s)), DetourInput(kind, sel), kind == Lookup);
  }

  /** A lookup sent at once asks with the lookup prompt, the parent's recent exchange as
      history, and the question. */
  lemma OpenDetourRequest(s: State, sel: string)
    requires OpenDetour(s, sel, Lookup).1.Some?
    ensures
      var req := OpenDetour(s, sel, Lookup).1.value;
      Completion.Payload(Completion.PromptText(Completion.PromptFor(req.conversation)), req.conversation.messages, req.userMessage)
        == [Completion.WireMessage(System, Completion.PromptText(Completion.LookupPrompt))]
          + Completion.History(Recent(ActiveOf(s)))
          + [Completion.WireMessage(User, "What does \"" + sel + "\" mean?")]
  {
    var d := Detour(s.clock, Lookup, sel, s.activeId, ActiveOf(s));
    var req := OpenDetour(s, sel, Lookup).1.value;
    assert req.conversation == d && req.userMessage == DetourInput(Lookup, sel);
    LookupPayload(s.clock, sel, s.activeId, ActiveOf(s));
  }

  lemma LookupPayload(id: ConvId, sel: string, parent: ConvId, active: Option<Conversation>)
    ensures
      var d := Detour(id, Lookup, sel, parent, active);
      Completion.Payload(Completion.PromptText(Completion.PromptFor(d)), d.messages, DetourInput(Lookup, sel))
        == [Completion.WireMessage(System, Completion.PromptText(Completion.LookupPrompt))]
          + Completion.History(Recent(active))
          + [Completion.WireMessage(User, "What does \"" + sel + "\" mean?")]
  {
    SeedHistory(Lookup, sel, active);
  }

  /** `closeDetourConversation(id)`: the conversations with that id and its input go; the
      conversation found under that id, if it has a parent, hands activity to it, whether
      or not it was active. */
  function Close(s: State, id: ConvId): (r: State)
    ensures FindConv(r.conversations, id) == None && id !in r.inputs
    ensures forall other :: other != id ==> FindConv(r.conversations, other) == FindConv(s.conversations, other)
    ensures forall other :: other != id ==> (other in r.inputs <==> other in s.inputs)
    ensures forall other :: other != id && other in s.inputs ==> r.inputs[other] == s.inputs[other]
    ensures r.activeId == (var c := FindConv(s.conversations, id);
                           if c.Some? && c.value.parentId.Some? then c.value.parentId.value else s.activeId)
    ensures r.apiKey == s.apiKey && r.clock == s.clock
    ensures Consistent(s) ==> Consistent(r)
  {
    var conv := FindConv(s.conversations, id);
    var active := if conv.Some? && conv.value.parentId.Some? then conv.value.parentId.value else s.activeId;
    var r := s.(conversations := RemoveConv(s.conversations, id), inputs := s.inputs - {id}, activeId := active);
    FindRemoved(s.conversations, id, id);
    assert forall other :: other != id ==> FindConv(r.conversations, other) == FindConv(s.conversations, other) by {
      forall other | other != id ensures FindConv(r.conversations, other) == FindConv(s.conversations, other) {
        FindRemoved(s.conversations, id, other);
      }
    }
    assert Consistent(s) ==> Consistent(r) by {
      if Consistent(s) {
        RemoveKeepsIds(s.conversations, id, s.clock);
        if conv.Some? && conv.value.parentId.Some? {
          var k :| 0 <= k < |s.conversations| && s.conversations[k] == conv.value;
        }
      }
    }
    r
  }



  /** `goBackToParent`: the active conversation's parent becomes active, if it has one. */
  function Back(s: State): (r: State)
    ensures r == s.(activeId := r.activeId)
    ensures ActiveOf(s).Some? && ActiveOf(s).value.parentId.Some? ==> r.activeId == ActiveOf(s).value.parentId.value
    ensures ActiveOf(s).None? || ActiveOf(s).value.parentId.None? ==> r == s
    ensures Consistent(s) ==> Consistent(r)
  {
    var conv := ActiveOf(s);
    if conv.Some? && conv.value.parentId.Some? then
      assert Consistent(s) ==> conv.value.parentId.value < s.clock by {
        if Consistent(s) {
          var k :| 0 <= k < |s.conversations| && s.conversations[k] == conv.value;
        }
      }
      s.(activeId := conv.value.parentId.value)
    else s
  }

  /** `newChat`: a fresh main conversation titled `New Chat`, empty and active, with an
      empty input, after all the others. */
  function NewChat(s: State): (r: State)
    ensures r.conversations == s.conversations + [Conversation(s.clock, NewChatTitle, [], true, None, None)]
    ensures r.inputs == s.inputs[s.clock := ""] && r.activeId == s.clock && r.apiKey == s.apiKey
    ensures Consistent(s) ==> Consistent(r) && ActiveOf(r) == Some(Conversation(s.clock, NewChatTitle, [], true, None, None))
  {
    var id := s.clock;
    var c := Conversation(id, NewChatTitle, [], true, None, None);
    var r := s.(conversations := s.conversations + [c], inputs := s.inputs[id := ""], activeId := id, clock := id + 1);
    assert Consistent(s) ==> Consistent(r) && ActiveOf(r) == Some(c) by {
      if Consistent(s) {
        AppendKeepsIds(s.conversations, c, id, id + 1);
        FindConvFirst(r.conversations, id, |s.conversations|);
      }
    }
    r
  }

  /** `clearChat`: the active conversation loses its messages, except a detour's context
      message. */
  function ClearChat(s: State): (r: State)
    ensures r == s.(conversations := r.conversations)
    ensures ActiveOf(s).Some? ==> ActiveOf(r) == Some(ApplyEdit(ActiveOf(s).value, Clear))
    ensures ActiveOf(s).None? ==> ActiveOf(r).None?
    ensures forall other :: other != s.activeId ==> FindConv(r.conversations, other) == FindConv(s.conversations, other)
    ensures Consistent(s) ==> Consistent(r)
  {
    var r := s.(conversations := EditWhere(s.conversations, s.activeId, Clear));
    FindEdited(s.conversations, s.activeId, Clear, s.activeId);
    assert forall other :: other != s.activeId ==> FindConv(r.conversations, other) == FindConv(s.conversations, other) by {
      forall other | other != s.activeId ensures FindConv(r.conversations, other) == FindConv(s.conversations, other) {
        FindEdited(s.conversations, s.activeId, Clear, other);
      }
    }
    assert Consistent(s) ==> Consistent(r) by {
      if Consistent(s) {
        EditKeepsIds(s.conversations, s.activeId, Clear, s.clock);
      }
    }
    r
  }

  /** `sendMessage` up to the request: with a non-blank input, a stored key and an
      active conversation, the trimmed input and a streaming placeholder are appended to
      that conversation and its input is emptied; otherwise nothing changes. */
  function Send(s: State): (r: (State, Option<Request>))
    ensures r.1.None? <==> AllSpace(InputOf(s)) || AllSpace(s.apiKey) || ActiveOf(s).None?
    ensures r.1.None? ==> r.0 == s
    ensures r.1.Some? ==>
      r.1.value == Request(s.activeId, s.clock, Trim(InputOf(s)), ActiveOf(s).value,
        IsFirstExchange(ActiveOf(s).value.messages) && ActiveOf(s).value.isMain)
  {
    TrimEmptyIffBlank(InputOf(s));
    TrimEmptyIffBlank(s.apiKey);
    var text := Trim(InputOf(s));
    var conv := ActiveOf(s);
    if text == "" || Trim(s.apiKey) == "" || conv.None? then (s, None)
    else
      var id := s.activeId;
      var msgId := s.clock;
      (s.(conversations := AskIn(s.conversations, id, text, msgId), inputs := s.inputs[id := ""], clock := msgId + 1),
       Some(Request(id, msgId, text, conv.value, IsFirstExchange(conv.value.messages) && conv.value.isMain)))
  }

  /** A send appends the trimmed input and a streaming placeholder with a fresh id to the
      active conversation and empties its input; no other conversation changes (`AskIn`). */
  lemma SendEffect(s: State)
    requires Send(s).1.Some?
    ensures
      var r := Send(s).0;
      var c := ActiveOf(s).value;
      && FindConv(r.conversations, s.activeId)
        == Some(c.(messages := c.messages + [UserMessage(Trim(InputOf(s))), Placeholder(s.clock)]))
      && r.inputs == s.inputs[s.activeId := ""]
      && r.activeId == s.activeId && r.apiKey == s.apiKey && r.clock == s.clock + 1
  {
    AskInFound(s.conversations, s.activeId, Trim(InputOf(s)), s.clock);
    assert Asked(ActiveOf(s).value, Trim(InputOf(s)), s.clock)
      == ActiveOf(s).value.(messages := ActiveOf(s).value.messages + [UserMessage(Trim(InputOf(s))), Placeholder(s.clock)]);
  }

  lemma SendConsistent(s: State)
    requires Consistent(s)
    ensures Consistent(Send(s).0)
  {
    if Send(s).1.Some? {
      AskInKeepsIds(s.conversations, s.activeId, Trim(InputOf(s)), s.clock);
    }
  }

  /** One stream callback: the update reaches the message `msgId` of the conversation
      `convId` and nothing else. */
  function Deliver(s: State, convId: ConvId, msgId: nat, u: MsgUpdate): (r: State)
    ensures r == s.(conversations := r.conversations)
    ensures FindConv(r.conversations, convId)
      == if FindConv(s.conversations, convId).Some?
         then Some(ApplyEdit(FindConv(s.conversations, convId).value, UpdateMessage(msgId, u)))
         else None
    ensures forall other :: other != convId ==> FindConv(r.conversations, other) == FindConv(s.conversations, other)
    ensures Consistent(s) ==> Consistent(r)
  {
    var r := s.(conversations := EditWhere(s.conversations, convId, UpdateMessage(msgId, u)));
    FindEdited(s.conversations, convId, UpdateMessage(msgId, u), convId);
    assert forall other :: other != convId ==> FindConv(r.conversations, other) == FindConv(s.conversations, other) by {
      forall other | other != convId ensures FindConv(r.conversations, other) == FindConv(s.conversations, other) {
        FindEdited(s.conversations, convId, UpdateMessage(msgId, u), other);
      }
    }
    assert Consistent(s) ==> Consistent(r) by {
      if Consistent(s) {
        EditKeepsIds(s.conversations, convId, UpdateMessage(msgId, u), s.clock);
      }
    }
    r
  }

  /** The title of the conversation `convId` after its first exchange, from the title
      request's reply. */
  function Retitle(s: State, convId: ConvId, reply: Option<string>): (r: State)
    ensures r == s.(conversations := r.conversations)
    ensures FindConv(r.conversations, convId)
      == if FindConv(s.conversations, convId).Some?
         then Some(FindConv(s.conversations, convId).value.(title := TitleFrom(reply)))
         else None
    ensures forall other :: other != convId ==> FindConv(r.conversations, other) == FindConv(s.conversations, other)
    ensures Consistent(s) ==> Consistent(r)
  {
    var r := s.(conversations := EditWhere(s.conversations, convId, SetTitle(TitleFrom(reply))));
    FindEdited(s.conversations, convId, SetTitle(TitleFrom(reply)), convId);
    assert forall other :: other != convId ==> FindConv(r.conversations, other) == FindConv(s.conversations, other) by {
      forall other | other != convId ensures FindConv(r.conversations, other) == FindConv(s.conversations, other) {
        FindEdited(s.conversations, convId, SetTitle(TitleFrom(reply)), other);
      }
    }
    assert Consistent(s) ==> Consistent(r) by {
      if Consistent(s) {
        EditKeepsIds(s.conversations, convId, SetTitle(TitleFrom(reply)), s.clock);
      }
    }
    r
  }

  /** The callbacks for the chunks `calls`, in order. */
  function StreamAll(s: State, convId: ConvId, msgId: nat, calls: seq<string>): State
    decreases |calls|
  {
    if calls == [] then s
    else Deliver(StreamAll(s, convId, msgId, calls[..|calls| - 1]), convId, msgId, AppendChunk(calls[|calls| - 1]))
  }

  /** After the callbacks for `calls`, the addressed message has had their concatenation
      appended, and nothing else has changed. */
  lemma {:induction false} StreamAllEffect(s: State, convId: ConvId, msgId: nat, calls: seq<string>)
    ensures StreamAll(s, convId, msgId, calls) == s.(conversations := StreamAll(s, convId, msgId, calls).conversations)
    ensures FindConv(StreamAll(s, convId, msgId, calls).conversations, convId)
      == if FindConv(s.conversations, convId).Some?
         then Some(ApplyEdit(FindConv(s.conversations, convId).value, UpdateMessage(msgId, AppendChunk(Completion.Concat(calls)))))
         else None
    ensures forall other :: other != convId ==>
      FindConv(StreamAll(s, convId, msgId, calls).conversations, other) == FindConv(s.conversations, other)
    ensures Consistent(s) ==> Consistent(StreamAll(s, convId, msgId, calls))
    decreases |calls|
  {
    var c := FindConv(s.conversations, convId);
    if calls == [] {
      if c.Some? {
        AppendNothing(c.value.messages, msgId);
      }
    } else {
      var init := calls[..|calls| - 1];
      var last := calls[|calls| - 1];
      StreamAllEffect(s, convId, msgId, init);
      assert init + [last] == calls;
      Completion.ConcatSnoc(init, last);
      if c.Some? {
        ChunksCompose(c.value.messages, msgId, Completion.Concat(init), last);
      }
    }
  }

  /** The whole of `sendMessage` for one answer: the send, then the server's status
      (`status`, `statusText`), the decoded body `chunks` with the JSON reader `parse`,
      and the reply of the title request. A failed status puts the error text in the
      placeholder; otherwise the fragments are appended one by one, the stream is marked
      complete, and the first exchange of a main conversation retitles it. */
  function Exchange(s: State, status: nat, statusText: string, chunks: seq<string>,
                    parse: string -> Completion.Delta, titleReply: Option<string>): State
  {
    var (t, req) := Send(s);
    if req.None? then t
    else
      Answered(t, req.value, Completion.StatusError(status, statusText),
        Completion.Fragments(Completion.StreamEvents(chunks, parse)), titleReply)
  }

  /** The response side of an exchange: the error `err` of a failed status, or the
      fragments `calls` of a stream followed by the completion and, for a first
      exchange, the title. */
  function Answered(t: State, q: Request, err: Option<string>, calls: seq<string>, titleReply: Option<string>): State {
    if err.Some? then Deliver(t, q.convId, q.msgId, MarkFailed(err.value))
    else
      var done := Deliver(StreamAll(t, q.convId, q.msgId, calls), q.convId, q.msgId, MarkDone);
      if q.retitle then Retitle(done, q.convId, titleReply) else done
  }

  /** The placeholder ends holding the error or the streamed text, no longer streaming. */
  lemma AnsweredEffect(t: State, q: Request, err: Option<string>, calls: seq<string>, titleReply: Option<string>,
                       c: Conversation, before: seq<Message>)
    requires FindConv(t.conversations, q.convId) == Some(c.(messages := before + [Placeholder(q.msgId)]))
    requires IdsBelow(before, q.msgId)
    ensures
      var r := Answered(t, q, err, calls, titleReply);
      var text := if err.Some? then ErrorPrefix + err.value else Completion.Concat(calls);
      && r == t.(conversations := r.conversations)
      && FindConv(r.conversations, q.convId) == Some(c.(
           title := if err.None? && q.retitle then TitleFrom(titleReply) else c.title,
           messages := before + [Placeholder(q.msgId).(content := text, isStreaming := false)]))
  {
    if err.Some? {
      FailedEffect(t, q, err.value, c, before);
      FailedPlaceholder(q.msgId, err.value);
    } else {
      StreamedEffect(t, q, calls, c, before);
    }
  }

  /** A request that failed: the error lands in the placeholder. */
  lemma FailedEffect(t: State, q: Request, message: string, c: Conversation, before: seq<Message>)
    requires FindConv(t.conversations, q.convId) == Some(c.(messages := before + [Placeholder(q.msgId)]))
    requires IdsBelow(before, q.msgId)
    ensures
      var failed := Deliver(t, q.convId, q.msgId, MarkFailed(message));
      FindConv(failed.conversations, q.convId) == Some(c.(
        messages := before + [ApplyUpdate(Placeholder(q.msgId), MarkFailed(message))]))
  {
    DeliverAt(t, q.convId, q.msgId, MarkFailed(message), c.(messages := before + [Placeholder(q.msgId)]));
    FreshTarget(before, Placeholder(q.msgId), MarkFailed(message));
  }

  lemma FailedPlaceholder(n: nat, message: string)
    ensures ApplyUpdate(Placeholder(n), MarkFailed(message))
      == Placeholder(n).(content := ErrorPrefix + message, isStreaming := false)
  {
  }

  /** A callback for a conversation that exists updates that conversation's messages. */
  lemma DeliverAt(t: State, convId: ConvId, msgId: nat, u: MsgUpdate, c: Conversation)
    requires FindConv(t.conversations, convId) == Some(c)
    ensures FindConv(Deliver(t, convId, msgId, u).conversations, convId)
      == Some(c.(messages := UpdateMessages(c.messages, msgId, u)))
  {
  }

  /** A stream that completed: the chunks, then the completion, land in the placeholder. */
  lemma StreamedEffect(t: State, q: Request, calls: seq<string>, c: Conversation, before: seq<Message>)
    requires FindConv(t.conversations, q.convId) == Some(c.(messages := before + [Placeholder(q.msgId)]))
    requires IdsBelow(before, q.msgId)
    ensures
      var done := Deliver(StreamAll(t, q.convId, q.msgId, calls), q.convId, q.msgId, MarkDone);
      && done == t.(conversations := done.conversations)
      && FindConv(done.conversations, q.convId) == Some(c.(
           messages := before + [Placeholder(q.msgId).(content := Completion.Concat(calls), isStreaming := false)]))
  {
    var text := Completion.Concat(calls);
    var streamed := StreamAll(t, q.convId, q.msgId, calls);
    StreamAllEffect(t, q.convId, q.msgId, calls);
    var appended := UpdateMessages(before + [Placeholder(q.msgId)], q.msgId, AppendChunk(text));
    assert FindConv(streamed.conversations, q.convId) == Some(c.(messages := appended));
    StreamedPlaceholder(before, q.msgId, text);
  }

  /** The answer as the placeholder finally holds it. */
  function Answer(status: nat, statusText: string, chunks: seq<string>, parse: string -> Completion.Delta): string {
    var err := Completion.StatusError(status, statusText);
    if err.Some? then ErrorPrefix + err.value
    else Completion.Concat(Completion.Fragments(Completion.StreamEvents(chunks, parse)))
  }

  /** After an exchange, the active conversation ends with the user's trimmed text and an
      assistant message that is no longer streaming and holds exactly the streamed text
      (the text `getOpenAIResponse` resolves to) or the error; a main conversation's
      first successful exchange takes the generated title. */
  lemma ExchangeEffect(s: State, status: nat, statusText: string, chunks: seq<string>,
                       parse: string -> Completion.Delta, titleReply: Option<string>)
    requires Consistent(s) && Send(s).1.Some?
    ensures
      var r := Exchange(s, status, statusText, chunks, parse, titleReply);
      var c := ActiveOf(s).value;
      var ok := Completion.StatusError(status, statusText).None?;
      var reply := Placeholder(s.clock).(content := Answer(status, statusText, chunks, parse), isStreaming := false);
      && FindConv(r.conversations, s.activeId) == Some(c.(
           title := if ok && IsFirstExchange(c.messages) && c.isMain then TitleFrom(titleReply) else c.title,
           messages := c.messages + [UserMessage(Trim(InputOf(s))), reply]))
  {
    var c := ActiveOf(s).value;
    var before := c.messages + [UserMessage(Trim(InputOf(s)))];
    var t, q := Send(s).0, Send(s).1.value;
    var err := Completion.StatusError(status, statusText);
    var calls := Completion.Fragments(Completion.StreamEvents(chunks, parse));
    assert Exchange(s, status, statusText, chunks, parse, titleReply) == Answered(t, q, err, calls, titleReply);
    assert q.convId == s.activeId && q.msgId == s.clock && q.retitle == (IsFirstExchange(c.messages) && c.isMain);
    assert FindConv(t.conversations, q.convId) == Some(c.(messages := before + [Placeholder(q.msgId)])) by {
      SendEffect(s);
      SnocTwo(c.messages, UserMessage(Trim(InputOf(s))), Placeholder(s.clock));
    }
    FoundIdsBelow(s.conversations, s.activeId, s.clock);
    IdsBelowSnoc(c.messages, UserMessage(Trim(InputOf(s))), s.clock);
    AnsweredEffect(t, q, err, calls, titleReply, c, before);
    SnocTwo(c.messages, UserMessage(Trim(InputOf(s))),
      Placeholder(s.clock).(content := Answer(status, statusText, chunks, parse), isStreaming := false));
  }

  /** An exchange changes no conversation but the active one, and keeps the state
      consistent. */
  lemma ExchangeFrame(s: State, status: nat, statusText: string, chunks: seq<string>,
                      parse: string -> Completion.Delta, titleReply: Option<string>)
    requires Consistent(s)
    ensures
      var r := Exchange(s, status, statusText, chunks, parse, titleReply);
      && (forall other :: other != s.activeId ==> FindConv(r.conversations, other) == FindConv(s.conversations, other))
      && Consistent(r)
  {
    SendConsistent(s);
    if Send(s).1.Some? {
      var t, q := Send(s).0, Send(s).1.value;
      var err := Completion.StatusError(status, statusText);
      var calls := Completion.Fragments(Completion.StreamEvents(chunks, parse));
      AskInFound(s.conversations, s.activeId, Trim(InputOf(s)), s.clock);
      if err.None? {
        StreamAllEffect(t, q.convId, q.msgId, calls);
      }
    }
  }

  /** `createDetourConversation(kind)` with its auto-sent lookup answered: the server's
      response arrives as for `Exchange`; a detour's first exchange is not retitled. */
  function DetourExchange(s: State, sel: string, kind: Kind, status: nat, statusText: string,
                          chunks: seq<string>, parse: string -> Completion.Delta): State
  {
    if sel == "" then s
    else
      OpenedExchange(s, Detour(s.clock, kind, sel, s.activeId, ActiveOf(s)), DetourInput(kind, sel), kind == Lookup,
        Completion.StatusError(status, statusText), Completion.Fragments(Completion.StreamEvents(chunks, parse)))
  }

  /** A detour that sends nothing (an empty selection, a focus or explore detour, or no
      key stored) ends as `createDetourConversation` leaves it: the server's answer plays
      no part. */
  lemma DetourExchangeQuiet(s: State, sel: string, kind: Kind, status: nat, statusText: string,
                            chunks: seq<string>, parse: string -> Completion.Delta)
    requires sel == "" || kind != Lookup || Trim(s.apiKey) == ""
    ensures DetourExchange(s, sel, kind, status, statusText, chunks, parse) == OpenDetour(s, sel, kind).0
  {
    if sel != "" {
      var d := Detour(s.clock, kind, sel, s.activeId, ActiveOf(s));
      assert Opened(s, d, DetourInput(kind, sel), kind == Lookup).1.None?;
    }
  }

  /** `Opened` followed by the response to its request, if it sent one. */
  function OpenedExchange(s: State, d: Conversation, input: string, autoSend: bool,
                          err: Option<string>, calls: seq<string>): State
  {
    var (t, req) := Opened(s, d, input, autoSend);
    if req.None? then t else Answered(t, req.value, err, calls, None)
  }

  lemma FindAppended(convs: seq<Conversation>, c: Conversation)
    requires forall k :: 0 <= k < |convs| ==> convs[k].id < c.id
    ensures FindConv(convs + [c], c.id) == Some(c)
  {
    var all := convs + [c];
    forall j | 0 <= j < |convs| ensures all[j].id != c.id {
      assert all[j] == convs[j];
    }
    FindConvFirst(all, c.id, |convs|);
  }

  /** A conversation appended and sent at once holds, after the response, the question
      and the finished answer or error. */
  lemma OpenedAnswered(s: State, d: Conversation, input: string, err: Option<string>, calls: seq<string>)
    requires forall k :: 0 <= k < |s.conversations| ==> s.conversations[k].id < s.clock
    requires d.id == s.clock && Trim(s.apiKey) != "" && IdsBelow(d.messages, s.clock + 1)
    ensures
      var r := OpenedExchange(s, d, input, true, err, calls);
      var text := if err.Some? then ErrorPrefix + err.value else Completion.Concat(calls);
      && FindConv(r.conversations, s.clock)
        == Some(d.(messages := d.messages + [UserMessage(input), Placeholder(s.clock + 1).(content := text, isStreaming := false)]))
      && r.activeId == s.clock
  {
    var (t, req) := Opened(s, d, input, true);
    var q := req.value;
    var before := d.messages + [UserMessage(input)];
    assert q.convId == s.clock && q.msgId == s.clock + 1 && !q.retitle;
    assert FindConv(t.conversations, q.convId) == Some(d.(messages := before + [Placeholder(q.msgId)])) by {
      OpenedAppends(s, d, input, true);
      FindAppended(s.conversations, Asked(d, input, s.clock + 1));
      SnocTwo(d.messages, UserMessage(input), Placeholder(s.clock + 1));
    }
    IdsBelowSnoc(d.messages, UserMessage(input), s.clock + 1);
    AnsweredEffect(t, q, err, calls, None, d, before);
    var text := if err.Some? then ErrorPrefix + err.value else Completion.Concat(calls);
    SnocTwo(d.messages, UserMessage(input), Placeholder(s.clock + 1).(content := text, isStreaming := false));
  }

  /** A lookup sent at once ends as the new, active detour holding its seed, the
      question, and the finished answer or error. */
  lemma LookupExchangeEffect(s: State, sel: string, status: nat, statusText: string,
                             chunks: seq<string>, parse: string -> Completion.Delta)
    requires Consistent(s) && sel != "" && Trim(s.apiKey) != ""
    ensures
      var r := DetourExchange(s, sel, Lookup, status, statusText, chunks, parse);
      var d := Detour(s.clock, Lookup, sel, s.activeId, ActiveOf(s));
      var reply := Placeholder(s.clock + 1).(content := Answer(status, statusText, chunks, parse), isStreaming := false);
      && FindConv(r.conversations, s.clock) == Some(d.(messages := d.messages + [UserMessage(DetourInput(Lookup, sel)), reply]))
      && r.activeId == s.clock
  {
    var d := Detour(s.clock, Lookup, sel, s.activeId, ActiveOf(s));
    var err := Completion.StatusError(status, statusText);
    var calls := Completion.Fragments(Completion.StreamEvents(chunks, parse));
    assert DetourExchange(s, sel, Lookup, status, statusText, chunks, parse)
      == OpenedExchange(s, d, DetourInput(Lookup, sel), true, err, calls);
    DetourIdsBelow(s, sel, Lookup);
    OpenedAnswered(s, d, DetourInput(Lookup, sel), Completion.StatusError(status, statusText),
      Completion.Fragments(Completion.StreamEvents(chunks, parse)));
  }
}
