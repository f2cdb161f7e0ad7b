/** The wire side of a completion request (`getOpenAIResponse`): which system prompt a
    conversation gets, the message list sent, how a failed HTTP status is reported, and
    how the server-sent-event stream is read back into text. `JSON.parse` and reading
    `choices[0].delta.content` are a parameter (`parse`); the response body is the
    sequence of chunks the reader delivers, already decoded to text. */
module Completion {
  import opened Options
  import opened Text
  import opened Chat

  // ---------------------------------------------------------------------------------
  // System prompt

  /** The four system prompts. */
  datatype Prompt = DefaultPrompt | LookupPrompt | FocusPrompt | ExplorePrompt

  /** The text of each prompt. */
  function PromptText(p: Prompt): string {
    match p
    case DefaultPrompt =>
      "You are ChatGPT, a helpful AI assistant."
    case LookupPrompt =>
      "You are a helpful dictionary and reference assistant with access to the conversation context. When asked about terms, provide comprehensive definitions including etymology, pronunciation guides, usage examples, and related terms. Use the previous conversation context to give more relevant and contextualized explanations. Focus on being educational and thorough like a high-quality dictionary or encyclopedia, but tailor your explanation to fit the context of the ongoing discussion."
    case FocusPrompt =>
      "You are a focused AI assistant. The user has selected a specific topic or phrase to discuss in isolation. Provide detailed, focused analysis of just this topic without referencing other conversations or broader context unless directly relevant to understanding the selected topic."
    case ExplorePrompt =>
      "You are ChatGPT continuing a previous conversation. The user has selected a specific part of our previous discussion to explore further. You have access to the previous conversation context and should reference it when relevant to provide deeper, more connected insights."
  }

  /** What `JSON.parse` made of a detour's context message: a parse error, or an object
      whose `type` field may be missing. */
  datatype ContextRead = Unparsable | Parsed(typeField: Option<string>)

  /** The prompt chosen by `!conversation.isMain` and the context's `type`: a parse error
      counts as `explore`; a missing or unknown type keeps the default. */
  function SystemPrompt(isMain: bool, read: ContextRead): (r: Prompt)
    ensures r == DefaultPrompt <==>
      isMain || (read.Parsed? && read.typeField !in {Some("lookup"), Some("focus"), Some("explore")})
    ensures !isMain && read.Unparsable? ==> r == ExplorePrompt
  {
    if isMain then DefaultPrompt
    else match read
      case Unparsable => ExplorePrompt
      case Parsed(t) =>
        if t == Some("lookup") then LookupPrompt
        else if t == Some("focus") then FocusPrompt
        else if t == Some("explore") then ExplorePrompt
        else DefaultPrompt
  }

  function KindPrompt(kind: Kind): Prompt {
    match kind
    case Lookup => LookupPrompt
    case Focus => FocusPrompt
    case Explore => ExplorePrompt
  }

  /** `conversation.messages.find(m => m.isContext)?.content || '{}'`. */
  function ContextText(msgs: seq<Message>): (r: string)
    ensures r != ""
    ensures ContextOnly(msgs) == [] ==> r == "{}"
    ensures ContextOnly(msgs) != [] ==>
      r == if ContextOnly(msgs)[0].content != "" then ContextOnly(msgs)[0].content else "{}"
  {
    if msgs == [] then "{}"
    else if msgs[0].isContext then (if msgs[0].content != "" then msgs[0].content else "{}")
    else ContextText(msgs[1..])
  }

  /** How the context text of a detour of `kind` begins. */
  function TypePrefix(kind: Kind): string {
    "{\"type\":\"" + KindName(kind) + "\",\"term\":"
  }

  /** `JSON.parse` on the texts the client itself stores as context: `{}` (no context
      message) and `{"type":…,"term":…}` as detour creation writes it. Anything else is
      read as a parse error. */
  function ReadContext(content: string): (r: ContextRead)
    ensures content == "{}" ==> r == Parsed(None)
    ensures r == Unparsable <==>
      (content != "{}" && !StartsWith(content, TypePrefix(Lookup))
       && !StartsWith(content, TypePrefix(Focus)) && !StartsWith(content, TypePrefix(Explore)))
    ensures forall kind :: StartsWith(content, TypePrefix(kind)) ==> r == Parsed(Some(KindName(kind)))
  {
    if content == "{}" then Parsed(None)
    else if StartsWith(content, TypePrefix(Lookup)) then
      PrefixExclusive(content, Lookup, Focus);
      PrefixExclusive(content, Lookup, Explore);
      Parsed(Some("lookup"))
    else if StartsWith(content, TypePrefix(Focus)) then
      PrefixExclusive(content, Focus, Explore);
      Parsed(Some("focus"))
    else if StartsWith(content, TypePrefix(Explore)) then Parsed(Some("explore"))
    else Unparsable
  }

  lemma PrefixOf(p: string, rest: string)
    ensures StartsWith(p + rest, p)
  {
    assert (p + rest)[..|p|] == p;
  }

  /** A text that starts with one kind's prefix starts with no other's: they differ in
      their tenth character. */
  lemma PrefixExclusive(c: string, kind: Kind, other: Kind)
    requires StartsWith(c, TypePrefix(kind)) && kind != other
    ensures !StartsWith(c, TypePrefix(other))
  {
    assert c[9] == TypePrefix(kind)[9];
    assert TypePrefix(kind)[9] != TypePrefix(other)[9];
  }

  /** The context text detour creation writes reads back as its kind. */
  lemma ReadContextRoundTrip(kind: Kind, term: string)
    ensures ReadContext(ContextContent(kind, term)) == Parsed(Some(KindName(kind)))
  {
    var c := ContextContent(kind, term);
    assert c == TypePrefix(kind) + (JsonQuote(term) + "}");
    PrefixOf(TypePrefix(kind), JsonQuote(term) + "}");
  }

  /** The system prompt of a conversation. */
  function PromptFor(conv: Conversation): (r: Prompt)
    ensures conv.isMain ==> r == DefaultPrompt
    ensures ContextOnly(conv.messages) == [] ==> r == DefaultPrompt
  {
    if conv.isMain then SystemPrompt(true, Parsed(None))
    else SystemPrompt(false, ReadContext(ContextText(conv.messages)))
  }

  /** A detour whose first context message was written for `kind` gets that kind's
      prompt. */
  lemma DetourPrompt(conv: Conversation, kind: Kind, term: string)
    requires !conv.isMain && conv.messages != [] && conv.messages[0] == ContextMessage(kind, term)
    ensures PromptFor(conv) == KindPrompt(kind)
  {
    ReadContextRoundTrip(kind, term);
  }

  // ---------------------------------------------------------------------------------
  // Message list

  datatype WireMessage = WireMessage(role: Role, content: string)

  /** `.filter(m => !m.isContext && !m.isContextSeparator).map(m => ({ role, content }))`. */
  function History(msgs: seq<Message>): (r: seq<WireMessage>)
    ensures |r| <= |msgs|
  {
    if msgs == [] then []
    else
      var head := if Conversational(msgs[0]) then [WireMessage(msgs[0].role, msgs[0].content)] else [];
      head + History(msgs[1..])
  }

  /** History is taken message by message, in order. */
  lemma {:induction false} HistoryAppend(a: seq<Message>, b: seq<Message>)
    ensures History(a + b) == History(a) + History(b)
  {
    if a == [] {
      assert a + b == b;
    } else {
      assert (a + b)[0] == a[0];
      assert (a + b)[1..] == a[1..] + b;
      HistoryAppend(a[1..], b);
    }
  }

  /** A context message or separator never reaches the API; any other message does,
      with its role and content. */
  lemma HistoryOne(m: Message)
    ensures History([m]) == if Conversational(m) then [WireMessage(m.role, m.content)] else []
  {
    assert [m][1..] == [];
  }

  /** The messages sent: the system prompt, the history, the new user message. */
  function Payload(prompt: string, msgs: seq<Message>, userMessage: string): (r: seq<WireMessage>)
    ensures |r| == |History(msgs)| + 2
    ensures r[0] == WireMessage(System, prompt) && r[|r| - 1] == WireMessage(User, userMessage)
    ensures r[1..|r| - 1] == History(msgs)
  {
    [WireMessage(System, prompt)] + History(msgs) + [WireMessage(User, userMessage)]
  }

  // ---------------------------------------------------------------------------------
  // Status

  const MissingKeyMessage: string := "Please enter your OpenAI API key"
  const InvalidKeyMessage: string := "Invalid API key. " + "Please check your OpenAI API key."
  const RateLimitMessage: string := "Rate limit exceeded. " + "Please try again in a moment."
  const AccessDeniedMessage: string := "Access denied. " + "Please check your API key permissions."

  /** `response.ok` is a 2xx status; otherwise the error message thrown. */
  function StatusError(status: nat, statusText: string): (r: Option<string>)
    ensures r.None? <==> 200 <= status <= 299
    ensures status == 401 ==> r == Some(InvalidKeyMessage)
    ensures status == 429 ==> r == Some(RateLimitMessage)
    ensures status == 403 ==> r == Some(AccessDeniedMessage)
    ensures !(200 <= status <= 299) && status != 401 && status != 429 && status != 403 ==>
      r == Some("API error: " + Decimal(status) + " " + statusText)
  {
    if 200 <= status <= 299 then None
    else if status == 401 then Some(InvalidKeyMessage)
    else if status == 429 then Some(RateLimitMessage)
    else if status == 403 then Some(AccessDeniedMessage)
    else Some("API error: " + Decimal(status) + " " + statusText)
  }

  lemma SameSurroundings<T>(p: seq<T>, x: seq<T>, y: seq<T>, q: seq<T>)
    requires p + x + q == p + y + q
    ensures x == y
  {
    assert |x| == |y|;
    assert x == (p + x + q)[|p|..|p| + |x|];
    assert y == (p + y + q)[|p|..|p| + |y|];
  }

  /** The first two characters of each error message. */
  lemma StatusErrorHead(status: nat, text: string)
    requires StatusError(status, text).Some?
    ensures StatusError(status, text).value[..2] ==
      if status == 401 then "In" else if status == 429 then "Ra" else if status == 403 then "Ac" else "AP"
  {
    var m := StatusError(status, text).value;
    if status == 401 {
      assert m[0] == 'I' && m[1] == 'n';
    } else if status == 429 {
      assert m[0] == 'R' && m[1] == 'a';
    } else if status == 403 {
      assert m[0] == 'A' && m[1] == 'c';
    } else {
      assert m == "API error: " + (Decimal(status) + " " + text);
      assert m[0] == 'A' && m[1] == 'P';
    }
  }

  /** The three special statuses have messages of their own, unlike each other and unlike
      the generic `API error: …` form; with the same status text, two different failing
      statuses never give the same message. */
  lemma StatusErrorDistinct(s1: nat, s2: nat, text: string)
    requires StatusError(s1, text).Some? && StatusError(s2, text).Some?
    requires StatusError(s1, text) == StatusError(s2, text)
    ensures s1 == s2
  {
    StatusErrorHead(s1, text);
    StatusErrorHead(s2, text);
    if !(s1 in {401, 429, 403} || s2 in {401, 429, 403}) {
      var p, q := "API error: ", " " + text;
      assert StatusError(s1, text).value == p + Decimal(s1) + q;
      assert StatusError(s2, text).value == p + Decimal(s2) + q;
      SameSurroundings(p, Decimal(s1), Decimal(s2), q);
      DecimalInjective(s1, s2);
    }
  }

  // ---------------------------------------------------------------------------------
  // The event stream

  /** What the parser made of a `data: ` payload: a parse error, or the value of
      `choices[0].delta.content`, which may be missing. */
  datatype Delta = Malformed | Field(content: Option<string>)

  /** What one line of a chunk means to the reader. */
  datatype Event = Ignore | Stop | Fragment(text: string)

  /** What a parsed payload contributes: its content when that is a non-empty string. */
  function PayloadEvent(delta: Delta): (e: Event)
    ensures e.Fragment? ==> e.text != ""
    ensures !e.Stop?
  {
    match delta
    case Field(Some(c)) => if c != "" then Fragment(c) else Ignore
    case _ => Ignore
  }

  /** Lines that do not start with `data: ` are ignored; `[DONE]` stops the stream; a
      payload that does not parse, or carries no or empty content, is skipped. */
  function LineEvent(line: string, parse: string -> Delta): (e: Event)
    ensures e.Fragment? ==> e.text != "" && StartsWith(line, "data: ")
    ensures e.Stop? <==> StartsWith(line, "data: ") && line[6..] == "[DONE]"
  {
    if !StartsWith(line, "data: ") then Ignore
    else if line[6..] == "[DONE]" then Stop
    else PayloadEvent(parse(line[6..]))
  }

  /** A `data: ` line means its payload. */
  lemma DataLineEvent(data: string, parse: string -> Delta)
    ensures LineEvent("data: " + data, parse)
      == if data == "[DONE]" then Stop else PayloadEvent(parse(data))
  {
    var line := "data: " + data;
    assert line[..6] == "data: " && line[6..] == data;
  }

  function LinesEvents(lines: seq<string>, parse: string -> Delta): (r: seq<Event>)
    ensures |r| == |lines|
  {
    if lines == [] then [] else [LineEvent(lines[0], parse)] + LinesEvents(lines[1..], parse)
  }

  /** Each chunk is split on line feeds by itself: a line is never joined across two
      chunks. */
  function StreamEvents(chunks: seq<string>, parse: string -> Delta): seq<Event> {
    if chunks == [] then [] else LinesEvents(SplitLines(chunks[0]), parse) + StreamEvents(chunks[1..], parse)
  }

  /** The texts passed to `onChunk`, in order: every fragment before the first stop. */
  function Fragments(events: seq<Event>): seq<string> {
    if events == [] then []
    else match events[0]
      case Stop => []
      case Ignore => Fragments(events[1..])
      case Fragment(t) => [t] + Fragments(events[1..])
  }

  function Concat(parts: seq<string>): string {
    if parts == [] then "" else parts[0] + Concat(parts[1..])
  }

  lemma ConcatSnoc(parts: seq<string>, p: string)
    ensures Concat(parts + [p]) == Concat(parts) + p
  {
    if parts != [] {
      assert (parts + [p])[1..] == parts[1..] + [p];
      ConcatSnoc(parts[1..], p);
    }
  }

  /** Once the stream has stopped, nothing after the stop matters. */
  lemma {:induction false} StopIgnoresRest(a: seq<Event>, b: seq<Event>, c: seq<Event>)
    ensures Fragments(a + [Stop] + b) == Fragments(a + [Stop] + c)
  {
    if a != [] {
      assert (a + [Stop] + b)[1..] == a[1..] + [Stop] + b;
      assert (a + [Stop] + c)[1..] == a[1..] + [Stop] + c;
      StopIgnoresRest(a[1..], b, c);
    } else {
      assert (a + [Stop] + b)[0] == Stop && (a + [Stop] + c)[0] == Stop;
    }
  }

  /** A skipped line leaves no trace. */
  lemma {:induction false} IgnoreSkipped(a: seq<Event>, b: seq<Event>)
    ensures Fragments(a + [Ignore] + b) == Fragments(a + b)
  {
    if a != [] {
      assert (a + [Ignore] + b)[1..] == a[1..] + [Ignore] + b;
      assert (a + b)[1..] == a[1..] + b;
      IgnoreSkipped(a[1..], b);
    } else {
      assert (a + [Ignore] + b)[1..] == b;
      assert a + b == b;
    }
  }

  /** `onChunk` is never called with empty text. */
  lemma {:induction false} FragmentsNonEmpty(events: seq<Event>)
    requires forall k :: 0 <= k < |events| ==> events[k].Fragment? ==> events[k].text != ""
    ensures forall k :: 0 <= k < |Fragments(events)| ==> Fragments(events)[k] != ""
  {
    if events != [] {
      FragmentsNonEmpty(events[1..]);
    }
  }

  lemma {:induction false} LinesEventsNonEmpty(lines: seq<string>, parse: string -> Delta)
    ensures forall k :: 0 <= k < |lines| ==> LinesEvents(lines, parse)[k].Fragment? ==> LinesEvents(lines, parse)[k].text != ""
  {
    if lines != [] {
      LinesEventsNonEmpty(lines[1..], parse);
      assert forall k :: 1 <= k < |lines| ==> LinesEvents(lines, parse)[k] == LinesEvents(lines[1..], parse)[k - 1];
    }
  }

  lemma {:induction false} StreamEventsNonEmpty(chunks: seq<string>, parse: string -> Delta)
    ensures forall k :: 0 <= k < |StreamEvents(chunks, parse)| ==>
      StreamEvents(chunks, parse)[k].Fragment? ==> StreamEvents(chunks, parse)[k].text != ""
  {
    if chunks != [] {
      LinesEventsNonEmpty(SplitLines(chunks[0]), parse);
      StreamEventsNonEmpty(chunks[1..], parse);
    }
  }

  /** Every text handed to `onChunk` while reading a response is non-empty. */
  lemma ReadTextsNonEmpty(chunks: seq<string>, parse: string -> Delta)
    ensures forall k :: 0 <= k < |Fragments(StreamEvents(chunks, parse))| ==> Fragments(StreamEvents(chunks, parse))[k] != ""
  {
    StreamEventsNonEmpty(chunks, parse);
    FragmentsNonEmpty(StreamEvents(chunks, parse));
  }

  // ---------------------------------------------------------------------------------
  // The reader loop

  lemma ScanStepEvents(done: seq<string>, head: seq<string>, later: seq<string>, whole: seq<string>)
    requires done + (head + later) == whole
    ensures done + head + later == whole
  {
  }

  /** The body of the `for (const line of lines)` loop: a `data: ` line either ends the
      stream or, when its payload holds content, passes it on. Returns whether `[DONE]`
      was seen. */
  method ReadLine(line: string, parse: string -> Delta, ghost rest: seq<Event>, ghost whole: seq<string>,
                  full: string, calls: seq<string>)
    returns (full': string, calls': seq<string>, stopped: bool)
    requires full == Concat(calls)
    requires calls + Fragments([LineEvent(line, parse)] + rest) == whole
    ensures full' == Concat(calls')
    ensures stopped ==> calls' == whole
    ensures !stopped ==> calls' + Fragments(rest) == whole
  {
    full', calls', stopped := full, calls, false;
    if StartsWith(line, "data: ") {
      var data := line[6..];
      if data == "[DONE]" {
        assert Fragments([Stop] + rest) == [];
        return full', calls', true;
      }
      var delta := parse(data);
      if delta.Field? && delta.content.Some? && delta.content.value != "" {
        var content := delta.content.value;
        assert Fragments([Fragment(content)] + rest) == [content] + Fragments(rest);
        ConcatSnoc(calls', content);
        ScanStepEvents(calls', [content], Fragments(rest), whole);
        full' := full' + content;
        calls' := calls' + [content];
        return;
      }
    }
    assert Fragments([Ignore] + rest) == Fragments(rest);
  }

  /** `for (const line of lines)` over one chunk, continuing the texts passed so far.
      Returns whether `[DONE]` was seen. */
  method ReadChunk(chunk: string, parse: string -> Delta, ghost later: seq<Event>, ghost whole: seq<string>,
                   full: string, calls: seq<string>)
    returns (full': string, calls': seq<string>, stopped: bool)
    requires full == Concat(calls)
    requires calls + Fragments(LinesEvents(SplitLines(chunk), parse) + later) == whole
    ensures full' == Concat(calls')
    ensures stopped ==> calls' == whole
    ensures !stopped ==> calls' + Fragments(later) == whole
  {
    var lines := SplitLines(chunk);
    full', calls' := full, calls;
    var j := 0;
    while j < |lines|
      invariant j <= |lines|
      invariant full' == Concat(calls')
      invariant calls' + Fragments(LinesEvents(lines[j..], parse) + later) == whole
    {
      ghost var rest := LinesEvents(lines[j + 1..], parse) + later;
      assert LinesEvents(lines[j..], parse) + later == [LineEvent(lines[j], parse)] + rest by {
        assert lines[j..][1..] == lines[j + 1..];
      }
      var stop;
      full', calls', stop := ReadLine(lines[j], parse, rest, whole, full', calls');
      if stop {
        return full', calls', true;
      }
      j := j + 1;
    }
    assert LinesEvents(lines[j..], parse) + later == later by {
      assert lines[j..] == [];
    }
    return full', calls', false;
  }

  /** The reader loop of `getOpenAIResponse`: the text returned, and the texts passed to
      `onChunk` in order. The returned text is what `onChunk` received, put together. */
  method ReadStream(chunks: seq<string>, parse: string -> Delta) returns (full: string, calls: seq<string>)
    ensures calls == Fragments(StreamEvents(chunks, parse))
    ensures full == Concat(calls)
  {
    ghost var whole := Fragments(StreamEvents(chunks, parse));
    full, calls := "", [];
    var i := 0;
    while i < |chunks|
      invariant i <= |chunks|
      invariant full == Concat(calls)
      invariant calls + Fragments(StreamEvents(chunks[i..], parse)) == whole
    {
      assert StreamEvents(chunks[i..], parse)
        == LinesEvents(SplitLines(chunks[i]), parse) + StreamEvents(chunks[i + 1..], parse) by {
        assert chunks[i..][1..] == chunks[i + 1..];
      }
      var stopped;
      full, calls, stopped := ReadChunk(chunks[i], parse, StreamEvents(chunks[i + 1..], parse), whole, full, calls);
      if stopped {
        return;
      }
      i := i + 1;
    }
    assert chunks[i..] == [];
  }

  // ---------------------------------------------------------------------------------
  // The request as a whole

  /** How `getOpenAIResponse` ends: it throws with a message, or resolves to the text. */
  datatype Outcome = Failed(message: string) | Completed(text: string)

  /** `getOpenAIResponse(userMessage, conversation, onChunk)`, with the response the
      server sends as parameters (`status`, `statusText`, the decoded body `chunks`, and
      `parse`). `sent` is the message list posted, if any; `calls` are the `onChunk`
      arguments. */
  method GetResponse(apiKey: string, conv: Conversation, userMessage: string,
                     status: nat, statusText: string, chunks: seq<string>, parse: string -> Delta)
    returns (sent: Option<seq<WireMessage>>, calls: seq<string>, outcome: Outcome)
    ensures Trim(apiKey) == "" ==> sent == None && calls == [] && outcome == Failed(MissingKeyMessage)
    ensures Trim(apiKey) != "" ==>
      sent == Some(Payload(PromptText(PromptFor(conv)), conv.messages, userMessage))
    ensures Trim(apiKey) != "" && StatusError(status, statusText).Some? ==>
      calls == [] && outcome == Failed(StatusError(status, statusText).value)
    ensures Trim(apiKey) != "" && StatusError(status, statusText).None? ==>
      calls == Fragments(StreamEvents(chunks, parse)) && outcome == Completed(Concat(calls))
  {
    if Trim(apiKey) == "" {
      return None, [], Failed(MissingKeyMessage);
    }
    var prompt := PromptFor(conv);
    sent := Some(Payload(PromptText(prompt), conv.messages, userMessage));
    var error := StatusError(status, statusText);
    if error.Some? {
      return sent, [], Failed(error.value);
    }
    var full;
    full, calls := ReadStream(chunks, parse);
    outcome := Completed(full);
  }

  // ---------------------------------------------------------------------------------
  // Worked examples

  /** A parser that knows two payloads. */
  function TwoPayloads(data: string): Delta {
    if data == "1" then Field(Some("Hel")) else if data == "2" then Field(Some("lo")) else Malformed
  }

  lemma LinesEventsCons(line: string, rest: seq<string>, parse: string -> Delta)
    ensures LinesEvents([line] + rest, parse) == [LineEvent(line, parse)] + LinesEvents(rest, parse)
  {
    assert ([line] + rest)[1..] == rest;
  }

  lemma StreamEventsTwo(a: string, b: string, parse: string -> Delta)
    ensures StreamEvents([a, b], parse) == LinesEvents(SplitLines(a), parse) + LinesEvents(SplitLines(b), parse)
  {
    assert [a, b][1..] == [b];
    assert [b][1..] == [];
    var eb := LinesEvents(SplitLines(b), parse);
    assert StreamEvents([b], parse) == eb + StreamEvents([], parse);
    assert eb + [] == eb;
  }

  /** Fragments `Hel` and `lo`, then `[DONE]`: the text is `Hello`, and the payload after
      `[DONE]` in the same chunk is not read. */
  lemma HelloExample()
    ensures Fragments(StreamEvents(["data: 1" + "\n", ("data: " + "2") + "\n" + (("data: " + "[DONE]") + "\n" + ("data: " + "1"))], TwoPayloads))
      == ["Hel", "lo"]
    ensures Concat(["Hel", "lo"]) == "Hello"
  {
    var e1 := HelloFirstChunk();
    var e2 := HelloSecondChunk();
    StreamEventsTwo("data: 1" + "\n", ("data: " + "2") + "\n" + (("data: " + "[DONE]") + "\n" + ("data: " + "1")), TwoPayloads);
    var es2 := [Stop, Fragment("Hel")];
    var es3 := [Fragment("lo")] + es2;
    var es4 := [Ignore] + es3;
    assert e1 + e2 == [Fragment("Hel")] + es4;
    assert Fragments(es2) == [];
    assert es3[1..] == es2 && es4[1..] == es3 && ([Fragment("Hel")] + es4)[1..] == es4;
    assert Fragments(es3) == ["lo"];
    assert Fragments(es4) == ["lo"];
    assert Fragments([Fragment("Hel")] + es4) == ["Hel", "lo"];
    assert Concat(["lo"]) == "lo" + Concat([]);
  }

  lemma HelloFirstChunk() returns (e: seq<Event>)
    ensures e == LinesEvents(SplitLines("data: 1" + "\n"), TwoPayloads)
    ensures e == [Fragment("Hel"), Ignore]
  {
    assert "data: 1" + "\n" == "data: 1" + "\n" + "";
    SplitPrefix("data: 1", "");
    SplitNoNewline("");
    assert "data: 1" == "data: " + "1";
    DataLineEvent("1", TwoPayloads);
    e := LinesEvents(["data: 1", ""], TwoPayloads);
  }

  lemma HelloSecondChunk() returns (e: seq<Event>)
    ensures e == LinesEvents(SplitLines(("data: " + "2") + "\n" + (("data: " + "[DONE]") + "\n" + ("data: " + "1"))), TwoPayloads)
    ensures e == [Fragment("lo"), Stop, Fragment("Hel")]
  {
    var l1, l2, l3 := "data: " + "2", "data: " + "[DONE]", "data: " + "1";
    SplitPrefix(l1, l2 + "\n" + l3);
    SplitPrefix(l2, l3);
    SplitNoNewline(l3);
    DataLineEvent("2", TwoPayloads);
    DataLineEvent("[DONE]", TwoPayloads);
    DataLineEvent("1", TwoPayloads);
    LinesEventsCons(l1, [l2] + [l3], TwoPayloads);
    LinesEventsCons(l2, [l3], TwoPayloads);
    LinesEventsCons(l3, [], TwoPayloads);
    e := LinesEvents([l1] + ([l2] + [l3]), TwoPayloads);
    assert ("data: " + "2") + "\n" + (("data: " + "[DONE]") + "\n" + ("data: " + "1")) == l1 + "\n" + (l2 + "\n" + l3);
  }

  /** Each chunk is split by itself, so a `data: ` line whose first three characters
      arrive in one read and the rest in the next is lost, whatever its payload. */
  lemma SplitLineIsLost(data: string, parse: string -> Delta)
    requires '\n' !in data
    ensures LineEvent("data: " + data, parse) == if data == "[DONE]" then Stop else PayloadEvent(parse(data))
    ensures Fragments(StreamEvents(["dat", "a: " + data], parse)) == []
  {
    DataLineEvent(data, parse);
    SplitNoNewline("dat");
    SplitNoNewline("a: " + data);
    assert ("a: " + data)[0] == 'a';
    assert !StartsWith("a: " + data, "data: ");
    StreamEventsTwo("dat", "a: " + data, parse);
    LinesEventsCons("dat", [], parse);
    LinesEventsCons("a: " + data, [], parse);
    assert StreamEvents(["dat", "a: " + data], parse) == [Ignore] + [Ignore];
    assert ([Ignore] + [Ignore])[1..] == [Ignore] && [Ignore][1..] == [];
  }
}
