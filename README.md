# Detour chat client — a Dafny model

The modelled system is a single-page chat client for a completion API. It has three
parts:

- **Main conversations.** These are started with "new chat".
- **Detours.** These are side conversations branched off text the user selects in an
  answer. There are three kinds:
  - a *lookup* asks at once what the selection means, with the parent's recent
    exchange as context;
  - a *focus* discusses the selection in isolation;
  - an *explore* continues the parent's conversation about the selection.
- **Answers.** These stream in from the server as server-sent events. They are
  rendered through a small markdown renderer.

The model covers the core of `src/App.jsx` in three layers.

- **Rendering.** The renderer turns an assistant message into elements:
  - `Markdown` covers the block level (`parseMarkdown`): fenced code blocks, headings,
    ordered and bulleted lists, spacers and paragraphs;
  - `Inline` covers inline code, bold and italic (`parseInlineMarkdown` and
    `parseTextFormatting`).

  Each of the source's loops is a method with loop invariants. Each method is proved
  equal to a declarative reference definition (`MarkdownSpec`, `InlineSpec`,
  `FormatSpec`). The properties are proved about those definitions: round trips,
  leftmost-match behaviour, well-formedness, spacer placement and counts.
- **Completion wire logic.** `Completion` models `getOpenAIResponse`:
  - the system prompt chosen from a detour's context message;
  - the message list posted;
  - the error text for a failed HTTP status;
  - the reader loop over the event stream, as a method (`ReadStream`) proved against
    `Fragments(StreamEvents(..))`.
- **Session state.** `Session` holds the component's state hooks as a `State` value:
  the conversations, the per-conversation drafts, the active id, the key, and a
  fresh-id supply. Every handler is a transition on it: creating a detour, sending, the
  streaming callbacks addressed by id, clearing, closing, going back, new chat, saving
  the key, and editing the draft. `Client.ChatSession` is the component as an object.
  Its fields are the state hooks, and each handler method is proved to leave exactly
  the state the matching transition gives. `Consistent` says two things: ids are
  unique and below the supply, and the key is trimmed. Every handler preserves it.

The shared pieces live in their own modules:

- `Text`: JavaScript's `trim`, `split('\n')`/`join`, number printing and
  `JSON.stringify` of a string, with their round trips.
- `Chat`: the message and conversation records and the list helpers (`find`,
  `filter`, `slice(-4)`).
- `Options`: the option type.

Some behaviours of `src/App.jsx` are easy to miss, and the model keeps them:

- **Titles.** After a main conversation's first successful exchange, its title is
  replaced outright by the title request's reply (trimmed, quotes removed), or by
  `New Chat` when that is empty or the request fails.
- **Code blocks.** A code block that is never closed produces no element and swallows
  the rest of the text.
- **Closing.** Closing a conversation is not refused for main conversations. The
  conversation goes, and its parent (if any) becomes active.
- **Clearing.** Clearing a detour keeps its context message.
- **Request body.** The body carries `model`, `messages`, `max_tokens`, `temperature`
  and `stream`, nothing else.
- **Focus.** `focus` is a detour kind of its own.

## Model

| member | source | states |
|---|---|---|
| Text.Trim | src/App.jsx:28 | the result has no white space at either end and is no longer than the input |
| Text.TrimEmptyIffBlank | src/App.jsx:108 | `trim()` gives the empty string exactly when the line is all white space (the blank-line test) |
| Text.TrimIdempotent | src/App.jsx:636 | trimming a trimmed string changes nothing (the input is trimmed once for the guard and again for the message) |
| Text.TrimStartSuffix | src/App.jsx:28 | what `trim` keeps at the front is a suffix of the input, and all it drops is white space |
| Text.TrimEndPrefix | src/App.jsx:28 | what `trim` keeps at the end is a prefix of the input, and all it drops is white space |
| Text.TrimSlice | src/App.jsx:31 | what `trim` keeps is one slice of the input, and all it drops on either side is white space |
| Text.SplitLines | src/App.jsx:16 | `split('\n')` gives at least one line, no line holds a line feed, and joining the lines gives the text back |
| Text.SplitJoin | src/App.jsx:16 | the other half of the round trip: splitting joined lines that have no line feed gives the lines back |
| Text.Decimal | src/App.jsx:587 | a status printed in the template literal is a non-empty run of digits without a leading zero |
| Text.DecimalRoundTrip | src/App.jsx:587 | the printed status reads back as the status |
| Text.DecimalInjective | src/App.jsx:587 | two different statuses never print alike |
| Text.JsonQuote | src/App.jsx:337 | `JSON.stringify` of the selected term is a quoted literal |
| Text.JsonEscapeRoundTrip | src/App.jsx:337 | unescaping the literal's body gives back every term |
| Text.DecodeEscaped | src/App.jsx:337 | each escape `JSON.stringify` writes reads back as the character it stands for |
| Chat.FindConv | src/App.jsx:270 | `find` returns a conversation exactly when one has the id, and the one it returns has that id |
| Chat.FindConvFirst | src/App.jsx:270 | `find` returns the first conversation with the id |
| Chat.NonContext | src/App.jsx:330-331 | the filter keeps exactly the non-context messages: each one kept is a non-context message of the input, and every non-context message of the input is kept |
| Chat.NonContextAppend | src/App.jsx:330-331 | the filter distributes over concatenation, so what it keeps stays in order |
| Chat.ContextContent | src/App.jsx:337 | the context text begins with the kind as its `type` field, and its `term` field reads back as exactly the selection |
| Chat.ContextOnly | src/App.jsx:752 | the filter keeps only context messages, all taken from the input |
| Chat.LastN | src/App.jsx:332 | `slice(-4)` is the last four elements, or all of them when there are fewer |
| Inline.ParseTextFormatting | src/App.jsx:157-193 | the loop returns exactly the spans of the reference definition `FormatSpec` |
| Inline.FormatPass | src/App.jsx:163-189 | one loop pass pushes the reference pass's spans and continues with its remainder, or stops when nothing remains |
| Inline.ParseInlineMarkdown | src/App.jsx:125-154 | the loop returns exactly the pieces of the reference definition `InlineSpec` |
| Inline.InlinePass | src/App.jsx:132-150 | one loop pass pushes the reference pass's pieces and continues with its remainder, or stops |
| Inline.CodeSpanPass | src/App.jsx:134-145 | a pass that matches a code span pushes the formatted text before it, if there is any, then the span's content as code: the reference pass's pieces |
| Inline.PlainPass | src/App.jsx:148-150 | a pass without a code span pushes the whole remaining text, formatted, as its one piece |
| Inline.NextIndexCorrect | src/App.jsx:133 | the search finds the first occurrence of the character, or reports that there is none |
| Inline.FindDelimitedCorrect | src/App.jsx:133 | the code-span search finds a match, and no match starts further left; finding nothing means there is no match |
| Inline.FindBoldCorrect | src/App.jsx:164 | the bold search finds a match, and no match starts further left; finding nothing means there is no match |
| Inline.DelimitedEnd | src/App.jsx:176 | a single-delimiter match ends at the first delimiter after its start |
| Inline.BoldEnd | src/App.jsx:164 | a bold match ends at the first star after its opening `**` |
| Inline.FormatRoundTrip | src/App.jsx:157-193 | putting the stars back around bold and italic spans reproduces the text exactly |
| Inline.FormatHeadSource | src/App.jsx:163-189 | one pass loses and invents no character |
| Inline.StretchesRoundTrip | src/App.jsx:131-151 | cutting a line at code spans and putting the backticks back gives the line |
| Inline.InlineRoundTrip | src/App.jsx:125-154 | the rendered pieces with their backticks and stars put back reproduce the line exactly |
| Inline.FormatWellFormed | src/App.jsx:166-188 | no emitted span is empty and no bold or italic content holds a star; a non-empty text gives at least one span |
| Inline.InlineWellFormed | src/App.jsx:135-149 | no emitted piece is empty and no code content holds a backtick |
| Inline.LeftmostCodeSpanFirst | src/App.jsx:133-145 | the leftmost code span is cut out first: the text before it is one stretch, its content stays raw, and scanning resumes after it |
| Inline.LeftmostBoldFirst | src/App.jsx:164-172 | the leftmost bold match wins over any italic match, and the text before it is one plain span |
| Inline.LeftmostItalicWithoutBold | src/App.jsx:176-184 | without a bold match, the leftmost italic match is taken |
| Inline.NoFormattingUnchanged | src/App.jsx:187-189 | text with neither pattern comes out as one plain span |
| Inline.TextRunsHaveNoCode | src/App.jsx:133-149 | no text stretch that goes to formatting holds a code span |
| Inline.NoCodeSpanLeftInFormatted | src/App.jsx:137 | no formatted piece still holds a code span |
| Inline.OverlapBoldOutside | src/App.jsx:164-184 | `**a*b**` has no bold match and renders as `*`, italic `a`, `b**` |
| Inline.OverlapItalicOutside | src/App.jsx:164-184 | `*a**b*` renders as two italic spans |
| Inline.ItalicBeforeBoldStaysPlain | src/App.jsx:164-172 | an italic match before a bold match stays plain text |
| Markdown.ParseMarkdown | src/App.jsx:15-122 | the loop returns exactly the elements of the reference definition `MarkdownSpec` |
| Markdown.LinePass | src/App.jsx:79-118 | a line outside any code block adds the heading, list, spacer or paragraph of its segment, and moves to the next segment |
| Markdown.ListRun | src/App.jsx:89-94 | the inner list loop stops at the end of the run and collects each item's text, parsed inline |
| Markdown.FenceLine | src/App.jsx:28-77 | a fence line or a line inside a code block keeps the scan invariant: it opens a block with its language, closes it by adding the code block, or adds the line to the block's content |
| Markdown.CodeLine | src/App.jsx:73-74 | the code content grows line by line into the joined body (see `CodeBodyVerbatim`) |
| Markdown.BrOnlyInSpacerKey | src/App.jsx:109 | only a spacer's key contains `br`, so the key test is a test for a spacer |
| Markdown.FenceLang | src/App.jsx:31 | the language has no white space at either end and is shorter than the line by at least three characters |
| Markdown.FenceLangSlice | src/App.jsx:31 | the language is what follows the untrimmed line's first three characters, with only white space cut at either end |
| Markdown.FenceLangIndented | src/App.jsx:31 | a fence indented by two spaces keeps two of its backticks in the language: `  ```py` names the language two backticks and `py` |
| Markdown.CodeLabel | src/App.jsx:43 | the header label is the language, or `code` when there is none |
| Markdown.ItemText | src/App.jsx:91 | an item's text is the rest of the line after exactly its marker (the dash or star, or all the leading digits and the dot) and one white-space character |
| Markdown.FencedSegment | src/App.jsx:28-71 | a fence opened and later closed is one code-block segment |
| Markdown.UnclosedSegment | src/App.jsx:28-35 | a fence that is never closed swallows the rest of the text |
| Markdown.RunMaximal | src/App.jsx:88-106 | a list is one maximal run: each of its lines is an item of its kind, and the line after it is not |
| Markdown.RunTextsAt | src/App.jsx:90-92 | the n-th item of a list is the text of the run's n-th line |
| Markdown.DropLeadingEmptySuffix | src/App.jsx:74 | only empty lines at the front of a code block are dropped |
| Markdown.CodeBodySnoc | src/App.jsx:74 | appending with a newline only when the content is non-empty builds the body's content |
| Markdown.CodeBodyVerbatim | src/App.jsx:73-74 | a code block's content split into lines is its lines verbatim, apart from the leading empty ones |
| Markdown.MarkdownSpacersSeparated | src/App.jsx:108-111 | the elements never start with a spacer and never have two spacers in a row |
| Markdown.MarkdownCount | src/App.jsx:24-119 | there are no more elements than lines |
| Completion.SystemPrompt | src/App.jsx:522-547 | the default prompt is kept exactly for main conversations and for a missing or unknown `type`; a context that does not parse selects the explore prompt |
| Completion.ContextText | src/App.jsx:525-529 | the text parsed is never empty: `{}` when the conversation has no context message, otherwise the first context message's content, or `{}` when that is empty |
| Completion.ReadContext | src/App.jsx:527-532 | `{}` reads as an object without `type`; a text beginning with a kind's `type` field reads as that kind; exactly the other texts read as a parse error |
| Completion.ReadContextRoundTrip | src/App.jsx:529 | the context text a detour writes parses back to its kind |
| Completion.PrefixExclusive | src/App.jsx:536 | a context text of one kind never reads as another kind |
| Completion.PromptFor | src/App.jsx:522-546 | a main conversation, and any conversation without a context message, gets the default prompt |
| Completion.DetourPrompt | src/App.jsx:524-547 | a detour whose context message was written for a kind is answered with that kind's prompt |
| Completion.History | src/App.jsx:553-558 | the history is no longer than the message list |
| Completion.HistoryAppend | src/App.jsx:553-558 | history is taken message by message, in order |
| Completion.HistoryOne | src/App.jsx:554-557 | a context message or separator never reaches the API; any other message does, with its role and content |
| Completion.Payload | src/App.jsx:549-561 | the posted list is the system prompt, then the history, then the user message |
| Completion.StatusError | src/App.jsx:579-589 | a status fails exactly outside 2xx; 401, 429 and 403 have their own messages; any other failing status gives `API error: `, the status in decimal, a space and the status text |
| Completion.StatusErrorHead | src/App.jsx:579-589 | each failing status yields a message beginning as its branch's message does |
| Completion.StatusErrorDistinct | src/App.jsx:579-589 | with the same status text, two different failing statuses never give the same message |
| Completion.PayloadEvent | src/App.jsx:611-623 | a payload contributes only non-empty content and never stops the stream |
| Completion.LineEvent | src/App.jsx:604-609 | only a `data: ` line contributes text, and exactly `data: [DONE]` stops the stream |
| Completion.DataLineEvent | src/App.jsx:604-612 | a `data: ` line means its payload |
| Completion.StopIgnoresRest | src/App.jsx:607-608 | nothing after `[DONE]` is read |
| Completion.IgnoreSkipped | src/App.jsx:603-624 | a skipped line or a malformed payload leaves no trace |
| Completion.ReadTextsNonEmpty | src/App.jsx:615-618 | `onChunk` is never called with empty text |
| Completion.ReadChunk | src/App.jsx:603-625 | the loop over one chunk's lines passes on the fragments up to a stop, and keeps the returned text equal to their concatenation |
| Completion.ReadLine | src/App.jsx:604-622 | a `data: [DONE]` line ends the stream; another `data: ` line with content passes it on, keeping the returned text equal to the fragments' concatenation; any other line changes nothing |
| Completion.ReadStream | src/App.jsx:591-628 | the reader passes exactly the fragments before the first `[DONE]` to `onChunk`, and resolves to their concatenation |
| Completion.GetResponse | src/App.jsx:517-633 | a blank key throws with nothing sent; otherwise the payload is posted; a failed status throws its message with no callback; otherwise the stream's fragments are delivered and their concatenation returned |
| Completion.HelloExample | src/App.jsx:595-628 | `Hel` and `lo` followed by `[DONE]` give `Hello`, and a payload after `[DONE]` in the same chunk is not read |
| Completion.SplitLineIsLost | src/App.jsx:600-605 | each read is split on its own, so a `data: ` line cut across two reads is lost |
| Session.Abbrev | src/App.jsx:327 | a selection of at most 25 characters is shown whole; a longer one shows its first 25 characters and `...` |
| Session.DetourTitleKind | src/App.jsx:325-393 | a detour's title tells its kind |
| Session.DetourTitleShort | src/App.jsx:325-393 | two short selections of the same kind share a title only if they are equal |
| Session.DetourTitle | src/App.jsx:325-393 | a title starts with its kind's prefix and is at most 30 characters longer, whatever the selection |
| Session.DetourInput | src/App.jsx:325-393 | the draft holds the selection verbatim, inside the lookup question or inside quotes |
| Session.Recent | src/App.jsx:330-332 | at most four non-context messages, all from the active conversation, and none without one; with one, exactly the last four of its non-context messages (all of them when fewer), in order |
| Session.Seed | src/App.jsx:334-391 | a detour starts with its context message; a focus has only that; a lookup or explore then has the previous-context divider, exactly the recent messages, and its own closing divider (dictionary lookup, or continuing conversation) |
| Session.SeedContext | src/App.jsx:334-391 | a detour holds exactly one context message, the one naming its kind and term |
| Session.SeedHistory | src/App.jsx:334-391 | the API sees of a fresh lookup or explore exactly the seeded recent messages, and of a fresh focus nothing |
| Session.Detour | src/App.jsx:395-402 | a new detour has the fresh id, is not main, records its parent and kind, and is answered with its kind's system prompt |
| Session.StripQuotes | src/App.jsx:247 | the removal drops exactly the quotes: what is left holds no quote and only characters of the reply, and every other character of the reply is kept |
| Session.StripQuotesAppend | src/App.jsx:247 | the removal distributes over concatenation, so the characters kept stay in order |
| Session.TitleFrom | src/App.jsx:219-253 | the title is never empty and holds no quote; a failed title request gives `New Chat`; a reply that is not blank once trimmed and unquoted becomes exactly that text |
| Session.TitlePlain | src/App.jsx:247 | a reply without quotes is used trimmed, or replaced by `New Chat` when blank |
| Session.TitleQuirks | src/App.jsx:247 | a reply of only quotes gives `New Chat`; a space inside quotes survives the trim |
| Session.ApplyUpdate | src/App.jsx:674-733 | a callback's update keeps the message's role, id and flags |
| Session.UpdateMessages | src/App.jsx:681-685 | the update reaches exactly the messages with that id |
| Session.ChunksCompose | src/App.jsx:683 | two chunks appended in turn are their concatenation appended |
| Session.AppendNothing | src/App.jsx:683 | an empty chunk changes nothing |
| Session.FreshTarget | src/App.jsx:654-685 | a callback for a fresh placeholder id touches that placeholder and nothing else |
| Session.StreamedPlaceholder | src/App.jsx:674-703 | after the chunks and the completion, the placeholder holds exactly the streamed text and no longer streams |
| Session.EditWhere | src/App.jsx:647-651 | the edit reaches exactly the conversations with the id |
| Session.ApplyEdit | src/App.jsx:647-651 | an edit keeps a conversation's id, kind, parent and main flag, and its title unless it sets one |
| Session.RemoveConv | src/App.jsx:761 | the filter drops exactly the conversations with the id and keeps all others |
| Session.RemoveConvAppend | src/App.jsx:761 | the filter distributes over concatenation, so the conversations kept stay in order |
| Session.FindEdited | src/App.jsx:647-651 | after an edit, lookups under other ids see the same conversation, and under the edited id the edited one |
| Session.FindRemoved | src/App.jsx:761 | after removal, no conversation has the id and the others are found as before |
| Session.RemoveAppended | src/App.jsx:761 | removing a conversation appended with a fresh id gives back the list it was appended to |
| Session.EditAppended | src/App.jsx:404-419 | an edit addressed to a freshly appended conversation changes only that conversation |
| Session.ClearKeepsPrompt | src/App.jsx:750-754 | clearing keeps the system prompt a conversation is answered with and leaves it without history |
| Session.ClearDetour | src/App.jsx:752 | clearing a fresh detour leaves exactly its context message |
| Session.EditKeepsIds | src/App.jsx:647-666 | an edit keeps ids unique and below the supply |
| Session.RemoveKeepsIds | src/App.jsx:761 | removal keeps ids unique and below the supply |
| Session.AppendKeepsIds | src/App.jsx:784 | appending a conversation with a fresh id keeps ids unique and below the supply |
| Session.FirstExchangeNoHistory | src/App.jsx:644 | an exchange counts as first exactly when it is sent with no history |
| Session.Initial | src/App.jsx:199-207 | one main conversation `New Chat`, active, with an empty draft and no key; consistent |
| Session.SaveKey | src/App.jsx:258-263 | only the key changes: it becomes the trimmed text, unless that is blank |
| Session.SetInput | src/App.jsx:746-748 | only the active conversation's draft changes, and it becomes the value |
| Session.AskInFound | src/App.jsx:647-666 | only the addressed conversation gains the question and the placeholder |
| Session.AskInKeepsIds | src/App.jsx:647-666 | the question and a placeholder with the next fresh id keep ids unique and below the new supply |
| Session.Opened | src/App.jsx:404-497 | the new conversation becomes active, and a request is made exactly when it is sent at once with a key stored |
| Session.OpenDetour | src/App.jsx:319-413 | an empty selection changes nothing; a request is made exactly for a lookup with a key stored |
| Session.OpenedAppends | src/App.jsx:404-497 | the new conversation is appended after all others (with question and placeholder when sent at once); only its draft is set |
| Session.OpenDetourConsistent | src/App.jsx:319-409 | opening a detour keeps the session consistent |
| Session.OpenDetourAppends | src/App.jsx:395-434 | the detour is appended, parented to the active conversation, and made active; a lookup sent at once has an empty draft, the question and a placeholder |
| Session.CloseUndoesOpen | src/App.jsx:756-767 | closing a detour right after opening it restores the conversations, drafts and active conversation |
| Session.OpenDetourRequest | src/App.jsx:413-439 | a lookup sent at once asks with the lookup prompt, the parent's recent messages as history, and the question |
| Session.Close | src/App.jsx:756-767 | the id's conversations and draft go; all other conversations and drafts stay with their contents; the parent of the conversation found becomes active when it has one, otherwise the active id is kept |
| Session.Back | src/App.jsx:769-774 | only the active id changes, to the active conversation's parent when there is one |
| Session.NewChat | src/App.jsx:776-787 | an empty main conversation `New Chat` with a fresh id is appended and made active, with an empty draft |
| Session.ClearChat | src/App.jsx:750-754 | only the active conversation changes: its messages are cleared, except a detour's context message |
| Session.Send | src/App.jsx:635-669 | nothing happens exactly when the draft or the key is blank or there is no active conversation; otherwise a request is made for the trimmed draft |
| Session.SendEffect | src/App.jsx:642-669 | the active conversation gains the trimmed draft and a streaming placeholder with a fresh id, and its draft is emptied |
| Session.SendConsistent | src/App.jsx:635-669 | sending keeps the session consistent |
| Session.Deliver | src/App.jsx:677-688 | a callback's update reaches the addressed message of the addressed conversation and nothing else |
| Session.Retitle | src/App.jsx:706-713 | only the addressed conversation's title changes, to the one from the reply |
| Session.StreamAllEffect | src/App.jsx:674-689 | after all chunk callbacks the addressed message has their concatenation appended, and nothing else changed |
| Session.AnsweredEffect | src/App.jsx:672-733 | the placeholder ends holding the error or the streamed text, no longer streaming; the title changes only on a first exchange's success |
| Session.ExchangeEffect | src/App.jsx:635-733 | after an exchange the active conversation ends with the trimmed question and a finished answer holding exactly the text `getOpenAIResponse` resolves to, or the error; a main conversation's first successful exchange takes the generated title |
| Session.ExchangeFrame | src/App.jsx:647-733 | an exchange changes no other conversation and keeps the session consistent |
| Session.OpenedAnswered | src/App.jsx:404-492 | a conversation appended and sent at once ends active, holding the question and the finished answer or error |
| Session.LookupExchangeEffect | src/App.jsx:319-492 | a lookup with a key ends as the new active detour holding its seed, the question, and the finished answer or error |
| Session.DetourExchangeQuiet | src/App.jsx:319-514 | a detour that sends nothing (empty selection, focus or explore, or no key) ends as creating it leaves it, whatever the server would answer |
| Session.FailedPlaceholder | src/App.jsx:714-730 | a failed request turns the placeholder into a finished message holding the error prefix and the error's text |
| Client.ChatSession.constructor | src/App.jsx:199-207 | the component starts in the initial state, which is consistent |
| Client.ChatSession.SaveApiKey | src/App.jsx:258-263 | the fields become those `SaveKey` gives, and the session stays consistent |
| Client.ChatSession.HandleInputChange | src/App.jsx:746-748 | the fields become those `SetInput` gives |
| Client.ChatSession.ClearChat | src/App.jsx:750-754 | the fields become those `ClearChat` gives |
| Client.ChatSession.CloseDetourConversation | src/App.jsx:756-767 | the fields become those `Close` gives |
| Client.ChatSession.GoBackToParent | src/App.jsx:769-774 | the fields become those `Back` gives |
| Client.ChatSession.NewChat | src/App.jsx:776-787 | the fields become those `NewChat` gives |
| Client.ChatSession.Deliver | src/App.jsx:677-688 | one callback changes the fields as `Deliver` says |
| Client.ChatSession.Respond | src/App.jsx:672-733 | replaying the callbacks, then completion or error, then the title, leaves the state `Answered` gives |
| Client.ChatSession.SendMessage | src/App.jsx:635-737 | the fields become those of `Exchange`, and the list posted is the prompt, the history before the question, and the trimmed question |
| Client.ChatSession.CreateDetourConversation | src/App.jsx:319-514 | the fields become those of `DetourExchange`, and a lookup with a key posts the lookup payload for the fresh detour |

## Left out

- The JSX itself is left out: class names, keys other than the spacer test, icons, the copy-to-clipboard button, the settings panel, the key dialog (`changeApiKey`), the sidebar and tooltips.
- Selection handling (`handleTextSelection`, `setSelectedText`, the tooltip position) is not modelled. The selected text is a parameter of `OpenDetour`.
- Scrolling, focus timers and `isLoading` are not modelled. They change no modelled state.
- `Date.now()` is replaced by the fresh-id supply `clock`. Conversation ids are numbers, not the strings `main`, `main-…` and `detour-…`.
- Strings are sequences of code points. JavaScript strings are UTF-16, so `substring(0, 25)` and `length` differ for characters outside the Basic Multilingual Plane.
- The network is a parameter: the HTTP status, the status text, the decoded body chunks, and the title request's reply.
- `JSON.parse` of a stream payload, with reading `choices[0].delta.content`, is the function parameter `parse`.
- `Completion.ReadContext`: `JSON.parse` is not modelled in full. A text that begins with a kind's `type` field reads as that kind, `{}` reads as an object without `type`, and any other text reads as a parse error, which selects the explore prompt as the `catch` does. This agrees with `JSON.parse` on every context text the client writes; it differs only on texts the client never writes, such as other JSON objects or a `type` field that is not the first key.
- Only the `messages` field of the request body is modelled. `model`, `max_tokens`, `temperature`, `stream`, the headers and the URL are not.
- The title request's payload is not modelled, including `substring(0, 200)` of the answer. Neither is its HTTP call. Its outcome is the parameter `titleReply`.
- Network failures part-way through a stream are not modelled. A failed status throws before any callback.
- Completion.GetResponse: a `fetch` that rejects before any status arrives (a network error, say; src/App.jsx:564 and 629-631) is not modelled. No choice of `status`, `statusText` and `chunks` gives that outcome. In the source it reaches the same `catch` as a failed status, so the placeholder ends holding `Sorry, I encountered an error: ` and the rejection's message. `Client.ChatSession.Respond` with `Failed(message)` and no calls gives exactly that state.
- Session.Exchange: for the same reason, has no outcome for a `fetch` that rejects before any status; neither do `Session.DetourExchange`, `Client.ChatSession.SendMessage` and `Client.ChatSession.CreateDetourConversation` (src/App.jsx:469-489 and 714-733).
- Streaming callbacks do not interleave with other user events in the model. `Client.ChatSession.Respond` replays the `onChunk` calls after `getOpenAIResponse` has returned them, then the completion or the error. React's batching of `setConversations` updates is not modelled.
- A detour type other than `lookup`, `focus` or `explore` gets explore's content in the source but keeps its own `type` string. `Chat.Kind` has only the three kinds.
- `alert`, `console.error` and the text `Please enter your OpenAI API key first` are not modelled. A blank key makes `Session.Send` do nothing.
- Session.Send: in the source, sending while the active id names no conversation throws before any state changes. The model returns the state unchanged with no request.
- Completion.GetResponse: the missing-key branch is modelled but never reached from the session. `sendMessage` checks the key first, and the lookup auto-send only runs with a key.
