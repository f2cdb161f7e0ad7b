/** Inline formatting of one line of chat output (src/App.jsx, `parseInlineMarkdown` and
    `parseTextFormatting`). The three regular expressions of the source are written out
    as leftmost-match searches:
      `([^`]+)`       a backtick, one or more non-backticks, a backtick (inline code)
      \*\*([^*]+)\*\*  two stars, one or more non-stars, two stars (bold)
      \*([^*]+)\*      a star, one or more non-stars, a star (italic)
    The scan takes the leftmost code span first; the text before it and the text after
    the last one are scanned for bold, then italic, again leftmost first. */
module Inline {
  import opened Options

  /** What `parseTextFormatting` emits: a plain `<span>`, a `<strong>` or an `<em>`. */
  datatype Span = Plain(text: string) | Strong(text: string) | Em(text: string)

  /** What `parseInlineMarkdown` emits: the spans of a formatted stretch, or a `<code>`. */
  datatype Piece = Formatted(spans: seq<Span>) | Code(text: string)

  // ---------------------------------------------------------------------------------
  // The patterns, as predicates on a match position

  /** `d([^d]+)d` matches `s` at `p`, its closing delimiter at `q`. */
  predicate DelimitedAt(s: string, d: char, p: nat, q: nat) {
    p + 2 <= q < |s| && s[p] == d && s[q] == d && forall k :: p < k < q ==> s[k] != d
  }

  /** `\*\*([^*]+)\*\*` matches `s` at `p`, its closing `**` at `q`. */
  predicate BoldAt(s: string, p: nat, q: nat) {
    p + 3 <= q && q + 1 < |s| && s[p] == '*' && s[p + 1] == '*' && s[q] == '*' && s[q + 1] == '*'
    && forall k :: p + 2 <= k < q ==> s[k] != '*'
  }

  ghost predicate HasDelimited(s: string, d: char) {
    exists p: nat, q: nat :: DelimitedAt(s, d, p, q)
  }

  ghost predicate HasBold(s: string) {
    exists p: nat, q: nat :: BoldAt(s, p, q)
  }

  // ---------------------------------------------------------------------------------
  // The regex engine: leftmost-match searches

  /** The outcome of a regex search: no match, or a match from `start` whose closing
      delimiter is at `stop`. */
  datatype Match = NoMatch | Found(start: nat, stop: nat)

  /** First index at or after `from` holding `c`. */
  function NextIndex(s: string, c: char, from: nat): (r: Option<nat>)
    requires from <= |s|
    ensures r.Some? ==> from <= r.value < |s|
    decreases |s| - from
  {
    if from == |s| then None
    else if s[from] == c then Some(from)
    else NextIndex(s, c, from + 1)
  }

  /** `NextIndex` finds an occurrence of `c` and none before it, or reports that there is
      none from `from` on. */
  lemma {:induction false} NextIndexCorrect(s: string, c: char, from: nat)
    requires from <= |s|
    ensures NextIndex(s, c, from).Some? ==> s[NextIndex(s, c, from).value] == c
    ensures NextIndex(s, c, from).Some? ==> forall k :: from <= k < NextIndex(s, c, from).value ==> s[k] != c
    ensures NextIndex(s, c, from).None? ==> forall k :: from <= k < |s| ==> s[k] != c
    decreases |s| - from
  {
    if from < |s| && s[from] != c {
      NextIndexCorrect(s, c, from + 1);
    }
  }

  /** Leftmost match of `d([^d]+)d` starting at or after `from` (leftmost: see
      `FindDelimitedCorrect`). */
  function FindDelimited(s: string, d: char, from: nat): (r: Match)
    requires from <= |s|
    ensures r.Found? ==> from <= r.start && r.start + 2 <= r.stop < |s|
    decreases |s| - from
  {
    if from == |s| then NoMatch
    else if s[from] != d then FindDelimited(s, d, from + 1)
    else
      var close := NextIndex(s, d, from + 1);
      if close.None? then NoMatch
      else if from + 2 <= close.value then Found(from, close.value)
      else FindDelimited(s, d, from + 1)
  }

  /** Leftmost match of `\*\*([^*]+)\*\*` starting at or after `from` (leftmost: see
      `FindBoldCorrect`). */
  function FindBold(s: string, from: nat): (r: Match)
    requires from <= |s|
    ensures r.Found? ==> from <= r.start && r.start + 3 <= r.stop && r.stop + 1 < |s|
    decreases |s| - from
  {
    if from + 1 >= |s| then NoMatch
    else if s[from] != '*' || s[from + 1] != '*' then FindBold(s, from + 1)
    else
      var close := NextIndex(s, '*', from + 2);
      if close.None? then NoMatch
      else if from + 3 <= close.value && close.value + 1 < |s| && s[close.value + 1] == '*' then
        Found(from, close.value)
      else FindBold(s, from + 1)
  }

  /** What `FindDelimited` finds is a match, and no match starts before it; when it finds
      nothing, the pattern does not occur from `from` on. */
  lemma {:induction false} FindDelimitedCorrect(s: string, d: char, from: nat)
    requires from <= |s|
    ensures FindDelimited(s, d, from).Found? ==>
      DelimitedAt(s, d, FindDelimited(s, d, from).start, FindDelimited(s, d, from).stop)
    ensures FindDelimited(s, d, from).Found? ==>
      forall p: nat, q: nat :: from <= p < FindDelimited(s, d, from).start ==> !DelimitedAt(s, d, p, q)
    ensures FindDelimited(s, d, from).NoMatch? ==>
      forall p: nat, q: nat :: from <= p ==> !DelimitedAt(s, d, p, q)
    decreases |s| - from
  {
    if from < |s| {
      FindDelimitedCorrect(s, d, from + 1);
      var close := NextIndex(s, d, from + 1);
      NextIndexCorrect(s, d, from + 1);
      forall q: nat | DelimitedAt(s, d, from, q) ensures close.Some? && from + 2 <= close.value {
        assert s[q] == d;
      }
    }
  }

  /** What `FindBold` finds is a match, and no match starts before it; when it finds
      nothing, the pattern does not occur from `from` on. */
  lemma {:induction false} FindBoldCorrect(s: string, from: nat)
    requires from <= |s|
    ensures FindBold(s, from).Found? ==> BoldAt(s, FindBold(s, from).start, FindBold(s, from).stop)
    ensures FindBold(s, from).Found? ==>
      forall p: nat, q: nat :: from <= p < FindBold(s, from).start ==> !BoldAt(s, p, q)
    ensures FindBold(s, from).NoMatch? ==>
      forall p: nat, q: nat :: from <= p ==> !BoldAt(s, p, q)
    decreases |s| - from
  {
    if from + 1 < |s| {
      FindBoldCorrect(s, from + 1);
      var close := NextIndex(s, '*', from + 2);
      NextIndexCorrect(s, '*', from + 2);
      forall q: nat | BoldAt(s, from, q)
        ensures close.Some? && close.value == q
      {
        assert s[q] == '*';
      }
    }
  }

  // ---------------------------------------------------------------------------------
  // Reference definitions of the two scanning loops, one pass of the loop at a time

  function PlainIfAny(t: string): (r: seq<Span>)
    ensures |r| <= 1 && (r == [] <==> t == [])
  {
    if t == [] then [] else [Plain(t)]
  }

  predicate WellFormedSpan(sp: Span) {
    match sp
    case Plain(t) => t != []
    case Strong(t) => t != [] && '*' !in t
    case Em(t) => t != [] && '*' !in t
  }

  predicate WellFormedPiece(pc: Piece) {
    match pc
    case Formatted(sps) => sps != [] && forall k :: 0 <= k < |sps| ==> WellFormedSpan(sps[k])
    case Code(t) => t != [] && '`' !in t
  }

  /** The spans one pass of `parseTextFormatting`'s loop emits: with a bold match, the
      text before it as one plain span (even if it holds an italic match) and the bold
      content; else with an italic match, likewise; else all of `s` as one plain span. */
  function FormatHead(s: string): seq<Span>
    requires s != []
  {
    var bold := FindBold(s, 0);
    if bold.Found? then PlainIfAny(s[..bold.start]) + [Strong(s[bold.start + 2..bold.stop])]
    else
      var italic := FindDelimited(s, '*', 0);
      if italic.Found? then PlainIfAny(s[..italic.start]) + [Em(s[italic.start + 1..italic.stop])]
      else [Plain(s)]
  }

  /** What remains for the next pass: the text after the match, or nothing. */
  function FormatRest(s: string): (r: string)
    requires s != []
    ensures |r| < |s|
  {
    var bold := FindBold(s, 0);
    if bold.Found? then s[bold.stop + 2..]
    else
      var italic := FindDelimited(s, '*', 0);
      if italic.Found? then s[italic.stop + 1..] else []
  }

  /** All spans `parseTextFormatting(s)` emits. */
  function FormatSpec(s: string): seq<Span>
    decreases |s|
  {
    if s == [] then [] else FormatHead(s) + FormatSpec(FormatRest(s))
  }

  /** What `parseInlineMarkdown` cuts a line into before any formatting: stretches of
      text, which go to `parseTextFormatting`, and the raw contents of code spans. */
  datatype Stretch = TextRun(text: string) | CodeRun(text: string)

  /** The stretches one pass of `parseInlineMarkdown`'s loop handles: with a code-span
      match, the text before it (if any) and the span's content; else the whole text. */
  function StretchHead(s: string): seq<Stretch>
    requires s != []
  {
    var code := FindDelimited(s, '`', 0);
    if code.Found? then
      (if code.start > 0 then [TextRun(s[..code.start])] else []) + [CodeRun(s[code.start + 1..code.stop])]
    else [TextRun(s)]
  }

  function StretchRest(s: string): (r: string)
    requires s != []
    ensures |r| < |s|
  {
    var code := FindDelimited(s, '`', 0);
    if code.Found? then s[code.stop + 1..] else []
  }

  /** All stretches of `s`, in order. */
  function Stretches(s: string): seq<Stretch>
    decreases |s|
  {
    if s == [] then [] else StretchHead(s) + Stretches(StretchRest(s))
  }

  /** The element `parseInlineMarkdown` emits for a stretch. */
  function Render(st: Stretch): Piece {
    match st
    case TextRun(t) => Formatted(FormatSpec(t))
    case CodeRun(t) => Code(t)
  }

  function RenderAll(sts: seq<Stretch>): (r: seq<Piece>)
    ensures |r| == |sts|
  {
    if sts == [] then [] else RenderAll(sts[..|sts| - 1]) + [Render(sts[|sts| - 1])]
  }

  /** All pieces `parseInlineMarkdown(s)` emits. */
  function InlineSpec(s: string): seq<Piece> {
    RenderAll(Stretches(s))
  }

  /** A pass keeps "handled so far, then everything still to come" equal to the whole. */
  lemma ScanStep<T>(done: seq<T>, head: seq<T>, later: seq<T>, whole: seq<T>)
    requires done + (head + later) == whole
    ensures done + head + later == whole
  {
  }

  lemma RenderSnoc(sts: seq<Stretch>, st: Stretch)
    ensures RenderAll(sts + [st]) == RenderAll(sts) + [Render(st)]
  {
    assert (sts + [st])[..|sts|] == sts;
  }

  lemma {:induction false} RenderAppend(a: seq<Stretch>, b: seq<Stretch>)
    ensures RenderAll(a + b) == RenderAll(a) + RenderAll(b)
    decreases |b|
  {
    if b != [] {
      var init, last := b[..|b| - 1], b[|b| - 1];
      assert a + b == (a + init) + [last];
      RenderSnoc(a + init, last);
      RenderAppend(a, init);
      RenderSnoc(init, last);
      assert init + [last] == b;
    } else {
      assert a + b == a;
    }
  }

  /** Rendering a line is rendering the first pass's stretches, then the rest. */
  lemma InlineUnfold(s: string)
    requires s != []
    ensures InlineSpec(s) == RenderAll(StretchHead(s)) + InlineSpec(StretchRest(s))
  {
    RenderAppend(StretchHead(s), Stretches(StretchRest(s)));
  }

  /** The `k`-th piece is the rendering of the `k`-th stretch. */
  lemma {:induction false} RenderAt(sts: seq<Stretch>, k: nat)
    requires k < |sts|
    ensures RenderAll(sts)[k] == Render(sts[k])
  {
    if k < |sts| - 1 {
      RenderAt(sts[..|sts| - 1], k);
    }
  }

  // ---------------------------------------------------------------------------------
  // The two loops. Each pass of a loop body is its own method, so that the loop itself
  // only keeps "emitted so far, then everything still to come".

  /** The body of `parseTextFormatting`'s loop on a non-empty `remaining`: the spans it
      pushes, and the text it continues with, or `None` where it breaks out. */
  method FormatPass(remaining: string) returns (emitted: seq<Span>, next: Option<string>)
    requires remaining != []
    ensures emitted == FormatHead(remaining)
    ensures next.Some? ==> next.value == FormatRest(remaining)
    ensures next.None? ==> FormatRest(remaining) == []
  {
    emitted := [];
    var bold := FindBold(remaining, 0);
    if bold.Found? {
      var beforeBold := remaining[..bold.start];
      if beforeBold != [] {
        emitted := emitted + [Plain(beforeBold)];
      }
      assert emitted == PlainIfAny(beforeBold);
      emitted := emitted + [Strong(remaining[bold.start + 2..bold.stop])];
      next := Some(remaining[bold.stop + 2..]);
      return;
    }
    var italic := FindDelimited(remaining, '*', 0);
    if italic.Found? {
      var beforeItalic := remaining[..italic.start];
      if beforeItalic != [] {
        emitted := emitted + [Plain(beforeItalic)];
      }
      assert emitted == PlainIfAny(beforeItalic);
      emitted := emitted + [Em(remaining[italic.start + 1..italic.stop])];
      next := Some(remaining[italic.stop + 1..]);
      return;
    }
    emitted := emitted + [Plain(remaining)];
    next := None;
  }

  /** `parseTextFormatting`: repeatedly match bold, else italic, on what remains. */
  method ParseTextFormatting(text: string) returns (parts: seq<Span>)
    ensures parts == FormatSpec(text)
  {
    parts := [];
    var remaining := text;
    while |remaining| > 0
      invariant parts + FormatSpec(remaining) == FormatSpec(text)
      decreases |remaining|
    {
      var emitted, next := FormatPass(remaining);
      ScanStep(parts, emitted, FormatSpec(FormatRest(remaining)), FormatSpec(text));
      parts := parts + emitted;
      if next.None? {
        break;
      }
      remaining := next.value;
    }
  }

  /** One pass of `parseInlineMarkdown` where a code span matches from `start` to `stop`. */
  lemma StretchFound(s: string, start: nat, stop: nat)
    requires s != [] && FindDelimited(s, '`', 0) == Found(start, stop)
    ensures StretchHead(s) == (if start > 0 then [TextRun(s[..start])] else []) + [CodeRun(s[start + 1..stop])]
    ensures StretchRest(s) == s[stop + 1..]
  {
  }

  /** One pass of `parseInlineMarkdown` where no code span matches. */
  lemma StretchNoMatch(s: string)
    requires s != [] && FindDelimited(s, '`', 0).NoMatch?
    ensures StretchHead(s) == [TextRun(s)] && StretchRest(s) == []
  {
  }

  /** The pieces a pass pushes when a code span matches from `start` to `stop`: the
      formatted text before it, if any, then the span's content as code. */
  method CodeSpanPass(currentText: string, start: nat, stop: nat) returns (emitted: seq<Piece>)
    requires currentText != [] && FindDelimited(currentText, '`', 0) == Found(start, stop)
    ensures emitted == RenderAll(StretchHead(currentText))
  {
    StretchFound(currentText, start, stop);
    emitted := [];
    var beforeCode := currentText[..start];
    ghost var textPart: seq<Stretch> := if start > 0 then [TextRun(beforeCode)] else [];
    if beforeCode != [] {
      var formatted := ParseTextFormatting(beforeCode);
      emitted := emitted + [Formatted(formatted)];
      RenderSnoc([], TextRun(beforeCode));
    }
    assert emitted == RenderAll(textPart);
    var code := currentText[start + 1..stop];
    emitted := emitted + [Code(code)];
    RenderSnoc(textPart, CodeRun(code));
  }

  /** The piece a pass pushes when no code span matches: the whole text, formatted. */
  method PlainPass(currentText: string) returns (emitted: seq<Piece>)
    requires currentText != [] && FindDelimited(currentText, '`', 0).NoMatch?
    ensures emitted == RenderAll(StretchHead(currentText))
  {
    StretchNoMatch(currentText);
    var formatted := ParseTextFormatting(currentText);
    emitted := [Formatted(formatted)];
    RenderSnoc([], TextRun(currentText));
  }

  /** The body of `parseInlineMarkdown`'s loop on a non-empty `currentText`: the pieces
      it pushes, and the text it continues with, or `None` where it breaks out. */
  method InlinePass(currentText: string) returns (emitted: seq<Piece>, next: Option<string>)
    requires currentText != []
    ensures emitted == RenderAll(StretchHead(currentText))
    ensures next.Some? ==> next.value == StretchRest(currentText)
    ensures next.None? ==> StretchRest(currentText) == []
  {
    var codeMatch := FindDelimited(currentText, '`', 0);
    if codeMatch.Found? {
      emitted := CodeSpanPass(currentText, codeMatch.start, codeMatch.stop);
      StretchFound(currentText, codeMatch.start, codeMatch.stop);
      next := Some(currentText[codeMatch.stop + 1..]);
    } else {
      emitted := PlainPass(currentText);
      StretchNoMatch(currentText);
      next := None;
    }
  }

  /** `parseInlineMarkdown`: repeatedly match a code span on what remains. */
  method ParseInlineMarkdown(text: string) returns (parts: seq<Piece>)
    ensures parts == InlineSpec(text)
  {
    parts := [];
    var currentText := text;
    while |currentText| > 0
      invariant parts + InlineSpec(currentText) == InlineSpec(text)
      decreases |currentText|
    {
      var emitted, next := InlinePass(currentText);
      InlineUnfold(currentText);
      ScanStep(parts, emitted, InlineSpec(StretchRest(currentText)), InlineSpec(text));
      parts := parts + emitted;
      if next.None? {
        break;
      }
      currentText := next.value;
    }
  }

  // ---------------------------------------------------------------------------------
  // Putting the delimiters back

  function SpanSource(sp: Span): string {
    match sp
    case Plain(t) => t
    case Strong(t) => "**" + t + "**"
    case Em(t) => "*" + t + "*"
  }

  function SpansSource(sps: seq<Span>): string {
    if sps == [] then "" else SpanSource(sps[0]) + SpansSource(sps[1..])
  }

  function PieceSource(pc: Piece): string {
    match pc
    case Formatted(sps) => SpansSource(sps)
    case Code(t) => "`" + t + "`"
  }

  function PiecesSource(ps: seq<Piece>): string {
    if ps == [] then "" else PieceSource(ps[0]) + PiecesSource(ps[1..])
  }

  lemma {:induction false} SpansSourceAppend(a: seq<Span>, b: seq<Span>)
    ensures SpansSource(a + b) == SpansSource(a) + SpansSource(b)
  {
    if a != [] {
      assert (a + b)[0] == a[0] && (a + b)[1..] == a[1..] + b;
      SpansSourceAppend(a[1..], b);
    } else {
      assert a + b == b;
    }
  }

  lemma {:induction false} PiecesSourceAppend(a: seq<Piece>, b: seq<Piece>)
    ensures PiecesSource(a + b) == PiecesSource(a) + PiecesSource(b)
  {
    if a != [] {
      assert (a + b)[0] == a[0] && (a + b)[1..] == a[1..] + b;
      PiecesSourceAppend(a[1..], b);
    } else {
      assert a + b == b;
    }
  }

  /** The source of a pass that matched: the plain text before the match, then the match. */
  lemma SourceOfMatch(pre: string, sp: Span)
    ensures SpansSource(PlainIfAny(pre) + [sp]) == pre + SpanSource(sp)
  {
    SpansSourceAppend(PlainIfAny(pre), [sp]);
    assert SpansSource([sp]) == SpanSource(sp) + SpansSource([]);
  }

  /** A bold match splits its text into before, `**`, content, `**`, after. */
  lemma BoldReassemble(s: string, p: nat, q: nat)
    requires BoldAt(s, p, q)
    ensures s == s[..p] + SpanSource(Strong(s[p + 2..q])) + s[q + 2..]
  {
    assert s[p..p + 2] == "**" && s[q..q + 2] == "**";
    assert s == s[..p] + (s[p..p + 2] + s[p + 2..q] + s[q..q + 2]) + s[q + 2..];
  }

  /** A single-delimiter match splits its text into before, delimiter, content,
      delimiter, after. */
  lemma DelimitedReassemble(s: string, d: char, p: nat, q: nat)
    requires DelimitedAt(s, d, p, q)
    ensures s == s[..p] + ([d] + s[p + 1..q] + [d]) + s[q + 1..]
  {
    assert s == s[..p] + ([s[p]] + s[p + 1..q] + [s[q]]) + s[q + 1..];
  }

  /** A pass that matched bold at `p`..`q` loses and invents nothing. */
  lemma BoldHeadSource(s: string, p: nat, q: nat)
    requires s != [] && FindBold(s, 0) == Found(p, q) && BoldAt(s, p, q)
    ensures SpansSource(FormatHead(s)) + FormatRest(s) == s
  {
    assert FormatHead(s) == PlainIfAny(s[..p]) + [Strong(s[p + 2..q])];
    assert FormatRest(s) == s[q + 2..];
    SourceOfMatch(s[..p], Strong(s[p + 2..q]));
    BoldReassemble(s, p, q);
  }

  /** A pass that matched italic at `p`..`q` loses and invents nothing. */
  lemma ItalicHeadSource(s: string, p: nat, q: nat)
    requires s != [] && FindBold(s, 0).NoMatch?
    requires FindDelimited(s, '*', 0) == Found(p, q) && DelimitedAt(s, '*', p, q)
    ensures SpansSource(FormatHead(s)) + FormatRest(s) == s
  {
    assert FormatHead(s) == PlainIfAny(s[..p]) + [Em(s[p + 1..q])];
    assert FormatRest(s) == s[q + 1..];
    SourceOfMatch(s[..p], Em(s[p + 1..q]));
    DelimitedReassemble(s, '*', p, q);
    assert SpanSource(Em(s[p + 1..q])) == ['*'] + s[p + 1..q] + ['*'];
  }

  /** One pass of `parseTextFormatting` loses and invents nothing: the source of what it
      emits, followed by what remains, is the text it started from. */
  lemma FormatHeadSource(s: string)
    requires s != []
    ensures SpansSource(FormatHead(s)) + FormatRest(s) == s
  {
    var bold := FindBold(s, 0);
    FindBoldCorrect(s, 0);
    if bold.Found? {
      BoldHeadSource(s, bold.start, bold.stop);
    } else {
      var italic := FindDelimited(s, '*', 0);
      FindDelimitedCorrect(s, '*', 0);
      if italic.Found? {
        ItalicHeadSource(s, italic.start, italic.stop);
      } else {
        assert FormatHead(s) == [Plain(s)] && FormatRest(s) == [];
        assert SpansSource([Plain(s)]) == s + SpansSource([]);
      }
    }
  }

  /** Putting the stars back around bold and italic spans and concatenating reproduces
      the formatted text exactly. */
  lemma {:induction false} FormatRoundTrip(s: string)
    ensures SpansSource(FormatSpec(s)) == s
    decreases |s|
  {
    if s != [] {
      FormatRoundTrip(FormatRest(s));
      SpansSourceAppend(FormatHead(s), FormatSpec(FormatRest(s)));
      FormatHeadSource(s);
    }
  }

  function StretchSource(st: Stretch): string {
    match st
    case TextRun(t) => t
    case CodeRun(t) => "`" + t + "`"
  }

  function StretchesSource(sts: seq<Stretch>): string {
    if sts == [] then "" else StretchSource(sts[0]) + StretchesSource(sts[1..])
  }

  lemma {:induction false} StretchesSourceAppend(a: seq<Stretch>, b: seq<Stretch>)
    ensures StretchesSource(a + b) == StretchesSource(a) + StretchesSource(b)
  {
    if a != [] {
      assert (a + b)[0] == a[0] && (a + b)[1..] == a[1..] + b;
      StretchesSourceAppend(a[1..], b);
    } else {
      assert a + b == b;
    }
  }

  lemma StretchesSourceOne(a: Stretch)
    ensures StretchesSource([a]) == StretchSource(a)
  {
    assert StretchesSource([a]) == StretchSource(a) + StretchesSource([]);
  }

  lemma StretchesSourcePair(a: Stretch, b: Stretch)
    ensures StretchesSource([a, b]) == StretchSource(a) + StretchSource(b)
  {
    assert [a, b][1..] == [b];
    StretchesSourceOne(b);
  }

  /** A pass that matched a code span at `p`..`q` loses and invents nothing. */
  lemma CodeHeadSource(s: string, p: nat, q: nat)
    requires s != [] && FindDelimited(s, '`', 0) == Found(p, q) && DelimitedAt(s, '`', p, q)
    ensures StretchesSource(StretchHead(s)) + StretchRest(s) == s
  {
    StretchFound(s, p, q);
    DelimitedReassemble(s, '`', p, q);
    var code := CodeRun(s[p + 1..q]);
    assert StretchSource(code) == ['`'] + s[p + 1..q] + ['`'];
    if p > 0 {
      assert StretchHead(s) == [TextRun(s[..p]), code];
      StretchesSourcePair(TextRun(s[..p]), code);
    } else {
      assert StretchHead(s) == [code];
      StretchesSourceOne(code);
      assert s[..p] == [];
    }
  }

  /** One pass of `parseInlineMarkdown` loses and invents nothing. */
  lemma StretchHeadSource(s: string)
    requires s != []
    ensures StretchesSource(StretchHead(s)) + StretchRest(s) == s
  {
    var code := FindDelimited(s, '`', 0);
    FindDelimitedCorrect(s, '`', 0);
    if code.Found? {
      CodeHeadSource(s, code.start, code.stop);
    } else {
      StretchNoMatch(s);
      assert StretchesSource([TextRun(s)]) == s + StretchesSource([]);
    }
  }

  /** Cutting a line into stretches and putting the backticks back gives the line. */
  lemma {:induction false} StretchesRoundTrip(s: string)
    ensures StretchesSource(Stretches(s)) == s
    decreases |s|
  {
    if s != [] {
      StretchesRoundTrip(StretchRest(s));
      StretchesSourceAppend(StretchHead(s), Stretches(StretchRest(s)));
      StretchHeadSource(s);
    }
  }

  /** Rendering one stretch keeps its source. */
  lemma RenderOneSource(st: Stretch)
    ensures PiecesSource([Render(st)]) == StretchesSource([st])
  {
    assert PiecesSource([Render(st)]) == PieceSource(Render(st)) + PiecesSource([]);
    assert StretchesSource([st]) == StretchSource(st) + StretchesSource([]);
    if st.TextRun? {
      FormatRoundTrip(st.text);
    }
  }

  /** Rendering keeps the source of every stretch: formatting loses no character. */
  lemma {:induction false} RenderSource(sts: seq<Stretch>)
    ensures PiecesSource(RenderAll(sts)) == StretchesSource(sts)
  {
    if sts != [] {
      var init, last := sts[..|sts| - 1], sts[|sts| - 1];
      assert init + [last] == sts;
      RenderSource(init);
      RenderSnoc(init, last);
      PiecesSourceAppend(RenderAll(init), [Render(last)]);
      StretchesSourceAppend(init, [last]);
      RenderOneSource(last);
    }
  }

  /** Putting the backticks back around code spans, and the stars back inside the
      formatted stretches, reproduces the line exactly. */
  lemma InlineRoundTrip(s: string)
    ensures PiecesSource(InlineSpec(s)) == s
  {
    RenderSource(Stretches(s));
    StretchesRoundTrip(s);
  }

  // ---------------------------------------------------------------------------------
  // Shape of the output

  predicate WellFormedSpans(sps: seq<Span>) {
    forall k :: 0 <= k < |sps| ==> WellFormedSpan(sps[k])
  }

  predicate WellFormedPieces(ps: seq<Piece>) {
    forall k :: 0 <= k < |ps| ==> WellFormedPiece(ps[k])
  }

  /** The contents of a match hold no delimiter. */
  lemma BodyFree(s: string, d: char, p: nat, q: nat)
    requires p <= q <= |s|
    requires forall k :: p <= k < q ==> s[k] != d
    ensures d !in s[p..q]
  {
    forall k | 0 <= k < q - p ensures s[p..q][k] != d {
      assert s[p..q][k] == s[p + k];
    }
  }

  /** One pass emits well-formed spans, and at least one. */
  lemma FormatHeadWellFormed(s: string)
    requires s != []
    ensures FormatHead(s) != [] && WellFormedSpans(FormatHead(s))
  {
    var bold := FindBold(s, 0);
    FindBoldCorrect(s, 0);
    if bold.Found? {
      BodyFree(s, '*', bold.start + 2, bold.stop);
    } else {
      var italic := FindDelimited(s, '*', 0);
      FindDelimitedCorrect(s, '*', 0);
      if italic.Found? {
        BodyFree(s, '*', italic.start + 1, italic.stop);
      }
    }
  }

  /** No span `parseTextFormatting` emits is empty, and no bold or italic content holds
      a star; a non-empty text yields at least one span. */
  lemma {:induction false} FormatWellFormed(s: string)
    ensures s != [] ==> FormatSpec(s) != []
    ensures WellFormedSpans(FormatSpec(s))
    decreases |s|
  {
    if s != [] {
      FormatHeadWellFormed(s);
      FormatWellFormed(FormatRest(s));
    }
  }

  predicate WellFormedStretch(st: Stretch) {
    match st
    case TextRun(t) => t != []
    case CodeRun(t) => t != [] && '`' !in t
  }

  predicate WellFormedStretches(sts: seq<Stretch>) {
    forall k :: 0 <= k < |sts| ==> WellFormedStretch(sts[k])
  }

  /** One pass of `parseInlineMarkdown` cuts out well-formed stretches. */
  lemma StretchHeadWellFormed(s: string)
    requires s != []
    ensures WellFormedStretches(StretchHead(s))
  {
    var code := FindDelimited(s, '`', 0);
    FindDelimitedCorrect(s, '`', 0);
    if code.Found? {
      BodyFree(s, '`', code.start + 1, code.stop);
    }
  }

  /** No stretch is empty and no code content holds a backtick. */
  lemma {:induction false} StretchesWellFormed(s: string)
    ensures WellFormedStretches(Stretches(s))
    decreases |s|
  {
    if s != [] {
      StretchHeadWellFormed(s);
      StretchesWellFormed(StretchRest(s));
    }
  }

  /** Every piece `parseInlineMarkdown` emits is non-empty and its spans are well formed;
      code content holds no backtick. */
  lemma InlineWellFormed(s: string)
    ensures WellFormedPieces(InlineSpec(s))
  {
    var sts := Stretches(s);
    StretchesWellFormed(s);
    forall k | 0 <= k < |sts| ensures WellFormedPiece(InlineSpec(s)[k]) {
      RenderAt(sts, k);
      if sts[k].TextRun? {
        FormatWellFormed(sts[k].text);
      }
    }
  }

  // ---------------------------------------------------------------------------------
  // First-match properties, stated with the patterns rather than the searches

  /** A match of a single-delimiter pattern at `p` ends at the first delimiter after it. */
  lemma DelimitedEnd(s: string, d: char, p: nat, q: nat, q': nat)
    requires DelimitedAt(s, d, p, q) && DelimitedAt(s, d, p, q')
    ensures q == q'
  {
  }

  /** A bold match at `p` ends at the first star after its opening `**`. */
  lemma BoldEnd(s: string, p: nat, q: nat, q': nat)
    requires BoldAt(s, p, q) && BoldAt(s, p, q')
    ensures q == q'
  {
  }

  /** The leftmost code span is taken first: the text before it becomes one stretch for
      bold and italic, the span's content is kept raw, and scanning resumes after it. */
  lemma LeftmostCodeSpanFirst(s: string, p: nat, q: nat)
    requires DelimitedAt(s, '`', p, q)
    requires forall p': nat, q': nat :: p' < p ==> !DelimitedAt(s, '`', p', q')
    ensures StretchHead(s) == (if p > 0 then [TextRun(s[..p])] else []) + [CodeRun(s[p + 1..q])]
    ensures StretchRest(s) == s[q + 1..]
  {
    assert FindDelimited(s, '`', 0) == Found(p, q) by {
      FindDelimitedCorrect(s, '`', 0);
      var m := FindDelimited(s, '`', 0);
      DelimitedEnd(s, '`', p, q, m.stop);
    }
  }

  /** Inside `parseTextFormatting` the leftmost bold match wins over any italic match,
      even one further left, and the text before it is emitted as one plain span. */
  lemma LeftmostBoldFirst(s: string, p: nat, q: nat)
    requires BoldAt(s, p, q)
    requires forall p': nat, q': nat :: p' < p ==> !BoldAt(s, p', q')
    ensures FormatHead(s) == PlainIfAny(s[..p]) + [Strong(s[p + 2..q])]
    ensures FormatRest(s) == s[q + 2..]
  {
    assert FindBold(s, 0) == Found(p, q) by {
      FindBoldCorrect(s, 0);
      var m := FindBold(s, 0);
      BoldEnd(s, p, q, m.stop);
    }
  }

  /** Without any bold match, the leftmost italic match is taken. */
  lemma LeftmostItalicWithoutBold(s: string, p: nat, q: nat)
    requires forall p': nat, q': nat :: !BoldAt(s, p', q')
    requires DelimitedAt(s, '*', p, q)
    requires forall p': nat, q': nat :: p' < p ==> !DelimitedAt(s, '*', p', q')
    ensures FormatHead(s) == PlainIfAny(s[..p]) + [Em(s[p + 1..q])]
    ensures FormatRest(s) == s[q + 1..]
  {
    assert FindBold(s, 0) == NoMatch by {
      FindBoldCorrect(s, 0);
    }
    assert FindDelimited(s, '*', 0) == Found(p, q) by {
      FindDelimitedCorrect(s, '*', 0);
      var m := FindDelimited(s, '*', 0);
      DelimitedEnd(s, '*', p, q, m.stop);
    }
  }

  /** Text holding neither pattern, bold or italic, comes out as one plain span. */
  lemma NoFormattingUnchanged(s: string)
    requires s != []
    requires forall p: nat, q: nat :: !BoldAt(s, p, q)
    requires forall p: nat, q: nat :: !DelimitedAt(s, '*', p, q)
    ensures FormatSpec(s) == [Plain(s)]
  {
    FindBoldCorrect(s, 0);
    FindDelimitedCorrect(s, '*', 0);
    assert FormatSpec(s) == FormatHead(s) + FormatSpec([]);
  }

  /** A prefix that ends where the leftmost match begins holds no match of its own. */
  lemma NoMatchInPrefix(s: string, d: char, p: nat)
    requires p <= |s|
    requires forall p': nat, q': nat :: p' < p ==> !DelimitedAt(s, d, p', q')
    ensures !HasDelimited(s[..p], d)
  {
    forall p': nat, q': nat ensures !DelimitedAt(s[..p], d, p', q') {
      if q' < p && p' < p {
        assert !DelimitedAt(s, d, p', q');
      }
    }
  }

  /** Every text stretch is free of code spans: each code-span match of the line is cut
      out as code. */
  lemma {:induction false} TextRunsHaveNoCode(s: string, k: nat)
    requires k < |Stretches(s)| && Stretches(s)[k].TextRun?
    ensures !HasDelimited(Stretches(s)[k].text, '`')
    decreases |s|
  {
    var head, later := StretchHead(s), Stretches(StretchRest(s));
    assert Stretches(s) == head + later;
    var code := FindDelimited(s, '`', 0);
    FindDelimitedCorrect(s, '`', 0);
    if k < |head| {
      if code.Found? {
        assert head[k] == TextRun(s[..code.start]);
        NoMatchInPrefix(s, '`', code.start);
      } else {
        NoMatchInPrefix(s, '`', |s|);
        assert s[..|s|] == s;
      }
    } else {
      assert Stretches(s)[k] == later[k - |head|];
      TextRunsHaveNoCode(StretchRest(s), k - |head|);
    }
  }

  /** No formatted stretch that `parseInlineMarkdown` emits still contains a code span. */
  lemma NoCodeSpanLeftInFormatted(s: string, k: nat)
    requires k < |InlineSpec(s)| && InlineSpec(s)[k].Formatted?
    ensures !HasDelimited(PieceSource(InlineSpec(s)[k]), '`')
  {
    var sts := Stretches(s);
    RenderAt(sts, k);
    FormatRoundTrip(sts[k].text);
    TextRunsHaveNoCode(s, k);
  }

  // ---------------------------------------------------------------------------------
  // Overlapping markers

  /** `**a*b**` has no bold match (the star inside stops the run of non-stars), so it
      becomes a plain star, italic `a` and plain `b**`. */
  lemma OverlapBoldOutside()
    ensures FormatSpec("**a*b**") == [Plain("*"), Em("a"), Plain("b**")]
  {
    var s := "**a*b**";
    FindBoldCorrect(s, 0);
    assert !BoldAt(s, 0, 3) && !BoldAt(s, 0, 5);
    assert FindBold(s, 0) == NoMatch;
    assert FindDelimited(s, '*', 0) == Found(1, 3);
    assert s[..1] == "*" && s[2..3] == "a" && s[4..] == "b**";
    assert FormatHead(s) == [Plain("*"), Em("a")] && FormatRest(s) == "b**";
    var t := "b**";
    assert FindBold(t, 0) == NoMatch && FindDelimited(t, '*', 0) == NoMatch;
    assert FormatSpec(t) == [Plain(t)] + FormatSpec([]);
  }

  /** `*a**b*` becomes two italic spans, `a` and `b`. */
  lemma OverlapItalicOutside()
    ensures FormatSpec("*a**b*") == [Em("a"), Em("b")]
  {
    var s := "*a**b*";
    assert FindBold(s, 0) == NoMatch;
    assert FindDelimited(s, '*', 0) == Found(0, 2);
    assert s[..0] == "" && s[1..2] == "a" && s[3..] == "*b*";
    assert FormatHead(s) == [Em("a")] && FormatRest(s) == "*b*";
    var t := "*b*";
    assert FindBold(t, 0) == NoMatch;
    assert FindDelimited(t, '*', 0) == Found(0, 2);
    assert t[..0] == "" && t[1..2] == "b" && t[3..] == "";
    assert FormatHead(t) == [Em("b")] && FormatRest(t) == "";
    assert FormatSpec(t) == [Em("b")] + FormatSpec([]);
  }

  /** An italic match before a bold match is not formatted: it stays in the plain span. */
  lemma ItalicBeforeBoldStaysPlain()
    ensures FormatSpec("*a* **b**") == [Plain("*a* "), Strong("b")]
  {
    var s := "*a* **b**";
    assert BoldAt(s, 4, 7);
    assert forall p': nat, q': nat :: p' < 4 ==> !BoldAt(s, p', q');
    LeftmostBoldFirst(s, 4, 7);
    assert s[..4] == "*a* " && s[6..7] == "b" && s[9..] == "";
    assert FormatSpec(s) == FormatHead(s) + FormatSpec([]);
  }
}
