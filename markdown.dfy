/** The block level of the chat client's markdown renderer (`parseMarkdown` in
    src/App.jsx): the text is split into lines, and each line, or run of lines, becomes a
    fenced code block, a heading, an ordered or bulleted list, a spacer or a paragraph.
    The reference definition cuts the lines into segments (`Segments`) and then lays the
    segments out (`Assemble`), which is where the spacer rule lives; the method
    `ParseMarkdown` is the source's single loop over the lines, with its code-block state. */
module Markdown {
  import opened Options
  import opened Text
  import opened Inline

  /** A rendered element. Headings carry their level (1 to 3) and raw text; list items
      and paragraphs carry their inline pieces. */
  datatype Block =
    | CodeBlock(lang: string, code: string)
    | Heading(level: nat, text: string)
    | OrderedList(items: seq<seq<Piece>>)
    | BulletList(items: seq<seq<Piece>>)
    | Spacer
    | Paragraph(pieces: seq<Piece>)

  // ---------------------------------------------------------------------------------
  // React keys. The source tells a spacer apart by its key: the last element's key
  // "includes 'br'". Keys are a prefix, a dash and the line number.

  function KeyPrefix(b: Block): string {
    match b
    case CodeBlock(_, _) => "codeblock"
    case Heading(level, _) => if level == 1 then "h1" else if level == 2 then "h2" else "h3"
    case OrderedList(_) => "ol"
    case BulletList(_) => "ul"
    case Spacer => "br"
    case Paragraph(_) => "p"
  }

  /** `s.includes(t)`. */
  predicate Includes(s: string, t: string)
    decreases |s|
  {
    StartsWith(s, t) || (s != [] && Includes(s[1..], t))
  }

  /** A string with no `b` directly followed by `r` does not include "br". */
  lemma {:induction false} NoBr(s: string)
    requires forall k :: 0 <= k < |s| - 1 ==> s[k] != 'b' || s[k + 1] != 'r'
    ensures !Includes(s, "br")
    decreases |s|
  {
    if |s| >= 2 {
      assert s[..2][0] == s[0] && s[..2][1] == s[1];
    }
    if s != [] {
      assert forall k :: 0 <= k < |s[1..]| - 1 ==> s[1..][k] != 'b' || s[1..][k + 1] != 'r' by {
        forall k | 0 <= k < |s[1..]| - 1 ensures s[1..][k] != 'b' || s[1..][k + 1] != 'r' {
          assert s[1..][k] == s[k + 1] && s[1..][k + 1] == s[k + 2];
        }
      }
      NoBr(s[1..]);
    }
  }

  /** The key of an element pushed while looking at line `n`. */
  function Key(b: Block, n: nat): string {
    KeyPrefix(b) + "-" + Decimal(n)
  }

  /** Only a spacer's key includes "br", whatever the line number: testing the last
      element's key is testing whether it is a spacer. */
  lemma BrOnlyInSpacerKey(b: Block, n: nat)
    ensures Includes(Key(b, n), "br") <==> b.Spacer?
  {
    var key := Key(b, n);
    if b.Spacer? {
      assert key[..2] == "br";
    } else {
      var p := KeyPrefix(b);
      assert forall k :: 0 <= k < |p| - 1 ==> p[k] != 'b' || p[k + 1] != 'r';
      forall k | 0 <= k < |key| - 1
        ensures key[k] != 'b' || key[k + 1] != 'r'
      {
        if k + 1 < |p| {
          assert key[k] == p[k] && key[k + 1] == p[k + 1];
        } else {
          assert k + 1 > |p|  ==> IsDigit(key[k + 1]);
          assert key[k + 1] != 'r';
        }
      }
      NoBr(key);
    }
  }

  // ---------------------------------------------------------------------------------
  // What a line is

  /** `line.trim().startsWith('```')`: the line opens a fenced code block. */
  predicate OpensFence(line: string) {
    StartsWith(Trim(line), "```")
  }

  /** `line.trim() === '```'`: the line closes the open code block. */
  predicate ClosesFence(line: string) {
    Trim(line) == "```"
  }

  /** `line.slice(3).trim()`: the language named after the opening fence. The three
      characters dropped are those of the untrimmed line. */
  function FenceLang(line: string): (r: string)
    requires OpensFence(line)
    ensures |r| <= |line| - 3
    ensures r != [] ==> !IsSpace(r[0]) && !IsSpace(r[|r| - 1])
  {
    Trim(line[3..])
  }

  /** The language is what stands after the line's first three characters, with only
      white space cut at either end. */
  lemma FenceLangSlice(line: string)
    requires OpensFence(line)
    ensures var r := FenceLang(line); var i := 3 + |line[3..]| - |TrimStart(line[3..])|;
      && 3 <= i && i + |r| <= |line| && line[i..i + |r|] == r
      && AllSpace(line[3..i]) && AllSpace(line[i + |r|..])
  {
    var s := line[3..];
    var i := 3 + |s| - |TrimStart(s)|;
    TrimSlice(s);
    assert line[i..i + |Trim(s)|] == s[i - 3..i - 3 + |Trim(s)|];
    assert line[3..i] == s[..i - 3];
    assert line[i + |Trim(s)|..] == s[i - 3 + |Trim(s)|..];
  }

  /** An indented fence still loses only three characters, so part of the fence ends up
      in the language: two spaces and three backticks before `py` name the language
      ``` ``py ```. */
  lemma FenceLangIndented()
    ensures OpensFence("  ```py") && FenceLang("  ```py") == "``py"
  {
    assert Trim("  ```py") == "```py" by {
      assert TrimStart("  ```py") == TrimStart(" ```py") == "```py";
      assert TrimEnd("```py") == "```py";
    }
    assert "```py"[..3] == "```";
    assert "  ```py"[3..] == "``py";
    assert TrimStart("``py") == "``py";
    assert TrimEnd("``py") == "``py";
  }

  /** The label of a code block's header bar: `codeBlockLang || 'code'`. */
  function CodeLabel(lang: string): (r: string)
    ensures r != []
    ensures lang != [] ==> r == lang
    ensures lang == [] ==> r == "code"
  {
    if lang != [] then lang else "code"
  }

  /** Number of decimal digits at the start of `s`. */
  function LeadingDigits(s: string): (n: nat)
    ensures n <= |s|
    ensures forall k :: 0 <= k < n ==> IsDigit(s[k])
    ensures n < |s| ==> !IsDigit(s[n])
  {
    if s == [] || !IsDigit(s[0]) then 0 else 1 + LeadingDigits(s[1..])
  }

  datatype ListKind = Ordered | Bullet

  /** `/^\d+\.\s/` (ordered) and `/^[-*]\s/` (bulleted): the line is a list item. As the
      digits are followed by a dot, `\d+` matches all leading digits or nothing. */
  predicate IsItem(kind: ListKind, line: string) {
    match kind
    case Ordered =>
      var d := LeadingDigits(line);
      1 <= d && d + 2 <= |line| && line[d] == '.' && IsSpace(line[d + 1])
    case Bullet =>
      2 <= |line| && (line[0] == '-' || line[0] == '*') && IsSpace(line[1])
  }

  /** `line.replace(regex, '')`: the item's text, with the marker and one white-space
      character removed. */
  function ItemText(kind: ListKind, line: string): (r: string)
    requires IsItem(kind, line)
    ensures |r| + 2 <= |line| && r == line[|line| - |r|..]
    ensures kind == Bullet ==> |r| + 2 == |line|
    ensures kind == Ordered ==> |r| + LeadingDigits(line) + 2 == |line|
  {
    match kind
    case Ordered => line[LeadingDigits(line) + 2..]
    case Bullet => line[2..]
  }

  // ---------------------------------------------------------------------------------
  // Reference definition, first half: cutting the lines into segments

  /** A run of lines that becomes at most one element: a closed code block, an unclosed
      one (which swallows the rest of the text), a heading, a run of list items, a blank
      line, or a paragraph line. Text is still raw here. */
  datatype Seg =
    | Fenced(lang: string, code: string)
    | Unclosed
    | Head(level: nat, text: string)
    | ItemRun(kind: ListKind, texts: seq<string>)
    | Blank
    | Para(text: string)

  /** The first line at or after `k` that closes a code block (see `FindCloseFirst`). */
  function FindClose(lines: seq<string>, k: nat): (r: Option<nat>)
    requires k <= |lines|
    ensures r.Some? ==> k <= r.value < |lines|
    decreases |lines| - k
  {
    if k == |lines| then None
    else if ClosesFence(lines[k]) then Some(k)
    else FindClose(lines, k + 1)
  }

  /** The end of the run of list items of `kind` starting at `i`. */
  function RunEnd(lines: seq<string>, i: nat, kind: ListKind): (r: nat)
    requires i <= |lines|
    ensures i <= r <= |lines|
    decreases |lines| - i
  {
    if i < |lines| && IsItem(kind, lines[i]) then RunEnd(lines, i + 1, kind) else i
  }

  /** The texts of the items of that run. */
  function RunTexts(lines: seq<string>, i: nat, kind: ListKind): (r: seq<string>)
    requires i <= |lines|
    ensures |r| == RunEnd(lines, i, kind) - i
    decreases |lines| - i
  {
    if i < |lines| && IsItem(kind, lines[i]) then [ItemText(kind, lines[i])] + RunTexts(lines, i + 1, kind)
    else []
  }

  /** The lines of a code block's body as its content: leading empty lines are dropped
      (the content stays empty until a non-empty line arrives), the rest are joined. */
  function DropLeadingEmpty(body: seq<string>): (r: seq<string>)
    ensures r != [] ==> r[0] != ""
    ensures |r| <= |body|
  {
    if body != [] && body[0] == "" then DropLeadingEmpty(body[1..]) else body
  }

  function CodeBody(body: seq<string>): string {
    JoinLines(DropLeadingEmpty(body))
  }

  /** The segment that starts at line `i`, in the order the source tests a line: opening
      fence, headings, list items, blank line, paragraph. */
  function SegHead(lines: seq<string>, i: nat): Seg
    requires i < |lines|
  {
    var line := lines[i];
    if OpensFence(line) then
      match FindClose(lines, i + 1)
      case Some(k) => Fenced(FenceLang(line), CodeBody(lines[i + 1..k]))
      case None => Unclosed
    else if StartsWith(line, "# ") then Head(1, line[2..])
    else if StartsWith(line, "## ") then Head(2, line[3..])
    else if StartsWith(line, "### ") then Head(3, line[4..])
    else if IsItem(Ordered, line) then ItemRun(Ordered, RunTexts(lines, i, Ordered))
    else if IsItem(Bullet, line) then ItemRun(Bullet, RunTexts(lines, i, Bullet))
    else if Trim(line) == "" then Blank
    else Para(line)
  }

  /** Where the next segment starts. */
  function SegNext(lines: seq<string>, i: nat): (j: nat)
    requires i < |lines|
    ensures i < j <= |lines|
  {
    var line := lines[i];
    if OpensFence(line) then
      match FindClose(lines, i + 1)
      case Some(k) => k + 1
      case None => |lines|
    else if StartsWith(line, "# ") || StartsWith(line, "## ") || StartsWith(line, "### ") then i + 1
    else if IsItem(Ordered, line) then RunEnd(lines, i, Ordered)
    else if IsItem(Bullet, line) then RunEnd(lines, i, Bullet)
    else i + 1
  }

  /** The segments of the lines from `i` on, in order. */
  function Segments(lines: seq<string>, i: nat): seq<Seg>
    requires i <= |lines|
    decreases |lines| - i
  {
    if i == |lines| then [] else [SegHead(lines, i)] + Segments(lines, SegNext(lines, i))
  }

  // ---------------------------------------------------------------------------------
  // Reference definition, second half: laying the segments out

  /** Each item's text parsed for inline markdown. */
  function RenderItems(texts: seq<string>): (r: seq<seq<Piece>>)
    ensures |r| == |texts|
  {
    if texts == [] then [] else RenderItems(texts[..|texts| - 1]) + [InlineSpec(texts[|texts| - 1])]
  }

  /** Adds one segment's element. A blank line becomes a spacer only after some element
      that is not itself a spacer; an unclosed code block adds nothing. */
  function Push(elements: seq<Block>, seg: Seg): seq<Block> {
    match seg
    case Fenced(lang, code) => elements + [CodeBlock(lang, code)]
    case Unclosed => elements
    case Head(level, text) => elements + [Heading(level, text)]
    case ItemRun(kind, texts) =>
      elements + [if kind == Ordered then OrderedList(RenderItems(texts)) else BulletList(RenderItems(texts))]
    case Blank => if elements != [] && !elements[|elements| - 1].Spacer? then elements + [Spacer] else elements
    case Para(text) => elements + [Paragraph(InlineSpec(text))]
  }

  function Assemble(segs: seq<Seg>): seq<Block> {
    if segs == [] then [] else Push(Assemble(segs[..|segs| - 1]), segs[|segs| - 1])
  }

  /** The elements `parseMarkdown(text)` returns. */
  function MarkdownSpec(text: string): seq<Block> {
    Assemble(Segments(SplitLines(text), 0))
  }

  lemma AssembleSnoc(segs: seq<Seg>, seg: Seg)
    ensures Assemble(segs + [seg]) == Push(Assemble(segs), seg)
  {
    assert (segs + [seg])[..|segs|] == segs;
  }

  lemma RenderItemsSnoc(texts: seq<string>, text: string)
    ensures RenderItems(texts + [text]) == RenderItems(texts) + [InlineSpec(text)]
  {
    assert (texts + [text])[..|texts|] == texts;
  }

  /** The content accumulated line by line, `content += (content ? '\n' : '') + line`,
      is the body's `CodeBody`. */
  lemma {:induction false} CodeBodySnoc(body: seq<string>, line: string)
    ensures CodeBody(body + [line])
      == CodeBody(body) + (if CodeBody(body) != "" then "\n" else "") + line
  {
    if body == [] {
      assert [] + [line] == [line];
    } else if body[0] == "" {
      assert (body + [line])[1..] == body[1..] + [line];
      CodeBodySnoc(body[1..], line);
    } else {
      JoinLinesSnoc(body, line);
    }
  }

  lemma FenceLength(line: string)
    requires OpensFence(line)
    ensures |line| >= 3
  {
  }

  lemma EmptyBody(lines: seq<string>, k: nat)
    requires k <= |lines|
    ensures CodeBody(lines[k..k]) == ""
  {
    assert lines[k..k] == [];
  }

  lemma SliceSnoc<T>(s: seq<T>, a: nat, b: nat)
    requires a <= b < |s|
    ensures s[a..b + 1] == s[a..b] + [s[b]]
  {
  }

  lemma SegmentsStep(lines: seq<string>, i: nat)
    requires i < |lines|
    ensures Segments(lines, i) == [SegHead(lines, i)] + Segments(lines, SegNext(lines, i))
  {
  }

  lemma SegmentsStepTo(lines: seq<string>, i: nat, j: nat)
    requires i < |lines| && SegNext(lines, i) == j
    ensures Segments(lines, i) == [SegHead(lines, i)] + Segments(lines, j)
  {
  }

  /** A code block opened at `start` and closed at `k` is one segment. */
  lemma FencedSegment(lines: seq<string>, start: nat, k: nat)
    requires start < k < |lines| && OpensFence(lines[start])
    requires FindClose(lines, start + 1) == Some(k)
    ensures Segments(lines, start)
      == [Fenced(FenceLang(lines[start]), CodeBody(lines[start + 1..k]))] + Segments(lines, k + 1)
  {
    assert SegNext(lines, start) == k + 1;
    SegmentsStepTo(lines, start, k + 1);
    assert SegHead(lines, start) == Fenced(FenceLang(lines[start]), CodeBody(lines[start + 1..k]));
  }


  /** A code block that is never closed swallows the rest of the text. */
  lemma UnclosedSegment(lines: seq<string>, start: nat)
    requires start < |lines| && OpensFence(lines[start])
    requires FindClose(lines, start + 1) == None
    ensures Segments(lines, start) == [Unclosed]
  {
    SegmentsStep(lines, start);
    assert Segments(lines, |lines|) == [];
  }

  // ---------------------------------------------------------------------------------
  // The loop

  /** What the inner list loop knows after the lines from `i` to `j`: they are items of
      the run, `texts` holds their texts and `items` those texts parsed inline. */
  ghost predicate Collected(lines: seq<string>, i: nat, j: nat, kind: ListKind, texts: seq<string>, items: seq<seq<Piece>>)
  {
    i <= j <= |lines| &&
    RunEnd(lines, j, kind) == RunEnd(lines, i, kind) &&
    texts + RunTexts(lines, j, kind) == RunTexts(lines, i, kind) &&
    items == RenderItems(texts)
  }

  lemma CollectStep(lines: seq<string>, i: nat, j: nat, kind: ListKind, texts: seq<string>, items: seq<seq<Piece>>)
    requires j < |lines| && IsItem(kind, lines[j])
    requires Collected(lines, i, j, kind, texts, items)
    ensures Collected(lines, i, j + 1, kind, texts + [ItemText(kind, lines[j])],
                      items + [InlineSpec(ItemText(kind, lines[j]))])
  {
    var content := ItemText(kind, lines[j]);
    RenderItemsSnoc(texts, content);
    ScanStep(texts, [content], RunTexts(lines, j + 1, kind), RunTexts(lines, i, kind));
  }

  lemma CollectDone(lines: seq<string>, i: nat, j: nat, kind: ListKind, texts: seq<string>, items: seq<seq<Piece>>)
    requires Collected(lines, i, j, kind, texts, items)
    requires !(j < |lines| && IsItem(kind, lines[j]))
    ensures j == RunEnd(lines, i, kind) && items == RenderItems(RunTexts(lines, i, kind))
  {
    assert RunTexts(lines, j, kind) == [];
    assert texts + RunTexts(lines, j, kind) == texts;
  }

  /** The inner loop of a list branch: collects the run of items of `kind` from `i`,
      each parsed for inline markdown. */
  method ListRun(lines: seq<string>, i: nat, kind: ListKind) returns (items: seq<seq<Piece>>, j: nat)
    requires i <= |lines|
    ensures j == RunEnd(lines, i, kind)
    ensures items == RenderItems(RunTexts(lines, i, kind))
  {
    items := [];
    j := i;
    ghost var texts: seq<string> := [];
    while j < |lines| && IsItem(kind, lines[j])
      invariant Collected(lines, i, j, kind, texts, items)
      decreases |lines| - j
    {
      var content := ItemText(kind, lines[j]);
      var pieces := ParseInlineMarkdown(content);
      CollectStep(lines, i, j, kind, texts, items);
      items := items + [pieces];
      texts := texts + [content];
      j := j + 1;
    }
    CollectDone(lines, i, j, kind, texts, items);
  }

  /** The part of the loop body for a line outside any code block that does not open
      one: headings, lists, blank lines and paragraphs. Returns the elements and the
      index of the next line to look at. */
  method LinePass(lines: seq<string>, i: nat, elements: seq<Block>) returns (result: seq<Block>, next: nat)
    requires i < |lines| && !OpensFence(lines[i])
    ensures result == Push(elements, SegHead(lines, i))
    ensures next == SegNext(lines, i)
  {
    var line := lines[i];
    result := elements;
    next := i + 1;
    if StartsWith(line, "# ") {
      result := result + [Heading(1, line[2..])];
    } else if StartsWith(line, "## ") {
      result := result + [Heading(2, line[3..])];
    } else if StartsWith(line, "### ") {
      result := result + [Heading(3, line[4..])];
    } else if IsItem(Ordered, line) {
      var items, j := ListRun(lines, i, Ordered);
      result := result + [OrderedList(items)];
      next := j;
    } else if IsItem(Bullet, line) {
      var items, j := ListRun(lines, i, Bullet);
      result := result + [BulletList(items)];
      next := j;
    } else if Trim(line) == "" {
      // The source tests `!key.includes('br')` on the last element: by
      // `BrOnlyInSpacerKey` that is "the last element is not a spacer".
      if |result| > 0 && !result[|result| - 1].Spacer? {
        result := result + [Spacer];
      }
    } else {
      var pieces := ParseInlineMarkdown(line);
      result := result + [Paragraph(pieces)];
    }
  }

  /** What the loop of `ParseMarkdown` knows after the lines before `i`: the elements are
      those of the segments completed so far, and those segments followed by the
      segments still ahead are all the segments of the text. Inside a code block opened
      at line `start`, the segment ahead starts at that line, and the language and the
      content so far are those of that block. */
  ghost predicate Scanned(lines: seq<string>, i: nat, elements: seq<Block>, segs: seq<Seg>,
                          inCodeBlock: bool, start: nat, content: string, lang: string)
  {
    i <= |lines| &&
    elements == Assemble(segs) &&
    if inCodeBlock then
      start < i && OpensFence(lines[start]) &&
      segs + Segments(lines, start) == Segments(lines, 0) &&
      lang == FenceLang(lines[start]) &&
      FindClose(lines, start + 1) == FindClose(lines, i) &&
      content == CodeBody(lines[start + 1..i])
    else
      segs + Segments(lines, i) == Segments(lines, 0)
  }

  lemma OpenStep(lines: seq<string>, i: nat, elements: seq<Block>, segs: seq<Seg>,
                 start: nat, content: string, lang: string)
    requires i < |lines| && OpensFence(lines[i])
    requires Scanned(lines, i, elements, segs, false, start, content, lang)
    ensures Scanned(lines, i + 1, elements, segs, true, i, "", FenceLang(lines[i]))
  {
    EmptyBody(lines, i + 1);
  }

  lemma CloseStep(lines: seq<string>, i: nat, elements: seq<Block>, segs: seq<Seg>,
                  start: nat, content: string, lang: string)
    requires i < |lines| && ClosesFence(lines[i])
    requires Scanned(lines, i, elements, segs, true, start, content, lang)
    ensures Scanned(lines, i + 1, elements + [CodeBlock(lang, content)], segs + [Fenced(lang, content)],
                    false, start, content, lang)
  {
    FencedSegment(lines, start, i);
    ScanStep(segs, [Fenced(lang, content)], Segments(lines, i + 1), Segments(lines, 0));
    AssembleSnoc(segs, Fenced(lang, content));
  }

  lemma CodeStep(lines: seq<string>, i: nat, elements: seq<Block>, segs: seq<Seg>,
                 start: nat, content: string, lang: string)
    requires i < |lines| && !ClosesFence(lines[i])
    requires Scanned(lines, i, elements, segs, true, start, content, lang)
    ensures Scanned(lines, i + 1, elements, segs, true, start, CodeBody(lines[start + 1..i + 1]), lang)
  {
  }

  lemma LineStep(lines: seq<string>, i: nat, elements: seq<Block>, segs: seq<Seg>,
                 start: nat, content: string, lang: string)
    requires i < |lines| && !OpensFence(lines[i])
    requires Scanned(lines, i, elements, segs, false, start, content, lang)
    ensures Scanned(lines, SegNext(lines, i), Push(elements, SegHead(lines, i)), segs + [SegHead(lines, i)],
                    false, start, content, lang)
  {
    SegmentsStep(lines, i);
    ScanStep(segs, [SegHead(lines, i)], Segments(lines, SegNext(lines, i)), Segments(lines, 0));
    AssembleSnoc(segs, SegHead(lines, i));
  }

  lemma Finish(lines: seq<string>, elements: seq<Block>, segs: seq<Seg>,
               inCodeBlock: bool, start: nat, content: string, lang: string)
    requires Scanned(lines, |lines|, elements, segs, inCodeBlock, start, content, lang)
    ensures elements == Assemble(Segments(lines, 0))
  {
    if inCodeBlock {
      UnclosedSegment(lines, start);
      AssembleSnoc(segs, Unclosed);
    } else {
      assert Segments(lines, |lines|) == [];
      assert segs == Segments(lines, 0);
    }
  }

  /** The body of a code block grows by one line: a newline goes before it unless the
      content is still empty. */
  method CodeLine(lines: seq<string>, ghost start: nat, i: nat, content: string) returns (r: string)
    requires start < i < |lines|
    requires content == CodeBody(lines[start + 1..i])
    ensures r == CodeBody(lines[start + 1..i + 1])
  {
    CodeBodySnoc(lines[start + 1..i], lines[i]);
    SliceSnoc(lines, start + 1, i);
    r := content + (if content != "" then "\n" else "") + lines[i];
  }

  /** The turn of the loop of `parseMarkdown` on a line that opens a code block, closes
      the open one, or lies inside it: the code block's new state and the elements. */
  method FenceLine(lines: seq<string>, i: nat, elements: seq<Block>, ghost segs: seq<Seg>, inCodeBlock: bool,
                   ghost start: nat, content: string, lang: string)
    returns (elements': seq<Block>, ghost segs': seq<Seg>, inCodeBlock': bool, ghost start': nat,
             content': string, lang': string)
    requires i < |lines| && (inCodeBlock || OpensFence(lines[i]))
    requires Scanned(lines, i, elements, segs, inCodeBlock, start, content, lang)
    ensures Scanned(lines, i + 1, elements', segs', inCodeBlock', start', content', lang')
  {
    var line := lines[i];
    if !inCodeBlock {
      OpenStep(lines, i, elements, segs, start, content, lang);
      FenceLength(line);
      elements', segs', inCodeBlock', start', content', lang' := elements, segs, true, i, "", Trim(line[3..]);
    } else if ClosesFence(line) {
      CloseStep(lines, i, elements, segs, start, content, lang);
      elements', segs', inCodeBlock', start', content', lang' :=
        elements + [CodeBlock(lang, content)], segs + [Fenced(lang, content)], false, start, content, lang;
    } else {
      CodeStep(lines, i, elements, segs, start, content, lang);
      content' := CodeLine(lines, start, i, content);
      elements', segs', inCodeBlock', start', lang' := elements, segs, true, start, lang;
    }
  }

  /** `parseMarkdown`: one pass over the lines, with the open code block's language and
      content as state. Lines inside a code block are kept verbatim; an unclosed block
      is dropped. */
  method ParseMarkdown(text: string) returns (elements: seq<Block>)
    ensures elements == MarkdownSpec(text)
  {
    var lines := SplitLines(text);
    elements := [];
    var i := 0;
    var inCodeBlock := false;
    var codeBlockContent := "";
    var codeBlockLang := "";
    ghost var segs: seq<Seg> := [];
    ghost var start := 0;
    while i < |lines|
      invariant Scanned(lines, i, elements, segs, inCodeBlock, start, codeBlockContent, codeBlockLang)
      decreases |lines| - i
    {
      if inCodeBlock || OpensFence(lines[i]) {
        elements, segs, inCodeBlock, start, codeBlockContent, codeBlockLang :=
          FenceLine(lines, i, elements, segs, inCodeBlock, start, codeBlockContent, codeBlockLang);
        i := i + 1;
      } else {
        LineStep(lines, i, elements, segs, start, codeBlockContent, codeBlockLang);
        segs := segs + [SegHead(lines, i)];
        elements, i := LinePass(lines, i, elements);
      }
    }
    Finish(lines, elements, segs, inCodeBlock, start, codeBlockContent, codeBlockLang);
  }

  // ---------------------------------------------------------------------------------
  // Properties of the reference definition

  /** A list is one maximal run: every line of it is an item of its kind, and the line
      after it is not. */
  lemma {:induction false} RunMaximal(lines: seq<string>, i: nat, kind: ListKind)
    requires i <= |lines|
    ensures forall j :: i <= j < RunEnd(lines, i, kind) ==> IsItem(kind, lines[j])
    ensures RunEnd(lines, i, kind) < |lines| ==> !IsItem(kind, lines[RunEnd(lines, i, kind)])
    decreases |lines| - i
  {
    if i < |lines| && IsItem(kind, lines[i]) {
      RunMaximal(lines, i + 1, kind);
    }
  }

  /** The `n`-th item of a run is the text of the run's `n`-th line. */
  lemma {:induction false} RunTextsAt(lines: seq<string>, i: nat, kind: ListKind, j: nat)
    requires i <= |lines| && i <= j < RunEnd(lines, i, kind)
    ensures j < |lines| && IsItem(kind, lines[j])
    ensures RunTexts(lines, i, kind)[j - i] == ItemText(kind, lines[j])
    decreases |lines| - i
  {
    if j > i {
      RunTextsAt(lines, i + 1, kind, j);
    }
  }

  /** Only empty lines are dropped from the front of a code block's body. */
  lemma {:induction false} DropLeadingEmptySuffix(body: seq<string>)
    ensures DropLeadingEmpty(body) == body[|body| - |DropLeadingEmpty(body)|..]
    ensures forall k :: 0 <= k < |body| - |DropLeadingEmpty(body)| ==> body[k] == ""
  {
    if body != [] && body[0] == "" {
      DropLeadingEmptySuffix(body[1..]);
      assert body[1..][|body| - 1 - |DropLeadingEmpty(body[1..])|..] == body[|body| - |DropLeadingEmpty(body)|..];
      forall k | 0 <= k < |body| - |DropLeadingEmpty(body)|
        ensures body[k] == ""
      {
        if k > 0 {
          assert body[k] == body[1..][k - 1];
        }
      }
    }
  }

  /** A code block's content is its lines verbatim, apart from the empty lines before the
      first non-empty one: splitting the content gives those lines back. */
  lemma CodeBodyVerbatim(body: seq<string>)
    requires forall k :: 0 <= k < |body| ==> '\n' !in body[k]
    requires DropLeadingEmpty(body) != []
    ensures SplitLines(CodeBody(body)) == DropLeadingEmpty(body)
  {
    var kept := DropLeadingEmpty(body);
    DropLeadingEmptySuffix(body);
    forall k | 0 <= k < |kept|
      ensures '\n' !in kept[k]
    {
      assert kept[k] == body[|body| - |kept| + k];
    }
    SplitJoin(kept);
  }

  /** No spacer comes first, and no two spacers are adjacent. */
  predicate SpacersSeparated(elements: seq<Block>) {
    (elements != [] ==> !elements[0].Spacer?) &&
    forall k :: 0 <= k < |elements| - 1 ==> !(elements[k].Spacer? && elements[k + 1].Spacer?)
  }

  lemma PushSeparated(elements: seq<Block>, seg: Seg)
    requires SpacersSeparated(elements)
    ensures SpacersSeparated(Push(elements, seg))
  {
    var r := Push(elements, seg);
    if r != elements {
      assert r[..|elements|] == elements;
      forall k | 0 <= k < |r| - 1
        ensures !(r[k].Spacer? && r[k + 1].Spacer?)
      {
        if k + 1 < |elements| {
          assert r[k] == elements[k] && r[k + 1] == elements[k + 1];
        }
      }
    }
  }

  lemma {:induction false} AssembleSeparated(segs: seq<Seg>)
    ensures SpacersSeparated(Assemble(segs))
  {
    if segs != [] {
      AssembleSeparated(segs[..|segs| - 1]);
      PushSeparated(Assemble(segs[..|segs| - 1]), segs[|segs| - 1]);
    }
  }

  /** However many blank lines there are, the rendered text never starts with a spacer
      and never shows two spacers in a row. */
  lemma MarkdownSpacersSeparated(text: string)
    ensures SpacersSeparated(MarkdownSpec(text))
  {
    AssembleSeparated(Segments(SplitLines(text), 0));
  }

  lemma {:induction false} SegmentsCount(lines: seq<string>, i: nat)
    requires i <= |lines|
    ensures |Segments(lines, i)| <= |lines| - i
    decreases |lines| - i
  {
    if i < |lines| {
      SegmentsStep(lines, i);
      SegmentsCount(lines, SegNext(lines, i));
    }
  }

  lemma {:induction false} AssembleCount(segs: seq<Seg>)
    ensures |Assemble(segs)| <= |segs|
  {
    if segs != [] {
      AssembleCount(segs[..|segs| - 1]);
    }
  }

  /** Every element comes from at least one line of its own. */
  lemma MarkdownCount(text: string)
    ensures |MarkdownSpec(text)| <= |SplitLines(text)|
  {
    SegmentsCount(SplitLines(text), 0);
    AssembleCount(Segments(SplitLines(text), 0));
  }

}
