/** String primitives of the JavaScript runtime that the chat client relies on, written out:
    `String.prototype.trim`, `startsWith`, `split('\n')` and its inverse `join('\n')`,
    decimal printing of a number in a template literal, and the string quoting that
    `JSON.stringify` applies to a string value. Strings are sequences of code points. */
module Text {

  /** JavaScript's WhiteSpace and LineTerminator code points: the set that `trim()`
      removes and that the regex class `\s` matches. */
  predicate IsSpace(c: char) {
    || c == '\t' || c == '\n' || c == '\U{B}' || c == '\U{C}' || c == '\r' || c == ' '
    || c == '\U{A0}' || c == '\U{1680}' || ('\U{2000}' <= c <= '\U{200A}')
    || c == '\U{2028}' || c == '\U{2029}' || c == '\U{202F}' || c == '\U{205F}'
    || c == '\U{3000}' || c == '\U{FEFF}'
  }

  predicate AllSpace(s: string) {
    forall k :: 0 <= k < |s| ==> IsSpace(s[k])
  }

  predicate StartsWith(s: string, prefix: string) {
    |prefix| <= |s| && s[..|prefix|] == prefix
  }

  predicate IsDigit(c: char) {
    '0' <= c <= '9'
  }

  /** `s` without its leading white space (`trimStart`). */
  function TrimStart(s: string): (r: string)
    ensures |r| <= |s|
    ensures r != [] ==> !IsSpace(r[0])
  {
    if s != [] && IsSpace(s[0]) then TrimStart(s[1..]) else s
  }

  /** `s` without its trailing white space (`trimEnd`). */
  function TrimEnd(s: string): (r: string)
    ensures |r| <= |s|
    ensures r != [] ==> !IsSpace(r[|r| - 1])
  {
    if s != [] && IsSpace(s[|s| - 1]) then TrimEnd(s[..|s| - 1]) else s
  }

  /** `s.trim()`: white space dropped at both ends. */
  function Trim(s: string): (r: string)
    ensures |r| <= |s|
    ensures r != [] ==> !IsSpace(r[0]) && !IsSpace(r[|r| - 1])
  {
    var t := TrimStart(s);
    var r := TrimEnd(t);
    assert r != [] ==> r[0] == t[0] by {
      if r != [] {
        TrimEndPrefix(t);
      }
    }
    r
  }

  /** What `trimStart` keeps is a suffix of `s`; all it drops is white space. */
  lemma {:induction false} TrimStartSuffix(s: string)
    ensures s == s[..|s| - |TrimStart(s)|] + TrimStart(s)
    ensures AllSpace(s[..|s| - |TrimStart(s)|])
  {
    if s != [] && IsSpace(s[0]) {
      TrimStartSuffix(s[1..]);
      var n := |s| - |TrimStart(s)|;
      assert s[..n] == [s[0]] + s[1..][..n - 1];
    }
  }

  /** What `trimEnd` keeps is a prefix of `s`; all it drops is white space. */
  lemma {:induction false} TrimEndPrefix(s: string)
    ensures s == TrimEnd(s) + s[|TrimEnd(s)|..]
    ensures AllSpace(s[|TrimEnd(s)|..])
  {
    if s != [] && IsSpace(s[|s| - 1]) {
      TrimEndPrefix(s[..|s| - 1]);
      var n := |TrimEnd(s)|;
      assert s[n..] == s[..|s| - 1][n..] + [s[|s| - 1]];
    }
  }

  /** What `trim()` keeps is a slice of `s`, starting where `trimStart` stops; all it
      drops on either side is white space. */
  lemma TrimSlice(s: string)
    ensures var i := |s| - |TrimStart(s)|;
      && i + |Trim(s)| <= |s| && s[i..i + |Trim(s)|] == Trim(s)
      && AllSpace(s[..i]) && AllSpace(s[i + |Trim(s)|..])
  {
    var t := TrimStart(s);
    var r := TrimEnd(t);
    var i := |s| - |t|;
    assert Trim(s) == r;
    TrimStartSuffix(s);
    TrimEndPrefix(t);
    assert s == s[..i] + (r + t[|r|..]);
    Slices(s[..i], r, t[|r|..]);
  }

  lemma Slices(a: string, r: string, q: string)
    ensures var s := a + (r + q);
      s[..|a|] == a && s[|a|..|a| + |r|] == r && s[|a| + |r|..] == q
  {
  }

  /** `trim()` yields the empty string exactly for all-white-space strings: the test
      `line.trim() === ''` for blank lines. */
  lemma TrimEmptyIffBlank(s: string)
    ensures Trim(s) == [] <==> AllSpace(s)
  {
    var t := TrimStart(s);
    if Trim(s) == [] {
      TrimStartSuffix(s);
      TrimEndPrefix(t);
      assert t[|TrimEnd(t)|..] == t;
      assert t == [];
      assert s[..|s|] == s;
    }
    if AllSpace(s) {
      AllSpaceTrimStart(s);
    }
  }

  lemma {:induction false} AllSpaceTrimStart(s: string)
    requires AllSpace(s)
    ensures TrimStart(s) == []
  {
    if s != [] {
      assert AllSpace(s[1..]) by {
        forall k | 0 <= k < |s| - 1 ensures IsSpace(s[1..][k]) {
          assert s[1..][k] == s[k + 1];
        }
      }
      AllSpaceTrimStart(s[1..]);
    }
  }

  /** A trimmed string is its own trim. */
  lemma TrimIdempotent(s: string)
    ensures Trim(Trim(s)) == Trim(s)
  {
    var r := Trim(s);
    if r != [] {
      assert TrimStart(r) == r;
      assert TrimEnd(r) == r;
    }
  }

  /** Joins lines with `\n` between them, as `lines.join('\n')` does. */
  function JoinLines(lines: seq<string>): string
  {
    if lines == [] then ""
    else if |lines| == 1 then lines[0]
    else lines[0] + "\n" + JoinLines(lines[1..])
  }

  /** Joining one more line adds a line feed and the line. */
  lemma {:induction false} JoinLinesSnoc(lines: seq<string>, line: string)
    requires lines != []
    ensures JoinLines(lines + [line]) == JoinLines(lines) + "\n" + line
  {
    if |lines| > 1 {
      assert (lines + [line])[1..] == lines[1..] + [line];
      JoinLinesSnoc(lines[1..], line);
    }
  }

  /** `s.split('\n')`: always at least one line, no line holds a line feed, and joining
      the lines again gives back `s`. */
  function SplitLines(s: string): (r: seq<string>)
    ensures |r| >= 1
    ensures forall k :: 0 <= k < |r| ==> '\n' !in r[k]
    ensures JoinLines(r) == s
  {
    if s == [] then [""]
    else
      var rest := SplitLines(s[1..]);
      if s[0] == '\n' then
        assert s == "\n" + s[1..];
        [""] + rest
      else
        var r := [[s[0]] + rest[0]] + rest[1..];
        assert r[1..] == rest[1..];
        assert s == [s[0]] + s[1..];
        r
  }

  /** The other half of the round trip: splitting joined lines that hold no line feed
      gives the lines back. */
  lemma {:induction false} SplitJoin(lines: seq<string>)
    requires |lines| >= 1
    requires forall k :: 0 <= k < |lines| ==> '\n' !in lines[k]
    ensures SplitLines(JoinLines(lines)) == lines
  {
    if |lines| == 1 {
      SplitNoNewline(lines[0]);
    } else {
      SplitJoin(lines[1..]);
      SplitPrefix(lines[0], JoinLines(lines[1..]));
    }
  }

  /** A string with no line feed is one line. */
  lemma {:induction false} SplitNoNewline(s: string)
    requires '\n' !in s
    ensures SplitLines(s) == [s]
  {
    if s != [] {
      assert '\n' !in s[1..] by {
        forall k | 0 <= k < |s[1..]| ensures s[1..][k] != '\n' {
          assert s[1..][k] == s[k + 1];
        }
      }
      SplitNoNewline(s[1..]);
      assert [s[0]] + s[1..] == s;
    }
  }

  /** Splitting `a + "\n" + b` where `a` has no line feed puts `a` first. */
  lemma {:induction false} SplitPrefix(a: string, b: string)
    requires '\n' !in a
    ensures SplitLines(a + "\n" + b) == [a] + SplitLines(b)
  {
    if a == [] {
      assert a + "\n" + b == "\n" + b;
      assert ("\n" + b)[1..] == b;
    } else {
      assert '\n' !in a[1..] by {
        forall k | 0 <= k < |a[1..]| ensures a[1..][k] != '\n' {
          assert a[1..][k] == a[k + 1];
        }
      }
      var s := a + "\n" + b;
      assert s[0] == a[0] && s[1..] == a[1..] + "\n" + b;
      SplitPrefix(a[1..], b);
      var rest := SplitLines(s[1..]);
      assert rest[0] == a[1..] && rest[1..] == SplitLines(b);
      assert SplitLines(s) == [[a[0]] + rest[0]] + rest[1..];
      assert [a[0]] + a[1..] == a;
    }
  }

  function DigitChar(d: nat): (c: char)
    requires d < 10
    ensures IsDigit(c) && (c as int) - ('0' as int) == d
  {
    (('0' as int) + d) as char
  }

  /** Decimal digits of `n` with no leading zero, as a template literal prints a number. */
  function Decimal(n: nat): (r: string)
    ensures |r| >= 1
    ensures forall k :: 0 <= k < |r| ==> IsDigit(r[k])
    ensures |r| > 1 ==> r[0] != '0'
    decreases n
  {
    if n < 10 then [DigitChar(n)] else Decimal(n / 10) + [DigitChar(n % 10)]
  }

  /** The value a string of decimal digits denotes (the inverse of `Decimal`). */
  function DecimalValue(s: string): int
  {
    if s == [] then 0
    else 10 * DecimalValue(s[..|s| - 1]) + ((s[|s| - 1] as int) - ('0' as int))
  }

  lemma {:induction false} DecimalRoundTrip(n: nat)
    ensures DecimalValue(Decimal(n)) == n
    decreases n
  {
    if n >= 10 {
      DecimalRoundTrip(n / 10);
      var r := Decimal(n);
      assert r[..|r| - 1] == Decimal(n / 10);
    }
  }

  /** Two different numbers never print alike. */
  lemma DecimalInjective(m: nat, n: nat)
    requires Decimal(m) == Decimal(n)
    ensures m == n
  {
    DecimalRoundTrip(m);
    DecimalRoundTrip(n);
  }

  function HexDigit(d: nat): (c: char)
    requires d < 16
  {
    if d < 10 then DigitChar(d) else (('a' as int) + d - 10) as char
  }

  /** How `JSON.stringify` writes one code point inside a string literal. */
  function JsonEscapeChar(c: char): string
  {
    if c == '"' then "\\\""
    else if c == '\\' then "\\\\"
    else if c == '\U{8}' then "\\b"
    else if c == '\U{C}' then "\\f"
    else if c == '\n' then "\\n"
    else if c == '\r' then "\\r"
    else if c == '\t' then "\\t"
    else if (c as int) < 0x20 then "\\u00" + [HexDigit((c as int) / 16), HexDigit((c as int) % 16)]
    else [c]
  }

  function JsonEscape(s: string): string
  {
    if s == [] then "" else JsonEscapeChar(s[0]) + JsonEscape(s[1..])
  }

  /** `JSON.stringify` of a string value: quoted, with quotes, backslashes and control
      characters escaped. */
  function JsonQuote(s: string): (r: string)
    ensures |r| >= 2 && r[0] == '"' && r[|r| - 1] == '"'
  {
    "\"" + JsonEscape(s) + "\""
  }

  function HexValue(c: char): (v: int)
    ensures -1 <= v < 16
  {
    if '0' <= c <= '9' then (c as int) - ('0' as int)
    else if 'a' <= c <= 'f' then (c as int) - ('a' as int) + 10
    else -1
  }

  /** Reads one (possibly escaped) code point at the head of a JSON string body: the
      code point and how many characters it took. */
  function DecodeOne(s: string): (r: (char, nat))
    requires s != []
    ensures 1 <= r.1 <= |s|
  {
    if s[0] != '\\' || |s| == 1 then (s[0], 1)
    else if s[1] == 'b' then ('\U{8}', 2)
    else if s[1] == 'f' then ('\U{C}', 2)
    else if s[1] == 'n' then ('\n', 2)
    else if s[1] == 'r' then ('\r', 2)
    else if s[1] == 't' then ('\t', 2)
    else if s[1] == 'u' && |s| >= 6 && s[2] == '0' && s[3] == '0'
      && HexValue(s[4]) >= 0 && HexValue(s[5]) >= 0 then
      ((16 * HexValue(s[4]) + HexValue(s[5])) as char, 6)
    else (s[1], 2)
  }

  /** Reads back the body of a JSON string literal produced by `JsonEscape`; the partner
      that shows the escaping loses nothing. */
  function JsonUnescape(s: string): string
    decreases |s|
  {
    if s == [] then "" else var (c, n) := DecodeOne(s); [c] + JsonUnescape(s[n..])
  }

  /** Each escape `JSON.stringify` writes is read back as the code point it stands for. */
  lemma DecodeEscaped(c: char, t: string)
    ensures DecodeOne(JsonEscapeChar(c) + t) == (c, |JsonEscapeChar(c)|)
  {
    var e := JsonEscapeChar(c);
    var s := e + t;
    if c == '"' || c == '\\' || c == '\U{8}' || c == '\U{C}' || c == '\n' || c == '\r' || c == '\t' {
      assert s[0] == '\\' && s[1] == e[1];
    } else if (c as int) < 0x20 {
      var hi, lo := (c as int) / 16, (c as int) % 16;
      assert hi == 0 || hi == 1;
      assert HexValue(HexDigit(hi)) == hi;
      assert HexValue(HexDigit(lo)) == lo;
      assert s[..6] == e;
      assert s[1] == 'u' && s[2] == '0' && s[3] == '0';
      assert s[4] == HexDigit(hi) && s[5] == HexDigit(lo);
    } else {
      assert s[0] == c;
    }
  }

  /** Unescaping undoes `JSON.stringify`'s escaping for every string. */
  lemma {:induction false} JsonEscapeRoundTrip(s: string)
    ensures JsonUnescape(JsonEscape(s)) == s
  {
    if s != [] {
      var e, t := JsonEscapeChar(s[0]), JsonEscape(s[1..]);
      DecodeEscaped(s[0], t);
      assert (e + t)[|e|..] == t;
      JsonEscapeRoundTrip(s[1..]);
      assert [s[0]] + s[1..] == s;
    }
  }

}
