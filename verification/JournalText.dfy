/**
 The text of journal records: string escaping as JSON requires it (section 7 of RFC 8259), the JSON
 values the serializer writes, and the envelope around a payload. Characters stand for bytes.
 */
module JournalText {
  import opened Wrappers

  // ----- string literals -----

  function HexDigit(d: nat): char
    requires d < 16
  {
    if d < 10 then '0' + d as char else 'a' + (d - 10) as char
  }

  function EscapeChar(c: char): string {
    if c == '"' then ['\\', '"']
    else if c == '\\' then ['\\', '\\']
    else if c == '\n' then ['\\', 'n']
    else if c == '\r' then ['\\', 'r']
    else if c == '\t' then ['\\', 't']
    else if c as int < 0x20 then ['\\', 'u', '0', '0', HexDigit(c as int / 16), HexDigit(c as int % 16)]
    else [c]
  }

  function Escaped(s: string): string {
    if s == "" then "" else Escaped(s[..|s| - 1]) + EscapeChar(s[|s| - 1])
  }

  const QUOTE := ['"']

  function Quoted(s: string): string {
    QUOTE + Escaped(s) + QUOTE
  }

  /** Appends a string literal to the buffer, character by character. */
  method WriteString(b: string, s: string) returns (r: string)
    ensures r == b + Quoted(s)
  {
    hide EscapeChar, Escaped;
    r := b + QUOTE;
    EscapedNothing();
    for i := 0 to |s|
      invariant r == b + QUOTE + Escaped(s[..i])
    {
      EscapedNext(s[..i], s[i]);
      assert s[..i + 1] == s[..i] + [s[i]];
      r := r + EscapeChar(s[i]);
    }
    assert s[..|s|] == s;
    r := r + QUOTE;
  }

  function HexValue(c: char): Option<nat> {
    if '0' <= c <= '9' then Some(c as int - '0' as int)
    else if 'a' <= c <= 'f' then Some(c as int - 'a' as int + 10)
    else if 'A' <= c <= 'F' then Some(c as int - 'A' as int + 10)
    else None
  }

  /** The character a two-character escape stands for. */
  function Unescape(c: char): Option<char> {
    if c == '"' then Some('"')
    else if c == '\\' then Some('\\')
    else if c == '/' then Some('/')
    else if c == 'b' then Some(8 as char)
    else if c == 'f' then Some(12 as char)
    else if c == 'n' then Some('\n')
    else if c == 'r' then Some('\r')
    else if c == 't' then Some('\t')
    else None
  }

  datatype Literal = Literal(value: string, rest: string)

  /** A four-digit escape of a code below 0x100, which is all the writer produces. */
  function UnicodeEscape(text: string): Option<char>
    requires |text| >= 6
  {
    var high, low := HexValue(text[4]), HexValue(text[5]);
    if text[2] == '0' && text[3] == '0' && high.Some? && low.Some? then Some((high.value * 16 + low.value) as char) else None
  }

  /** Reads the rest of a string literal after its opening quote, as a JSON reader does. */
  function ReadLiteral(text: string): Option<Literal>
    decreases |text|
  {
    if text == "" || text[0] as int < 0x20 then None
    else if text[0] == '"' then Some(Literal("", text[1..]))
    else if text[0] != '\\' then Prepend(text[0], ReadLiteral(text[1..]))
    else if |text| >= 6 && text[1] == 'u' then
      (match UnicodeEscape(text)
       case None => None
       case Some(c) => Prepend(c, ReadLiteral(text[6..])))
    else if |text| >= 2 then
      (match Unescape(text[1])
       case None => None
       case Some(c) => Prepend(c, ReadLiteral(text[2..])))
    else None
  }

  function Prepend(c: char, r: Option<Literal>): Option<Literal> {
    match r
    case None => None
    case Some(l) => Some(Literal([c] + l.value, l.rest))
  }

  lemma EscapeCharReadsBack(c: char, rest: string)
    ensures ReadLiteral(EscapeChar(c) + rest) == Prepend(c, ReadLiteral(rest))
  {
    var unit := EscapeChar(c);
    var text := unit + rest;
    assert text[|unit|..] == rest;
    if c as int < 0x20 && c != '\n' && c != '\r' && c != '\t' {
      var high, low := c as int / 16, c as int % 16;
      assert HexValue(HexDigit(high)) == Some(high) && HexValue(HexDigit(low)) == Some(low);
      assert high * 16 + low == c as int;
    }
  }

  lemma EscapedNext(s: string, c: char)
    ensures Escaped(s + [c]) == Escaped(s) + EscapeChar(c)
  {
    hide EscapeChar;
    assert (s + [c])[..|s|] == s;
  }

  lemma {:induction false} EscapedInTurn(a: string, b: string)
    ensures Escaped(a + b) == Escaped(a) + Escaped(b)
    decreases |b|
  {
    hide EscapeChar, Escaped;
    if b == "" {
      assert a + b == a;
      EscapedNothing();
    } else {
      var short, last := b[..|b| - 1], b[|b| - 1];
      EscapedInTurn(a, short);
      EscapedNext(a + short, last);
      EscapedNext(short, last);
      assert a + b == a + short + [last] && b == short + [last];
    }
  }

  lemma EscapedNothing()
    ensures Escaped("") == ""
  {
  }

  lemma ClosingQuoteReadsBack(rest: string)
    ensures ReadLiteral(QUOTE + rest) == Some(Literal("", rest))
  {
    assert (QUOTE + rest)[1..] == rest;
  }

  lemma EscapedFirst(s: string)
    requires s != ""
    ensures Escaped(s) == EscapeChar(s[0]) + Escaped(s[1..])
  {
    hide EscapeChar;
    EscapedInTurn([s[0]], s[1..]);
    assert [s[0]] + s[1..] == s;
    assert [s[0]][..0] == "";
    assert Escaped([s[0]]) == EscapeChar(s[0]);
  }

  /** Reading a written literal returns the string and exactly what followed the literal. */
  lemma {:induction false} LiteralRoundTrip(s: string, rest: string)
    ensures ReadLiteral(Escaped(s) + QUOTE + rest) == Some(Literal(s, rest))
    decreases |s|
  {
    hide ReadLiteral, EscapeChar;
    if s == "" {
      assert Escaped(s) + QUOTE + rest == QUOTE + rest;
      ClosingQuoteReadsBack(rest);
    } else {
      LiteralRoundTrip(s[1..], rest);
      EscapedFirst(s);
      EscapeCharReadsBack(s[0], Escaped(s[1..]) + QUOTE + rest);
      assert Escaped(s) + QUOTE + rest == EscapeChar(s[0]) + (Escaped(s[1..]) + QUOTE + rest);
      assert [s[0]] + s[1..] == s;
    }
  }

  /** Two different strings never have the same literal. */
  lemma LiteralsAreDistinct(a: string, b: string)
    requires Quoted(a) == Quoted(b)
    ensures a == b
  {
    hide Escaped, ReadLiteral;
    LiteralRoundTrip(a, "");
    LiteralRoundTrip(b, "");
    assert Quoted(a)[1..] == Escaped(a) + QUOTE + "" && Quoted(b)[1..] == Escaped(b) + QUOTE + "";
  }

  predicate Clean(s: string) {
    forall i :: 0 <= i < |s| ==> s[i] as int >= 0x20
  }

  lemma {:induction false} EscapedIsClean(s: string)
    ensures Clean(Escaped(s))
  {
    if s != "" {
      EscapedIsClean(s[..|s| - 1]);
      assert Clean(EscapeChar(s[|s| - 1]));
    }
  }

  /** A literal is a single line: it holds no control character, whatever the string holds. */
  lemma LiteralIsOneLine(s: string)
    ensures Clean(Quoted(s)) && '\n' !in Quoted(s)
  {
    hide Escaped;
    EscapedIsClean(s);
  }
}
