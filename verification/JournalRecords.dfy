/**
 Journal records as JSON text. Every record is one line, and no proper part of it from its beginning
 could be taken for a record: a bracket stays open until the last character.
 */
module JournalRecords {
  import opened Wrappers
  import opened JournalText
  import Decimals

  // ----- the values the serializer writes -----

  datatype Json = Text(text: string) | Number(number: int) | Object(fields: Fields) | Array(items: Items)
  datatype Fields = NoFields | Field(key: string, value: Json, others: Fields)
  datatype Items = NoItems | Item(item: Json, rest: Items)

  function NumberText(n: int): string {
    if n < 0 then ['-'] + Decimals.Digits(-n) else Decimals.Digits(n)
  }

  function Render(j: Json): string {
    match j
    case Text(s) => Quoted(s)
    case Number(n) => NumberText(n)
    case Object(fields) => ['{'] + RenderFields(fields, true) + ['}']
    case Array(items) => ['['] + RenderItems(items, true) + [']']
  }

  function Separator(first: bool): string {
    if first then [] else [',']
  }

  function RenderFields(fields: Fields, first: bool): string {
    match fields
    case NoFields => []
    case Field(key, value, others) =>
      Separator(first) + Quoted(key) + [':'] + Render(value) + RenderFields(others, false)
  }

  function RenderItems(items: Items, first: bool): string {
    match items
    case NoItems => []
    case Item(item, rest) => Separator(first) + Render(item) + RenderItems(rest, false)
  }

  function TextItems(texts: seq<string>): Items {
    if texts == [] then NoItems else Item(Text(texts[0]), TextItems(texts[1..]))
  }

  function Rendered(texts: seq<string>): string {
    if texts == [] then []
    else Rendered(texts[..|texts| - 1]) + Separator(|texts| == 1) + Quoted(texts[|texts| - 1])
  }

  lemma RenderedNext(texts: seq<string>, i: nat)
    requires i < |texts|
    ensures Rendered(texts[..i + 1]) == Rendered(texts[..i]) + Separator(i == 0) + Quoted(texts[i])
  {
    hide Quoted;
    assert texts[..i + 1][..i] == texts[..i];
  }

  lemma RenderedWhole(texts: seq<string>)
    ensures Render(Array(TextItems(texts))) == ['['] + Rendered(texts) + [']']
  {
    hide Quoted;
    RenderedInTurn(texts, [], true);
    assert [] + texts == texts;
  }

  /** Appends a set of strings, in whatever order the set yields them. */
  method WriteStringSet(b: string, texts: seq<string>) returns (r: string)
    ensures r == b + Render(Array(TextItems(texts)))
  {
    hide Quoted, Render, Rendered, TextItems;
    r := b + ['['];
    var first := true;
    RenderedNothing();
    for i := 0 to |texts|
      invariant first == (i == 0)
      invariant r == b + ['['] + Rendered(texts[..i])
    {
      RenderedNext(texts, i);
      ghost var before := r;
      if !first {
        r := r + [','];
      }
      assert r == before + Separator(i == 0);
      r := WriteString(r, texts[i]);
      first := false;
    }
    assert texts[..|texts|] == texts;
    RenderedWhole(texts);
    r := r + [']'];
  }

  lemma RenderedNothing()
    ensures Rendered([]) == []
  {
  }

  lemma {:induction false} RenderedInTurn(texts: seq<string>, done: seq<string>, first: bool)
    requires first == (done == [])
    ensures Rendered(done + texts) == Rendered(done) + RenderItems(TextItems(texts), first)
    decreases |texts|
  {
    hide Quoted;
    if texts == [] {
      assert done + texts == done;
    } else {
      var more := done + [texts[0]];
      assert done + texts == more + texts[1..];
      assert more[..|more| - 1] == done;
      RenderedInTurn(texts[1..], more, false);
    }
    if done == [] {
      assert done + texts == texts;
    }
  }

  /** The envelope of a record; the checksum text is computed elsewhere. */
  function RecordLine(sequence: nat, kind: string, writtenAt: int, payload: Json, checksum: string): string {
    Render(Object(Envelope(sequence, kind, writtenAt, payload, checksum)))
  }

  function Envelope(sequence: nat, kind: string, writtenAt: int, payload: Json, checksum: string): Fields {
    Field("schemaVersion", Number(1),
    Field("recordSequence", Number(sequence),
    Field("format", Text("json"),
    Field("type", Text(kind),
    Field("writtenAt", Number(writtenAt),
    Field("payload", payload,
    Field("checksum", Text(checksum), NoFields)))))))
  }

  // ----- scanning text for brackets and literals -----

  datatype Scan = Scan(depth: int, inString: bool, escaped: bool)

  function Next(st: Scan, c: char): Scan {
    if st.inString then
      if st.escaped then Scan(st.depth, true, false)
      else if c == '\\' then Scan(st.depth, true, true)
      else if c == '"' then Scan(st.depth, false, false)
      else st
    else if c == '"' then Scan(st.depth, true, false)
    else if c == '{' || c == '[' then Scan(st.depth + 1, false, false)
    else if c == '}' || c == ']' then Scan(st.depth - 1, false, false)
    else st
  }

  function Scanned(st: Scan, s: string): Scan
    decreases |s|
  {
    if s == [] then st else Scanned(Next(st, s[0]), s[1..])
  }

  const OUTSIDE := Scan(0, false, false)

  /** Every bracket and every literal is closed; all JSON texts have this. */
  predicate Closed(s: string) {
    Scanned(OUTSIDE, s) == OUTSIDE
  }

  /** Scanning never goes below a depth. */
  predicate Stays(st: Scan, s: string, floor: int)
    decreases |s|
  {
    st.depth >= floor && (s == [] || Stays(Next(st, s[0]), s[1..], floor))
  }

  lemma {:induction false} ScannedInTurn(st: Scan, a: string, b: string)
    ensures Scanned(st, a + b) == Scanned(Scanned(st, a), b)
    decreases |a|
  {
    hide Next;
    if a == [] {
      assert a + b == b;
    } else {
      assert (a + b)[1..] == a[1..] + b;
      ScannedInTurn(Next(st, a[0]), a[1..], b);
    }
  }

  lemma {:induction false} StaysInTurn(st: Scan, a: string, b: string, floor: int)
    requires Stays(st, a, floor) && Stays(Scanned(st, a), b, floor)
    ensures Stays(st, a + b, floor)
    decreases |a|
  {
    hide Next;
    if a == [] {
      assert a + b == b;
    } else {
      assert (a + b)[1..] == a[1..] + b;
      StaysInTurn(Next(st, a[0]), a[1..], b, floor);
    }
  }

  lemma {:induction false} PrefixStays(st: Scan, s: string, floor: int, k: nat)
    requires Stays(st, s, floor) && k <= |s|
    ensures Scanned(st, s[..k]).depth >= floor
    decreases |s|
  {
    hide Next;
    if k > 0 {
      assert s[..k][1..] == s[1..][..k - 1];
      PrefixStays(Next(st, s[0]), s[1..], floor, k - 1);
    }
  }

  /** Letters other than those of true, false, null and of exponents, which JSON has only inside literals. */
  predicate IsStray(c: char) {
    ('a' <= c <= 'z' || 'A' <= c <= 'Z') && c !in ['a', 'e', 'f', 'l', 'n', 'r', 's', 't', 'u', 'E']
  }

  /** Scanning meets such a letter outside literals. */
  predicate Strays(st: Scan, s: string)
    decreases |s|
  {
    s != [] && ((!st.inString && IsStray(s[0])) || Strays(Next(st, s[0]), s[1..]))
  }

  lemma {:induction false} StraysInTurn(st: Scan, a: string, b: string)
    ensures Strays(st, a + b) <==> Strays(st, a) || Strays(Scanned(st, a), b)
    decreases |a|
  {
    hide Next, IsStray;
    if a == [] {
      assert a + b == b;
    } else {
      assert (a + b)[1..] == a[1..] + b;
      StraysInTurn(Next(st, a[0]), a[1..], b);
    }
  }

  /** Text that leaves the scanner where it was, never goes below its depth and has no stray letter. */
  predicate Passes(st: Scan, s: string) {
    Scanned(st, s) == st && Stays(st, s, st.depth) && !Strays(st, s)
  }

  lemma PassesInTurn(st: Scan, a: string, b: string)
    requires Passes(st, a) && Passes(st, b)
    ensures Passes(st, a + b)
  {
    hide Scanned, Stays, Strays;
    ScannedInTurn(st, a, b);
    StaysInTurn(st, a, b, st.depth);
    StraysInTurn(st, a, b);
  }

  lemma NothingPasses(st: Scan)
    ensures Passes(st, [])
  {
  }

  lemma OneCharPasses(st: Scan, c: char)
    requires Next(st, c) == st && (st.inString || !IsStray(c))
    ensures Passes(st, [c])
  {
  }

  lemma EscapePasses(depth: int, c: char)
    ensures Passes(Scan(depth, true, false), EscapeChar(c))
  {
    var st := Scan(depth, true, false);
    if c == '"' || c == '\\' || c == '\n' || c == '\r' || c == '\t' {
      PairPasses(depth, EscapeChar(c)[1]);
    } else if c as int < 0x20 {
      var unit := EscapeChar(c);
      PairPasses(depth, 'u');
      OneCharPasses(st, '0');
      PassesInTurn(st, ['\\', 'u'], ['0']);
      PassesInTurn(st, ['\\', 'u'] + ['0'], ['0']);
      OneCharPasses(st, unit[4]);
      OneCharPasses(st, unit[5]);
      PassesInTurn(st, ['\\', 'u'] + ['0'] + ['0'], [unit[4]]);
      PassesInTurn(st, ['\\', 'u'] + ['0'] + ['0'] + [unit[4]], [unit[5]]);
      assert unit == ['\\', 'u'] + ['0'] + ['0'] + [unit[4]] + [unit[5]];
    } else {
      OneCharPasses(st, c);
    }
  }

  lemma PairPasses(depth: int, c: char)
    ensures Passes(Scan(depth, true, false), ['\\', c])
  {
    var st := Scan(depth, true, false);
    assert ['\\', c][1..] == [c] && [c][1..] == [];
    assert Next(Next(st, '\\'), c) == st;
    assert Stays(st, [], depth) && Stays(Next(st, '\\'), [c], depth);
    assert Scanned(Next(st, '\\'), [c]) == st;
    assert !Strays(st, []) && !Strays(Next(st, '\\'), [c]);
  }

  lemma {:induction false} EscapedPasses(depth: int, s: string)
    ensures Passes(Scan(depth, true, false), Escaped(s))
  {
    hide Passes, EscapeChar;
    if s == "" {
      NothingPasses(Scan(depth, true, false));
    } else {
      EscapedPasses(depth, s[..|s| - 1]);
      EscapePasses(depth, s[|s| - 1]);
      PassesInTurn(Scan(depth, true, false), Escaped(s[..|s| - 1]), EscapeChar(s[|s| - 1]));
    }
  }

  /** Text between an opening and a closing character passes when it passes one state further in. */
  lemma BracketedPasses(st: Scan, open: char, s: string, close: char)
    requires Next(st, open).depth >= st.depth && Next(Next(st, open), close) == st && !IsStray(open) && !IsStray(close)
    requires Passes(Next(st, open), s)
    ensures Passes(st, [open] + s + [close])
  {
    var inner := Next(st, open);
    OneStep(st, open, st.depth);
    StaysLower(inner, s, inner.depth, st.depth);
    StaysInTurn(st, [open], s, st.depth);
    ScannedInTurn(st, [open], s);
    OneStep(inner, close, st.depth);
    StaysInTurn(st, [open] + s, [close], st.depth);
    ScannedInTurn(st, [open] + s, [close]);
    StraysInTurn(st, [open], s);
    StraysInTurn(st, [open] + s, [close]);
  }

  lemma OneStep(st: Scan, c: char, floor: int)
    requires st.depth >= floor && Next(st, c).depth >= floor
    ensures Stays(st, [c], floor) && Scanned(st, [c]) == Next(st, c)
    ensures !IsStray(c) ==> !Strays(st, [c])
  {
    hide Next;
    assert [c][1..] == [];
  }

  lemma {:induction false} StaysLower(st: Scan, s: string, floor: int, lower: int)
    requires Stays(st, s, floor) && lower <= floor
    ensures Stays(st, s, lower)
    decreases |s|
  {
    hide Next;
    if s != [] {
      StaysLower(Next(st, s[0]), s[1..], floor, lower);
    }
  }

  lemma QuotedPasses(depth: int, s: string)
    ensures Passes(Scan(depth, false, false), Quoted(s))
  {
    hide Passes, Escaped;
    EscapedPasses(depth, s);
    BracketedPasses(Scan(depth, false, false), '"', Escaped(s), '"');
    assert ['"'] + Escaped(s) + ['"'] == Quoted(s);
  }

  lemma {:induction false} PlainPasses(depth: int, s: string)
    requires forall i :: 0 <= i < |s| ==> s[i] == '-' || s[i] == ',' || s[i] == ':' || Decimals.IsDigit(s[i])
    ensures Passes(Scan(depth, false, false), s)
    decreases |s|
  {
    var st := Scan(depth, false, false);
    if s != [] {
      PlainPasses(depth, s[1..]);
      OneCharPasses(st, s[0]);
      assert s == [s[0]] + s[1..];
      PassesInTurn(st, [s[0]], s[1..]);
    }
  }

  lemma SeparatorPasses(depth: int, first: bool)
    ensures Passes(Scan(depth, false, false), Separator(first)) && Passes(Scan(depth, false, false), [':'])
  {
    PlainPasses(depth, Separator(first));
    PlainPasses(depth, [':']);
  }

  lemma {:induction false} RenderPasses(depth: int, j: Json)
    ensures Passes(Scan(depth, false, false), Render(j))
    decreases j
  {
    hide Passes, Quoted, Decimals.Digits;
    match j
    case Text(s) => QuotedPasses(depth, s);
    case Number(n) => PlainPasses(depth, NumberText(n));
    case Object(fields) =>
      FieldsPass(depth + 1, fields, true);
      BracketedPasses(Scan(depth, false, false), '{', RenderFields(fields, true), '}');
    case Array(items) =>
      ItemsPass(depth + 1, items, true);
      BracketedPasses(Scan(depth, false, false), '[', RenderItems(items, true), ']');
  }

  lemma {:induction false} FieldsPass(depth: int, fields: Fields, first: bool)
    ensures Passes(Scan(depth, false, false), RenderFields(fields, first))
    decreases fields
  {
    hide Passes, Quoted, Separator;
    var st := Scan(depth, false, false);
    match fields
    case NoFields => NothingPasses(st);
    case Field(key, value, others) =>
      SeparatorPasses(depth, first);
      QuotedPasses(depth, key);
      RenderPasses(depth, value);
      FieldsPass(depth, others, false);
      PassesInTurn(st, Separator(first), Quoted(key));
      PassesInTurn(st, Separator(first) + Quoted(key), [':']);
      PassesInTurn(st, Separator(first) + Quoted(key) + [':'], Render(value));
      PassesInTurn(st, Separator(first) + Quoted(key) + [':'] + Render(value), RenderFields(others, false));
  }

  lemma {:induction false} ItemsPass(depth: int, items: Items, first: bool)
    ensures Passes(Scan(depth, false, false), RenderItems(items, first))
    decreases items
  {
    hide Passes, Separator;
    var st := Scan(depth, false, false);
    match items
    case NoItems => NothingPasses(st);
    case Item(item, rest) =>
      SeparatorPasses(depth, first);
      RenderPasses(depth, item);
      ItemsPass(depth, rest, false);
      PassesInTurn(st, Separator(first), Render(item));
      PassesInTurn(st, Separator(first) + Render(item), RenderItems(rest, false));
  }

  // ----- one line -----

  lemma CleanInTurn(a: string, b: string)
    requires Clean(a) && Clean(b)
    ensures Clean(a + b)
  {
  }

  lemma {:induction false} RenderIsClean(j: Json)
    ensures Clean(Render(j))
    decreases j
  {
    hide Quoted, Decimals.Digits;
    match j
    case Text(s) => LiteralIsOneLine(s);
    case Number(n) => {}
    case Object(fields) => FieldsAreClean(fields, true);
    case Array(items) => ItemsAreClean(items, true);
  }

  lemma {:induction false} FieldsAreClean(fields: Fields, first: bool)
    ensures Clean(RenderFields(fields, first))
    decreases fields
  {
    hide Quoted, Clean;
    match fields
    case NoFields => NothingIsClean(first);
    case Field(key, value, others) =>
      NothingIsClean(first);
      LiteralIsOneLine(key);
      RenderIsClean(value);
      FieldsAreClean(others, false);
      CleanInTurn(Separator(first), Quoted(key));
      CleanInTurn(Separator(first) + Quoted(key), [':']);
      CleanInTurn(Separator(first) + Quoted(key) + [':'], Render(value));
      CleanInTurn(Separator(first) + Quoted(key) + [':'] + Render(value), RenderFields(others, false));
  }

  lemma {:induction false} ItemsAreClean(items: Items, first: bool)
    ensures Clean(RenderItems(items, first))
    decreases items
  {
    hide Clean;
    match items
    case NoItems => NothingIsClean(first);
    case Item(item, rest) =>
      NothingIsClean(first);
      RenderIsClean(item);
      ItemsAreClean(rest, false);
      CleanInTurn(Separator(first), Render(item));
      CleanInTurn(Separator(first) + Render(item), RenderItems(rest, false));
  }

  lemma NothingIsClean(first: bool)
    ensures Clean([]) && Clean(Separator(first)) && Clean([':'])
  {
  }

  // ----- what the journal relies on -----

  /** A single line that only its last character completes. */
  ghost predicate Framed(line: string) {
    && line != [] && '\n' !in line && Closed(line)
    && (forall k :: 0 < k < |line| ==> !Closed(line[..k]))
  }

  /** Every object the serializer writes is framed, whatever strings and numbers it holds. */
  lemma ObjectsAreFramed(fields: Fields)
    ensures Framed(Render(Object(fields)))
  {
    hide Passes, RenderFields, Scanned, Stays;
    var line := Render(Object(fields));
    RenderIsClean(Object(fields));
    RenderPasses(0, Object(fields));
    assert Closed(line) by { PassesParts(OUTSIDE, line); }
    forall k | 0 < k < |line|
      ensures !Closed(line[..k])
    {
      OpenUntilTheEnd(fields, k);
    }
  }

  lemma PassesParts(st: Scan, s: string)
    requires Passes(st, s)
    ensures Scanned(st, s) == st && Stays(st, s, st.depth) && !Strays(st, s)
  {
  }

  lemma OpenUntilTheEnd(fields: Fields, k: nat)
    requires 0 < k < |Render(Object(fields))|
    ensures Scanned(OUTSIDE, Render(Object(fields))[..k]).depth > 0
  {
    hide Passes, RenderFields, Stays, Scanned;
    var inner := RenderFields(fields, true);
    var st := Next(OUTSIDE, '{');
    FieldsPass(1, fields, true);
    PassesParts(st, inner);
    PrefixStays(st, inner, 1, k - 1);
    assert Render(Object(fields))[..k] == ['{'] + inner[..k - 1];
    ScannedInTurn(OUTSIDE, ['{'], inner[..k - 1]);
    OneStep(OUTSIDE, '{', 0);
  }

  /** Every journal record is framed. */
  lemma RecordsAreFramed(sequence: nat, kind: string, writtenAt: int, payload: Json, checksum: string)
    ensures Framed(RecordLine(sequence, kind, writtenAt, payload, checksum))
  {
    hide Framed, Envelope;
    ObjectsAreFramed(Envelope(sequence, kind, writtenAt, payload, checksum));
  }
}
