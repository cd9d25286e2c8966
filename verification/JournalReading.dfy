/**
 The text of a journal record determines the record: values are told apart by their first character,
 and each of them ends where a reader stops.
 */
module JournalReading {
  import opened Wrappers
  import opened JournalText
  import opened JournalRecords
  import Decimals

  /** Text behind a value: nothing, or what may follow it inside an object or array. */
  predicate Follows(rest: string) {
    rest == [] || rest[0] == ',' || rest[0] == '}' || rest[0] == ']'
  }

  lemma QuotedSplits(a: string, rest: string, b: string, rest': string)
    requires Quoted(a) + rest == Quoted(b) + rest'
    ensures a == b && rest == rest'
  {
    hide Escaped, ReadLiteral;
    LiteralRoundTrip(a, rest);
    LiteralRoundTrip(b, rest');
    assert (Quoted(a) + rest)[1..] == Escaped(a) + QUOTE + rest;
    assert (Quoted(b) + rest')[1..] == Escaped(b) + QUOTE + rest';
  }

  lemma DigitsSplit(a: nat, rest: string, b: nat, rest': string)
    requires Decimals.Digits(a) + rest == Decimals.Digits(b) + rest'
    requires Follows(rest) && Follows(rest')
    ensures a == b && rest == rest'
  {
    hide Decimals.Digits;
    var x, y := Decimals.Digits(a), Decimals.Digits(b);
    var s := x + rest;
    assert forall k :: 0 <= k < |x| ==> s[k] == x[k] && Decimals.IsDigit(s[k]);
    assert forall k :: 0 <= k < |y| ==> s[k] == y[k] && Decimals.IsDigit(s[k]);
    assert |x| < |s| ==> s[|x|] == rest[0];
    assert |y| < |s| ==> s[|y|] == rest'[0];
    assert x == s[..|x|] && y == s[..|y|] && rest == s[|x|..] && rest' == s[|y|..];
    Decimals.DigitsValue(a);
    Decimals.DigitsValue(b);
  }

  lemma NumberSplits(n: int, rest: string, m: int, rest': string)
    requires NumberText(n) + rest == NumberText(m) + rest'
    requires Follows(rest) && Follows(rest')
    ensures n == m && rest == rest'
  {
    hide Decimals.Digits;
    NumberStarts(n);
    NumberStarts(m);
    SameFirst(NumberText(n), rest, NumberText(m), rest');
    if n < 0 {
      BehindFirst('-', Decimals.Digits(-n), rest);
      BehindFirst('-', Decimals.Digits(-m), rest');
      DigitsSplit(-n, rest, -m, rest');
    } else {
      DigitsSplit(n, rest, m, rest');
    }
  }

  lemma SameFirst(a: string, rest: string, b: string, rest': string)
    requires a + rest == b + rest' && a != [] && b != []
    ensures a[0] == b[0]
  {
    assert (a + rest)[0] == a[0] && (b + rest')[0] == b[0];
  }

  lemma BehindFirst(c: char, s: string, rest: string)
    ensures ([c] + s + rest)[1..] == s + rest
  {
  }

  lemma NumberStarts(n: int)
    ensures |NumberText(n)| > 0 && (NumberText(n)[0] == '-' <==> n < 0)
    ensures NumberText(n)[0] == '-' || Decimals.IsDigit(NumberText(n)[0])
  {
    hide Decimals.Digits;
  }

  function KindOf(c: char): nat {
    if c == '"' then 0 else if c == '{' then 1 else if c == '[' then 2 else 3
  }

  function Kind(j: Json): nat {
    match j
    case Text(_) => 0
    case Object(_) => 1
    case Array(_) => 2
    case Number(_) => 3
  }

  lemma RenderStarts(j: Json)
    ensures |Render(j)| > 0 && KindOf(Render(j)[0]) == Kind(j)
  {
    hide Decimals.Digits, Escaped;
    if j.Number? {
      NumberStarts(j.number);
    }
  }

  /** Two values with texts that go on differently only where a value can end are the same value. */
  lemma {:induction false} RenderSplits(j: Json, rest: string, k: Json, rest': string)
    requires Render(j) + rest == Render(k) + rest' && Follows(rest) && Follows(rest')
    ensures j == k && rest == rest'
    decreases j
  {
    hide Quoted, NumberText, RenderFields, RenderItems;
    RenderStarts(j);
    RenderStarts(k);
    assert (Render(j) + rest)[0] == Render(j)[0] && (Render(k) + rest')[0] == Render(k)[0];
    match j {
      case Text(s) => QuotedSplits(s, rest, k.text, rest');
      case Number(n) => NumberSplits(n, rest, k.number, rest');
      case Object(fields) =>
        assert (Render(j) + rest)[1..] == RenderFields(fields, true) + (['}'] + rest);
        assert (Render(k) + rest')[1..] == RenderFields(k.fields, true) + (['}'] + rest');
        FieldsSplit(fields, true, rest, k.fields, rest');
      case Array(items) =>
        assert (Render(j) + rest)[1..] == RenderItems(items, true) + ([']'] + rest);
        assert (Render(k) + rest')[1..] == RenderItems(k.items, true) + ([']'] + rest');
        ItemsSplit(items, true, rest, k.items, rest');
    }
  }

  lemma FieldsStart(fields: Fields, first: bool, rest: string)
    ensures var s := RenderFields(fields, first) + (['}'] + rest);
            |s| > 0 && s[0] == (if fields.NoFields? then '}' else if first then '"' else ',')
  {
    hide Escaped, Render;
  }

  /** A first field apart: separator, key, colon, value, and the rest of the object. */
  lemma FieldSplitsOff(fields: Fields, first: bool, rest: string)
    requires fields.Field?
    ensures var s, tail := RenderFields(fields, first) + (['}'] + rest), RenderFields(fields.others, false) + (['}'] + rest);
            && s == Separator(first) + (Quoted(fields.key) + ([':'] + (Render(fields.value) + tail)))
            && Follows(tail)
  {
    hide Quoted, Render, Separator;
    FieldsStart(fields.others, false, rest);
    var sep, key, value, others := Separator(first), Quoted(fields.key), Render(fields.value), RenderFields(fields.others, false);
    Regroup(sep, key, [':'], value, others, ['}'] + rest);
  }

  lemma Regroup(a: string, b: string, c: string, d: string, e: string, f: string)
    ensures a + b + c + d + e + f == a + (b + (c + (d + (e + f))))
  {
  }

  lemma RegroupShort(a: string, b: string, c: string, d: string)
    ensures a + b + c + d == a + (b + (c + d))
  {
  }

  lemma {:induction false} FieldsSplit(fields: Fields, first: bool, rest: string, fields': Fields, rest': string)
    requires RenderFields(fields, first) + (['}'] + rest) == RenderFields(fields', first) + (['}'] + rest')
    ensures fields == fields' && rest == rest'
    decreases fields
  {
    hide Quoted, Render, RenderFields;
    FieldsStart(fields, first, rest);
    FieldsStart(fields', first, rest');
    if fields.NoFields? {
      NoFieldsLeft(first, rest);
      NoFieldsLeft(first, rest');
    } else {
      FieldSplitsOff(fields, first, rest);
      FieldSplitsOff(fields', first, rest');
      var tail, tail' := RenderFields(fields.others, false) + (['}'] + rest), RenderFields(fields'.others, false) + (['}'] + rest');
      var value, value' := [':'] + (Render(fields.value) + tail), [':'] + (Render(fields'.value) + tail');
      Dropped(Separator(first), Quoted(fields.key) + value, Quoted(fields'.key) + value');
      QuotedSplits(fields.key, value, fields'.key, value');
      Dropped([':'], Render(fields.value) + tail, Render(fields'.value) + tail');
      RenderSplits(fields.value, tail, fields'.value, tail');
      FieldsSplit(fields.others, false, rest, fields'.others, rest');
    }
  }

  lemma NoFieldsLeft(first: bool, rest: string)
    ensures RenderFields(NoFields, first) + (['}'] + rest) == ['}'] + rest
    ensures (['}'] + rest)[1..] == rest
  {
  }

  lemma Dropped(a: string, b: string, c: string)
    requires a + b == a + c
    ensures b == c
  {
    assert b == (a + b)[|a|..] && c == (a + c)[|a|..];
  }

  lemma ItemsStart(items: Items, first: bool, rest: string)
    ensures var s := RenderItems(items, first) + ([']'] + rest);
            |s| > 0 && (items.NoItems? ==> s[0] == ']') && (items.Item? && !first ==> s[0] == ',')
            && (items.Item? && first ==> s[0] != ']')
  {
    hide Render;
    if items.Item? {
      RenderStarts(items.item);
      RenderStartsNoBracket(items.item);
    }
  }

  lemma RenderStartsNoBracket(j: Json)
    ensures |Render(j)| > 0 && Render(j)[0] != ']'
  {
    hide Decimals.Digits, Escaped;
    if j.Number? {
      NumberStarts(j.number);
    }
  }

  lemma ItemSplitsOff(items: Items, first: bool, rest: string)
    requires items.Item?
    ensures var s, tail := RenderItems(items, first) + ([']'] + rest), RenderItems(items.rest, false) + ([']'] + rest);
            s == Separator(first) + (Render(items.item) + tail) && Follows(tail)
  {
    hide Render, Separator;
    ItemsStart(items.rest, false, rest);
    var sep, value, others := Separator(first), Render(items.item), RenderItems(items.rest, false);
    RegroupShort(sep, value, others, [']'] + rest);
  }

  lemma {:induction false} ItemsSplit(items: Items, first: bool, rest: string, items': Items, rest': string)
    requires RenderItems(items, first) + ([']'] + rest) == RenderItems(items', first) + ([']'] + rest')
    ensures items == items' && rest == rest'
    decreases items
  {
    hide Render, RenderItems;
    ItemsStart(items, first, rest);
    ItemsStart(items', first, rest');
    if items.NoItems? {
      NoItemsLeft(first, rest);
      NoItemsLeft(first, rest');
    } else {
      ItemSplitsOff(items, first, rest);
      ItemSplitsOff(items', first, rest');
      var tail, tail' := RenderItems(items.rest, false) + ([']'] + rest), RenderItems(items'.rest, false) + ([']'] + rest');
      Dropped(Separator(first), Render(items.item) + tail, Render(items'.item) + tail');
      RenderSplits(items.item, tail, items'.item, tail');
      ItemsSplit(items.rest, false, rest, items'.rest, rest');
    }
  }

  lemma NoItemsLeft(first: bool, rest: string)
    ensures RenderItems(NoItems, first) + ([']'] + rest) == [']'] + rest
    ensures ([']'] + rest)[1..] == rest
  {
  }

  /** Different values have different texts. */
  lemma RenderIsInjective(j: Json, k: Json)
    requires Render(j) == Render(k)
    ensures j == k
  {
    hide Render;
    assert Render(j) + [] == Render(j) && Render(k) + [] == Render(k);
    RenderSplits(j, [], k, []);
  }
}
