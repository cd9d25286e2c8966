/**
 Fixed-point decimals with eight fractional digits, held as a signed 64-bit raw value.
 Arithmetic goes through a wider integer, truncates toward zero and is then checked
 against the 64-bit range.
 */
module Decimals {
  import opened Wrappers

  const SCALE := 100_000_000
  const PRECISION := 8
  const MAXIMUM_FORMATTED_SIZE := 32
  const INT64_MAX := 0x7fff_ffff_ffff_ffff
  const INT64_MIN := -0x8000_0000_0000_0000

  datatype DecimalError =
    | EmptyText | NoDigits | MultiplePoints | TooPrecise | InvalidCharacters
    | Overflow | DivisionByZero | BufferTooSmall

  predicate InRange(raw: int) {
    INT64_MIN <= raw <= INT64_MAX
  }

  function Abs(x: int): (r: int)
    ensures r >= 0 && (r == x || r == -x)
  {
    if x < 0 then -x else x
  }

  /** Division as the source language defines it: the quotient is truncated toward zero. */
  function TruncDiv(a: int, b: int): (q: int)
    requires b != 0
  {
    if (a < 0) != (b < 0) then -(Abs(a) / Abs(b)) else Abs(a) / Abs(b)
  }

  /** Exact-width products and quotients, before the range check. */
  function Product(lhs: int, rhs: int): int {
    TruncDiv(lhs * rhs, SCALE)
  }

  function Quotient(lhs: int, rhs: int): int
    requires rhs != 0
  {
    TruncDiv(lhs * SCALE, rhs)
  }

  function Checked(wide: int): Result<int, DecimalError> {
    if InRange(wide) then Ok(wide) else Err(Overflow)
  }

  function Add(lhs: int, rhs: int): Result<int, DecimalError> {
    Checked(lhs + rhs)
  }

  function Mul(lhs: int, rhs: int): Result<int, DecimalError> {
    Checked(Product(lhs, rhs))
  }

  function Div(lhs: int, rhs: int): Result<int, DecimalError> {
    if rhs == 0 then Err(DivisionByZero) else Checked(Quotient(lhs, rhs))
  }

  // ----- text -----

  function Pow10(n: nat): (p: int)
    ensures p >= 1
  {
    if n == 0 then 1 else 10 * Pow10(n - 1)
  }

  predicate IsDigit(c: char) {
    '0' <= c <= '9'
  }

  predicate AllDigits(s: string) {
    forall i :: 0 <= i < |s| ==> IsDigit(s[i])
  }

  function DigitChar(d: int): (c: char)
    requires 0 <= d <= 9
    ensures IsDigit(c) && DigitValue(c) == d
  {
    '0' + d as char
  }

  function DigitValue(c: char): (d: int)
    requires IsDigit(c)
    ensures 0 <= d <= 9
  {
    c as int - '0' as int
  }

  /** The number a string of digits denotes; the empty string denotes zero. */
  function Value(s: string): (v: int)
    requires AllDigits(s)
    ensures v >= 0
  {
    if s == "" then 0 else 10 * Value(s[..|s| - 1]) + DigitValue(s[|s| - 1])
  }

  /** Shortest decimal text of a natural number. */
  function Digits(n: int): (s: string)
    requires n >= 0
    ensures s != "" && AllDigits(s)
  {
    if n < 10 then [DigitChar(n)] else Digits(n / 10) + [DigitChar(n % 10)]
  }

  /** The low `width` decimal digits of a number, most significant first. */
  function Fixed(n: int, width: nat): (s: string)
    requires n >= 0
    ensures |s| == width && AllDigits(s)
  {
    seq(width, i requires 0 <= i < width => DigitChar(n / Pow10(width - 1 - i) % 10))
  }

  function TrimZeros(s: string): (t: string)
    ensures t <= s
    ensures t != "" ==> t[|t| - 1] != '0'
    ensures forall k :: |t| <= k < |s| ==> s[k] == '0'
  {
    if s != "" && s[|s| - 1] == '0' then TrimZeros(s[..|s| - 1]) else s
  }

  /** The text of a raw value: sign, whole part, and a fraction without trailing zeros. */
  function Format(raw: int): (text: string) {
    var magnitude := Abs(raw);
    Sign(raw) + Digits(magnitude / SCALE) + FractionPart(magnitude % SCALE)
  }

  function Sign(raw: int): string {
    if raw < 0 then "-" else ""
  }

  function FractionPart(fraction: int): string
    requires 0 <= fraction
  {
    if fraction == 0 then "" else "." + TrimZeros(Fixed(fraction, PRECISION))
  }

  /** Position of the first decimal point at or after `from`, or the length of the text. */
  function PointFrom(s: string, from: nat): (r: nat)
    requires from <= |s|
    ensures from <= r <= |s| && (r < |s| ==> s[r] == '.')
    ensures forall k :: from <= k < r ==> s[k] != '.'
    decreases |s| - from
  {
    if from == |s| || s[from] == '.' then from else PointFrom(s, from + 1)
  }

  /** A whole-string signed 64-bit integer read: an optional minus sign and at least one digit. */
  function FromChars(s: string): Option<int> {
    var negative := s != "" && s[0] == '-';
    var digits := if negative then s[1..] else s;
    if digits == "" || !AllDigits(digits) then None
    else
      var value := if negative then -Value(digits) else Value(digits);
      if InRange(value) then Some(value) else None
  }

  function ParseDigits(s: string): Result<int, DecimalError> {
    if s == "" then Ok(0)
    else match FromChars(s)
         case Some(v) => Ok(v)
         case None => Err(InvalidCharacters)
  }

  /** Reads the two sides of the point. */
  function ParseParts(whole: string, fraction: string, negative: bool): Result<int, DecimalError> {
    if whole == "" && fraction == "" then Err(NoDigits)
    else if |fraction| > PRECISION then Err(TooPrecise)
    else Assemble(ParseDigits(whole), ParseDigits(fraction), Pow10(PRECISION - |fraction|), negative)
  }

  function ParseUnsigned(text: string, negative: bool): Result<int, DecimalError> {
    var dot := PointFrom(text, 0);
    if text == "" then Err(NoDigits)
    else if dot == |text| then ParseParts(text, "", negative)
    else if PointFrom(text, dot + 1) < |text| then Err(MultiplePoints)
    else ParseParts(text[..dot], text[dot + 1..], negative)
  }

  function Assemble(whole: Result<int, DecimalError>, fraction: Result<int, DecimalError>, fractionScale: int, negative: bool): Result<int, DecimalError> {
    if whole.Err? then whole
    else if fraction.Err? then fraction
    else
      var raw := whole.value * SCALE + fraction.value * fractionScale;
      Checked(if negative then -raw else raw)
  }

  function ParseSpec(text: string): Result<int, DecimalError> {
    if text == "" then Err(EmptyText)
    else if text[0] == '+' || text[0] == '-' then ParseUnsigned(text[1..], text[0] == '-')
    else ParseUnsigned(text, false)
  }

  // ----- the two imperative routines -----

  /** Scales a fraction of the given width by repeated multiplication. */
  method FractionScale(width: nat) returns (fractionScale: int)
    requires width <= PRECISION
    ensures fractionScale == Pow10(PRECISION - width)
  {
    fractionScale := 1;
    var i := width;
    while i < PRECISION
      invariant width <= i <= PRECISION
      invariant fractionScale == Pow10(i - width)
    {
      fractionScale := fractionScale * 10;
      i := i + 1;
    }
  }

  method FindPoint(text: string, from: nat) returns (r: nat)
    requires from <= |text|
    ensures r == PointFrom(text, from)
  {
    r := from;
    while r < |text| && text[r] != '.'
      invariant from <= r <= |text|
      invariant PointFrom(text, from) == PointFrom(text, r)
    {
      r := r + 1;
    }
  }

  method ParseBothSides(whole: string, fraction: string, negative: bool) returns (r: Result<int, DecimalError>)
    ensures r == ParseParts(whole, fraction, negative)
  {
    if whole == "" && fraction == "" {
      return Err(NoDigits);
    }
    if |fraction| > PRECISION {
      return Err(TooPrecise);
    }
    var fractionScale := FractionScale(|fraction|);
    r := Assemble(ParseDigits(whole), ParseDigits(fraction), fractionScale, negative);
  }

  method ParseMagnitude(rest: string, negative: bool) returns (r: Result<int, DecimalError>)
    ensures r == ParseUnsigned(rest, negative)
  {
    if rest == "" {
      return Err(NoDigits);
    }
    var dot := FindPoint(rest, 0);
    if dot == |rest| {
      r := ParseBothSides(rest, "", negative);
      return;
    }
    var second := FindPoint(rest, dot + 1);
    if second < |rest| {
      return Err(MultiplePoints);
    }
    r := ParseBothSides(rest[..dot], rest[dot + 1..], negative);
  }

  method Parse(text: string) returns (r: Result<int, DecimalError>)
    ensures r == ParseSpec(text)
  {
    if text == "" {
      return Err(EmptyText);
    }
    if text[0] == '+' || text[0] == '-' {
      r := ParseMagnitude(text[1..], text[0] == '-');
    } else {
      r := ParseMagnitude(text, false);
    }
  }

  /** Copies text into the buffer at an offset; what precedes it stays. */
  method WriteText(buffer: array<char>, at: nat, text: string) returns (end: nat)
    requires at + |text| <= buffer.Length
    modifies buffer
    ensures end == at + |text|
    ensures buffer[..end] == old(buffer[..at]) + text
  {
    end := at;
    for i := 0 to |text|
      invariant end == at + i
      invariant buffer[..end] == old(buffer[..at]) + text[..i]
    {
      buffer[end] := text[i];
      end := end + 1;
    }
    assert text[..|text|] == text;
  }

  /** Writes eight fraction digits, most significant first, by a shrinking divisor. */
  method WriteFraction(buffer: array<char>, at: nat, fraction: int) returns (end: nat)
    requires at + PRECISION <= buffer.Length && 0 <= fraction
    modifies buffer
    ensures end == at + PRECISION
    ensures buffer[..end] == old(buffer[..at]) + Fixed(fraction, PRECISION)
  {
    end := at;
    var divisor := SCALE / 10;
    assert Pow10(3) == 1_000 && Pow10(7) == 10_000 * Pow10(3);
    ghost var full := Fixed(fraction, PRECISION);
    for index := 0 to PRECISION
      invariant end == at + index
      invariant index < PRECISION ==> divisor == Pow10(PRECISION - 1 - index)
      invariant buffer[..end] == old(buffer[..at]) + full[..index]
    {
      buffer[end] := DigitChar(fraction / divisor % 10);
      divisor := divisor / 10;
      end := end + 1;
    }
    assert full[..PRECISION] == full;
  }

  /** Steps back over trailing zeros; a nonzero digit stops it before the text in front. */
  method TrimTail(buffer: array<char>, limit: nat, ghost head: string, ghost full: string) returns (end: nat)
    requires limit <= buffer.Length && buffer[..limit] == head + full
    requires TrimZeros(full) != ""
    ensures |head| < end <= limit
    ensures buffer[..end] == head + TrimZeros(full)
  {
    end := limit;
    ghost var shown := full;
    while buffer[end - 1] == '0'
      invariant |head| < end <= limit
      invariant buffer[..end] == head + shown
      invariant TrimZeros(shown) == TrimZeros(full)
      decreases end
    {
      assert buffer[end - 1] == shown[|shown| - 1];
      shown := shown[..|shown| - 1];
      end := end - 1;
    }
    assert buffer[end - 1] == shown[|shown| - 1];
  }

  /** Writes the point and the fraction digits, then trims the zeros just written. */
  method WritePointed(buffer: array<char>, at: nat, fraction: int) returns (end: nat)
    requires at + 1 + PRECISION <= buffer.Length && 0 < fraction < SCALE
    modifies buffer
    ensures end <= buffer.Length
    ensures buffer[..end] == old(buffer[..at]) + FractionPart(fraction)
  {
    var point := WriteText(buffer, at, ".");
    var limit := WriteFraction(buffer, point, fraction);
    TrimmedFraction(fraction);
    end := TrimTail(buffer, limit, old(buffer[..at]) + ".", Fixed(fraction, PRECISION));
  }

  /** Writes the text into the caller's buffer and trims it in place. */
  method FormatTo(raw: int, buffer: array<char>) returns (r: Result<nat, DecimalError>)
    requires InRange(raw)
    modifies buffer
    ensures buffer.Length < MAXIMUM_FORMATTED_SIZE <==> r.Err?
    ensures r.Ok? ==> r.value <= buffer.Length && buffer[..r.value] == Format(raw)
  {
    if buffer.Length < MAXIMUM_FORMATTED_SIZE {
      return Err(BufferTooSmall);
    }
    FormatFits(raw);
    var magnitude := Abs(raw);
    var fraction := magnitude % SCALE;
    var output := WriteText(buffer, 0, Sign(raw));
    output := WriteText(buffer, output, Digits(magnitude / SCALE));
    if fraction == 0 {
      return Ok(output);
    }
    output := WritePointed(buffer, output, fraction);
    r := Ok(output);
  }

  // ----- digits and values -----

  lemma {:induction false} DigitsValue(n: int)
    requires n >= 0
    ensures Value(Digits(n)) == n
  {
    if n >= 10 {
      DigitsValue(n / 10);
      assert Digits(n)[..|Digits(n)| - 1] == Digits(n / 10);
    } else {
      assert Digits(n)[..0] == "";
    }
  }

  lemma {:induction false} DigitsLength(n: int, k: nat)
    requires 0 <= n < Pow10(k) && k >= 1
    ensures |Digits(n)| <= k
  {
    if n >= 10 {
      assert Pow10(1) == 10;
      DigitsLength(n / 10, k - 1);
    }
  }

  lemma {:induction false} FixedValue(n: int, width: nat)
    requires 0 <= n < Pow10(width)
    ensures Value(Fixed(n, width)) == n
  {
    if width > 0 {
      FixedValue(n / 10, width - 1);
      FixedStep(n, width);
    }
  }

  lemma FixedStep(n: int, width: nat)
    requires n >= 0 && width > 0
    ensures Fixed(n, width) == Fixed(n / 10, width - 1) + [DigitChar(n % 10)]
  {
    forall i | 0 <= i < width - 1
      ensures Fixed(n, width)[i] == Fixed(n / 10, width - 1)[i]
    {
      var p := Pow10(width - 2 - i);
      assert Pow10(width - 1 - i) == 10 * p;
      DivDiv(n, p);
    }
    assert Pow10(0) == 1;
  }

  lemma DivDiv(n: int, p: int)
    requires n >= 0 && p >= 1
    ensures n / 10 / p == n / (10 * p)
  {
    var q, r := n / 10, n % 10;
    var a, b := q / p, q % p;
    assert n == 10 * p * a + (10 * b + r);
    assert 0 <= 10 * b + r < 10 * p;
    DivUnique(n, 10 * p, a, 10 * b + r);
  }

  lemma DivUnique(n: int, d: int, q: int, r: int)
    requires d >= 1 && n == d * q + r && 0 <= r < d
    ensures n / d == q
  {
    var q' := n / d;
    assert d * q' <= n < d * q' + d;
    if q > q' {
      MulMonotone(d, q' + 1, q);
    } else if q < q' {
      MulMonotone(d, q + 1, q');
    }
  }

  lemma MulMonotone(d: int, a: int, b: int)
    requires d >= 0 && a <= b
    ensures d * a <= d * b
  {
    assert d * b == d * a + d * (b - a);
  }

  /** Trimming a nonzero fraction keeps its value up to the power of ten it drops. */
  lemma {:induction false} TrimValue(s: string)
    requires AllDigits(s)
    ensures AllDigits(TrimZeros(s))
    ensures Value(TrimZeros(s)) * Pow10(|s| - |TrimZeros(s)|) == Value(s)
    ensures Value(s) > 0 ==> TrimZeros(s) != ""
  {
    if s != "" && s[|s| - 1] == '0' {
      var t := s[..|s| - 1];
      TrimValue(t);
      assert TrimZeros(s) == TrimZeros(t);
      TimesTen(Value(TrimZeros(t)), Pow10(|t| - |TrimZeros(t)|));
    }
  }

  lemma TimesTen(v: int, p: int)
    ensures v * (10 * p) == 10 * (v * p)
  {
  }

  /** Every raw value fits the 32-byte buffer with room to spare. */
  lemma FormatFits(raw: int)
    requires InRange(raw)
    ensures |Format(raw)| <= 21 < MAXIMUM_FORMATTED_SIZE
    ensures |Digits(Abs(raw) / SCALE)| <= 11
  {
    assert Pow10(11) == 100_000_000_000 by {
      assert Pow10(4) == 10_000;
      assert Pow10(8) == 10_000 * Pow10(4);
    }
    DigitsLength(Abs(raw) / SCALE, 11);
  }

  /** The fraction part never ends in zero, and is never empty after a point. */
  lemma FormatHasNoTrailingZeros(raw: int)
    requires '.' in Format(raw)
    ensures Format(raw)[|Format(raw)| - 1] != '0'
    ensures Format(raw)[|Format(raw)| - 1] != '.'
  {
    var fraction := Abs(raw) % SCALE;
    if fraction != 0 {
      TrimmedFraction(fraction);
      TrimValue(Fixed(fraction, PRECISION));
      var t := TrimZeros(Fixed(fraction, PRECISION));
      assert Format(raw)[|Format(raw)| - 1] == t[|t| - 1];
      assert IsDigit(t[|t| - 1]);
    } else {
      NoPoint(Digits(Abs(raw) / SCALE));
      assert false;
    }
  }

  lemma NoPoint(s: string)
    requires AllDigits(s)
    ensures '.' !in s
  {
    assert forall c :: c in s ==> IsDigit(c);
  }

  lemma DigitsRead(s: string)
    requires s != "" && AllDigits(s) && InRange(Value(s))
    ensures ParseDigits(s) == Ok(Value(s))
  {
    assert IsDigit(s[0]);
  }

  lemma PointAt(text: string, from: nat, at: nat)
    requires from <= at <= |text|
    requires forall k :: from <= k < at ==> text[k] != '.'
    requires at < |text| ==> text[at] == '.'
    ensures PointFrom(text, from) == at
    decreases at - from
  {
    if from < at {
      PointAt(text, from + 1, at);
    }
  }

  /** Where the pieces of pointed text are found again. */
  lemma PointedText(w: string, f: string, text: string, negative: bool)
    requires AllDigits(w) && AllDigits(f) && text == w + "." + f
    ensures ParseUnsigned(text, negative) == ParseParts(w, f, negative)
  {
    NoPoint(w);
    NoPoint(f);
    assert text[|w|] == '.';
    assert forall k :: 0 <= k < |w| ==> text[k] == w[k];
    PointAt(text, 0, |w|);
    assert forall k :: |w| + 1 <= k < |text| ==> text[k] == f[k - |w| - 1];
    PointAt(text, |w| + 1, |text|);
    assert text[..|w|] == w && text[|w| + 1..] == f;
  }

  lemma UnpointedText(w: string, negative: bool)
    requires w != "" && AllDigits(w)
    ensures ParseUnsigned(w, negative) == ParseParts(w, "", negative)
  {
    NoPoint(w);
    PointAt(w, 0, |w|);
  }

  lemma TrimmedFraction(fraction: int)
    requires 0 < fraction < SCALE
    ensures TrimZeros(Fixed(fraction, PRECISION)) != ""
    ensures Value(Fixed(fraction, PRECISION)) == fraction
  {
    assert Pow10(PRECISION) == SCALE by { assert Pow10(4) == 10_000; }
    FixedValue(fraction, PRECISION);
    TrimValue(Fixed(fraction, PRECISION));
  }

  lemma FractionRead(fraction: int)
    requires 0 < fraction < SCALE
    ensures var f := TrimZeros(Fixed(fraction, PRECISION));
            && 0 < |f| <= PRECISION && AllDigits(f) && InRange(Value(f))
            && Value(f) * Pow10(PRECISION - |f|) == fraction
  {
    TrimmedFraction(fraction);
    var full := Fixed(fraction, PRECISION);
    TrimValue(full);
    MulAtLeast(Value(TrimZeros(full)), Pow10(PRECISION - |TrimZeros(full)|));
  }

  lemma AssembleScaled(whole: int, fraction: int, fractionScale: int, scaled: int, negative: bool)
    requires fraction * fractionScale == scaled
    ensures Assemble(Ok(whole), Ok(fraction), fractionScale, negative)
            == Checked(if negative then -(whole * SCALE + scaled) else whole * SCALE + scaled)
  {
  }

  lemma PartsRoundTrip(whole: int, fraction: int, negative: bool)
    requires 0 <= whole <= INT64_MAX && 0 <= fraction < SCALE
    ensures var f := if fraction == 0 then "" else TrimZeros(Fixed(fraction, PRECISION));
            ParseParts(Digits(whole), f, negative)
            == Checked(if negative then -(whole * SCALE + fraction) else whole * SCALE + fraction)
  {
    DigitsValue(whole);
    DigitsRead(Digits(whole));
    if fraction == 0 {
      AssembleScaled(whole, 0, Pow10(PRECISION), 0, negative);
    } else {
      var f := TrimZeros(Fixed(fraction, PRECISION));
      FractionRead(fraction);
      DigitsRead(f);
      AssembleScaled(whole, Value(f), Pow10(PRECISION - |f|), fraction, negative);
    }
  }

  lemma FormatShape(magnitude: int)
    requires 0 <= magnitude
    ensures var w := Digits(magnitude / SCALE);
            var fraction := magnitude % SCALE;
            Format(magnitude) == if fraction == 0 then w else w + "." + TrimZeros(Fixed(fraction, PRECISION))
  {
  }

  /** Unsigned text of a magnitude reads back with the sign the caller stripped. */
  lemma UnsignedRoundTrip(magnitude: int, negative: bool, text: string)
    requires 0 <= magnitude && InRange(if negative then -magnitude else magnitude)
    requires text == Format(magnitude)
    ensures ParseUnsigned(text, negative) == Ok(if negative then -magnitude else magnitude)
  {
    var whole, fraction := magnitude / SCALE, magnitude % SCALE;
    FormatShape(magnitude);
    if fraction == 0 {
      calc {
        ParseUnsigned(text, negative);
        { UnpointedText(text, negative); }
        ParseParts(text, "", negative);
        { PartsRoundTrip(whole, fraction, negative); }
        Checked(if negative then -magnitude else magnitude);
      }
    } else {
      var f := TrimZeros(Fixed(fraction, PRECISION));
      calc {
        ParseUnsigned(text, negative);
        { TrimmedDigits(fraction); PointedText(Digits(whole), f, text, negative); }
        ParseParts(Digits(whole), f, negative);
        { PartsRoundTrip(whole, fraction, negative); }
        Checked(if negative then -magnitude else magnitude);
      }
    }
  }

  lemma TrimmedDigits(n: int)
    requires n >= 0
    ensures AllDigits(TrimZeros(Fixed(n, PRECISION)))
  {
  }

  lemma MulAtLeast(v: int, p: int)
    requires v >= 0 && p >= 1
    ensures v <= v * p
  {
    assert v * p == v + v * (p - 1);
  }

  /** Parsing the formatted text of any 64-bit raw value, the minimum included, returns it. */
  lemma RoundTrip(raw: int)
    requires InRange(raw)
    ensures ParseSpec(Format(raw)) == Ok(raw)
  {
    if raw < 0 {
      assert Format(raw)[1..] == Format(-raw);
      UnsignedRoundTrip(-raw, true, Format(-raw));
    } else {
      assert IsDigit(Digits(raw / SCALE)[0]);
      assert Format(raw)[0] == Digits(raw / SCALE)[0];
      UnsignedRoundTrip(raw, false, Format(raw));
    }
  }
}
