/** Request fingerprints: flat texts that identify a request's payload for idempotent retries. */
module Fingerprints {
  import opened Wrappers
  import opened Orders
  import D = Decimals

  // ----- the texts -----

  function Signed(n: int): string {
    if n < 0 then "-" + D.Digits(-n) else D.Digits(n)
  }

  function Number(n: int): string {
    Signed(n) + "|"
  }

  function Text(s: string): string {
    D.Digits(|s|) + ":" + s + "|"
  }

  /** An absent price or quantity is written as the smallest raw value. */
  function RawOr(value: Option<int>): int {
    if value.Some? then value.value else D.INT64_MIN
  }

  function VenueCode(v: Venue): int { if v.Okx? then 0 else 1 }
  function SideCode(s: Side): int { if s.Buy? then 0 else 1 }
  function TypeCode(t: OrderType): int { if t.Market? then 0 else 1 }
  function TimeInForceCode(t: TimeInForce): int { if t.Gtc? then 0 else if t.Ioc? then 1 else 2 }

  const CREATE_MARK := "v2|CREATE|"
  const AMEND_MARK := "v2|AMEND|"
  const CANCEL_MARK := "v2|CANCEL|"

  function CreateFields(q: OrderRequest): string {
    Text(q.clientOrderId) + (Number(VenueCode(q.venue)) + (Text(q.symbol) + Terms(q)))
  }

  function Terms(q: OrderRequest): string {
    Number(SideCode(q.side)) + (Number(TypeCode(q.orderType)) + (Number(RawOr(q.price))
    + (Number(q.quantity) + (Number(TimeInForceCode(q.timeInForce)) + ""))))
  }

  function CreateFingerprint(q: OrderRequest): string {
    CREATE_MARK + CreateFields(q)
  }

  function AmendFields(q: AmendRequest): string {
    Text(q.clientOrderId) + (Number(RawOr(q.newPrice)) + Signed(RawOr(q.newQuantity)))
  }

  function AmendFingerprint(q: AmendRequest): string {
    AMEND_MARK + AmendFields(q)
  }

  function CancelFingerprint(q: CancelRequest): string {
    CANCEL_MARK + q.clientOrderId
  }

  // ----- how a stored fingerprint is compared -----

  /** A stored text matches the current form, or a legacy JSON object (passed in by the caller). */
  predicate CreateMatches(stored: string, q: OrderRequest, legacy: string) {
    stored == CreateFingerprint(q) || (stored != "" && stored[0] == '{' && stored == legacy)
  }

  predicate AmendMatches(stored: string, q: AmendRequest, legacy: string) {
    stored == AmendFingerprint(q) || (stored != "" && stored[0] == '{' && stored == legacy)
  }

  predicate CancelMatches(stored: string, q: CancelRequest) {
    stored == CancelFingerprint(q) || stored == "cancel:" + q.clientOrderId
  }

  // ----- reading the fields back -----

  /** Two texts that agree up to a terminator neither contains agree on both sides of it. */
  lemma SplitAtTerminator(a: string, rest: string, a': string, rest': string, terminator: char)
    requires terminator !in a && terminator !in a'
    requires a + [terminator] + rest == a' + [terminator] + rest'
    ensures a == a' && rest == rest'
  {
    var s := a + [terminator] + rest;
    assert s[|a|] == terminator && s[|a'|] == terminator;
    assert forall k :: 0 <= k < |a| ==> s[k] == a[k] && a[k] != terminator;
    assert forall k :: 0 <= k < |a'| ==> s[k] == a'[k] && a'[k] != terminator;
    assert a == s[..|a|] == a';
    assert rest == s[|a| + 1..] == rest';
  }

  lemma SignedIsInjective(n: int, m: int)
    requires Signed(n) == Signed(m)
    ensures n == m
  {
    assert D.IsDigit(D.Digits(D.Abs(n))[0]) && D.IsDigit(D.Digits(D.Abs(m))[0]);
    assert n < 0 <==> Signed(n)[0] == '-';
    assert m < 0 <==> Signed(m)[0] == '-';
    if n < 0 {
      assert Signed(n)[1..] == D.Digits(-n) && Signed(m)[1..] == D.Digits(-m);
      D.DigitsValue(-n);
      D.DigitsValue(-m);
    } else {
      D.DigitsValue(n);
      D.DigitsValue(m);
    }
  }

  lemma SignedHasNo(n: int, c: char)
    requires !D.IsDigit(c) && c != '-'
    ensures c !in Signed(n)
  {
    var d := D.Digits(D.Abs(n));
    assert forall x :: x in d ==> D.IsDigit(x);
  }

  lemma NumberSplits(n: int, rest: string, m: int, rest': string)
    requires Number(n) + rest == Number(m) + rest'
    ensures n == m && rest == rest'
  {
    SignedHasNo(n, '|');
    SignedHasNo(m, '|');
    assert Number(n) + rest == Signed(n) + ['|'] + rest;
    assert Number(m) + rest' == Signed(m) + ['|'] + rest';
    SplitAtTerminator(Signed(n), rest, Signed(m), rest', '|');
    SignedIsInjective(n, m);
  }

  lemma TextSplits(s: string, rest: string, t: string, rest': string)
    requires Text(s) + rest == Text(t) + rest'
    ensures s == t && rest == rest'
  {
    SignedHasNo(|s|, ':');
    SignedHasNo(|t|, ':');
    assert Text(s) + rest == Signed(|s|) + [':'] + (s + "|" + rest);
    assert Text(t) + rest' == Signed(|t|) + [':'] + (t + "|" + rest');
    SplitAtTerminator(Signed(|s|), s + "|" + rest, Signed(|t|), t + "|" + rest', ':');
    SignedIsInjective(|s|, |t|);
    assert s == (s + "|" + rest)[..|s|] == t;
    assert rest == (s + "|" + rest)[|s| + 1..] == rest';
  }

  // ----- injectivity -----

  /** A request with an absent price read as the smallest raw value: what the text can tell apart. */
  function Visible(q: OrderRequest): OrderRequest {
    q.(price := Some(RawOr(q.price)))
  }

  function VisibleAmend(q: AmendRequest): AmendRequest {
    q.(requestId := "", newPrice := Some(RawOr(q.newPrice)), newQuantity := Some(RawOr(q.newQuantity)))
  }

  lemma TermsSplit(q: OrderRequest, p: OrderRequest)
    requires Terms(q) == Terms(p)
    ensures q.side == p.side && q.orderType == p.orderType && RawOr(q.price) == RawOr(p.price)
    ensures q.quantity == p.quantity && q.timeInForce == p.timeInForce
  {
    hide Number;
    var tifQ, tifP := Number(TimeInForceCode(q.timeInForce)) + "", Number(TimeInForceCode(p.timeInForce)) + "";
    var qtyQ, qtyP := Number(q.quantity) + tifQ, Number(p.quantity) + tifP;
    var priceQ, priceP := Number(RawOr(q.price)) + qtyQ, Number(RawOr(p.price)) + qtyP;
    var typeQ, typeP := Number(TypeCode(q.orderType)) + priceQ, Number(TypeCode(p.orderType)) + priceP;
    NumberSplits(SideCode(q.side), typeQ, SideCode(p.side), typeP);
    NumberSplits(TypeCode(q.orderType), priceQ, TypeCode(p.orderType), priceP);
    NumberSplits(RawOr(q.price), qtyQ, RawOr(p.price), qtyP);
    NumberSplits(q.quantity, tifQ, p.quantity, tifP);
    NumberSplits(TimeInForceCode(q.timeInForce), "", TimeInForceCode(p.timeInForce), "");
  }

  lemma VisibleDetermines(q: OrderRequest, p: OrderRequest)
    requires Visible(q) == Visible(p)
    ensures CreateFingerprint(q) == CreateFingerprint(p)
  {
    assert Visible(q).price.value == Visible(p).price.value;
    assert q == p.(price := q.price);
  }

  /** Two create requests share a fingerprint exactly when every visible field agrees. */
  lemma CreateIsInjective(q: OrderRequest, p: OrderRequest)
    ensures CreateFingerprint(q) == CreateFingerprint(p) <==> Visible(q) == Visible(p)
  {
    hide Number, Text, Terms;
    if CreateFingerprint(q) == CreateFingerprint(p) {
      var symbolQ, symbolP := Text(q.symbol) + Terms(q), Text(p.symbol) + Terms(p);
      var venueQ, venueP := Number(VenueCode(q.venue)) + symbolQ, Number(VenueCode(p.venue)) + symbolP;
      assert CreateFields(q) == CreateFingerprint(q)[|CREATE_MARK|..];
      assert CreateFields(p) == CreateFingerprint(p)[|CREATE_MARK|..];
      TextSplits(q.clientOrderId, venueQ, p.clientOrderId, venueP);
      NumberSplits(VenueCode(q.venue), symbolQ, VenueCode(p.venue), symbolP);
      TextSplits(q.symbol, Terms(q), p.symbol, Terms(p));
      TermsSplit(q, p);
    } else if Visible(q) == Visible(p) {
      VisibleDetermines(q, p);
      assert false;
    }
  }

  /** Two amend requests share a fingerprint exactly when they agree but for the request id. */
  lemma AmendIsInjective(q: AmendRequest, p: AmendRequest)
    ensures AmendFingerprint(q) == AmendFingerprint(p) <==> VisibleAmend(q) == VisibleAmend(p)
  {
    hide Number, Text, Signed;
    if AmendFingerprint(q) == AmendFingerprint(p) {
      assert AmendFields(q) == AmendFingerprint(q)[|AMEND_MARK|..];
      assert AmendFields(p) == AmendFingerprint(p)[|AMEND_MARK|..];
      TextSplits(q.clientOrderId, Number(RawOr(q.newPrice)) + Signed(RawOr(q.newQuantity)),
                 p.clientOrderId, Number(RawOr(p.newPrice)) + Signed(RawOr(p.newQuantity)));
      NumberSplits(RawOr(q.newPrice), Signed(RawOr(q.newQuantity)), RawOr(p.newPrice), Signed(RawOr(p.newQuantity)));
      SignedIsInjective(RawOr(q.newQuantity), RawOr(p.newQuantity));
    }
  }

  /** Two cancel requests share a fingerprint exactly when they name the same order. */
  lemma CancelIsInjective(q: CancelRequest, p: CancelRequest)
    ensures CancelFingerprint(q) == CancelFingerprint(p) <==> q.clientOrderId == p.clientOrderId
  {
    assert q.clientOrderId == CancelFingerprint(q)[|CANCEL_MARK|..];
    assert p.clientOrderId == CancelFingerprint(p)[|CANCEL_MARK|..];
  }

  /** Fingerprints of different kinds of request never coincide. */
  lemma KindsAreDisjoint(c: OrderRequest, a: AmendRequest, k: CancelRequest)
    ensures CreateFingerprint(c) != AmendFingerprint(a)
    ensures CreateFingerprint(c) != CancelFingerprint(k)
    ensures AmendFingerprint(a) != CancelFingerprint(k)
  {
    assert CreateFingerprint(c)[3] == 'C' && CreateFingerprint(c)[4] == 'R';
    assert AmendFingerprint(a)[3] == 'A';
    assert CancelFingerprint(k)[3] == 'C' && CancelFingerprint(k)[4] == 'A';
  }

  /**
   Against an order stored by this version, a repeated create is a conflict exactly when its
   visible payload differs; no legacy text can interfere.
   */
  lemma CreateConflictsExactly(stored: OrderRequest, retry: OrderRequest, legacy: string)
    ensures CreateMatches(CreateFingerprint(stored), retry, legacy) <==> Visible(stored) == Visible(retry)
  {
    assert CreateFingerprint(stored)[0] == 'v';
    CreateIsInjective(stored, retry);
  }

  lemma AmendConflictsExactly(stored: AmendRequest, retry: AmendRequest, legacy: string)
    ensures AmendMatches(AmendFingerprint(stored), retry, legacy) <==> VisibleAmend(stored) == VisibleAmend(retry)
  {
    assert AmendFingerprint(stored)[0] == 'v';
    AmendIsInjective(stored, retry);
  }

  lemma CancelConflictsExactly(stored: CancelRequest, retry: CancelRequest)
    ensures CancelMatches(CancelFingerprint(stored), retry) <==> stored.clientOrderId == retry.clientOrderId
  {
    assert CancelFingerprint(stored)[0] == 'v';
    assert ("cancel:" + retry.clientOrderId)[0] == 'c';
    CancelIsInjective(stored, retry);
  }
}
