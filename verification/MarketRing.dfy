/**
 The memory-mapped market-data ring: one writer overwrites fixed slots cell by cell, any number of
 readers copy slots cell by cell, and only the commit stamps order the two. Every stamp access and
 every cell access is one step. One writer generation; a cell is one number or one symbol byte.
 */
module MarketRing {
  import opened Wrappers
  import opened Orders
  import opened Laps
  import opened MarketData

  const SYMBOL_CAPACITY := 16
  const FIELDS := 6
  const WIDTH := FIELDS + SYMBOL_CAPACITY

  datatype Cell = Number(value: int) | Byte(symbol: char)

  // ----- what the writer writes and the reader makes of it -----

  function EncodeVenue(v: Venue): int {
    if v == Okx then 1 else 2
  }

  function Fields(q: Quote, n: nat): (r: seq<Cell>)
    ensures |r| == FIELDS
  {
    [Number(n), Number(q.sourceTime), Number(q.publishedAt), Number(q.bid), Number(q.ask), Number(EncodeVenue(q.venue))]
  }

  function Bytes(s: string): (r: seq<Cell>)
    ensures |r| == |s|
  {
    seq(|s|, i requires 0 <= i < |s| => Byte(s[i]))
  }

  function Zeros(n: nat): (r: seq<Cell>)
    ensures |r| == n
  {
    seq(n, _ => Byte('\0'))
  }

  predicate Fits(q: Quote) {
    |q.symbol| < SYMBOL_CAPACITY
  }

  /** The cells a completely written record holds. */
  function Encoded(q: Quote, n: nat): (r: seq<Cell>)
    requires Fits(q)
    ensures |r| == WIDTH
  {
    Fields(q, n) + Bytes(q.symbol) + Zeros(SYMBOL_CAPACITY - |q.symbol|)
  }

  /** One store of a value to a cell. */
  datatype Store = Store(at: nat, cell: Cell)

  function Block(at: nat, cells: seq<Cell>): (r: seq<Store>)
    ensures |r| == |cells|
  {
    seq(|cells|, i requires 0 <= i < |cells| => Store(at + i, cells[i]))
  }

  /** The writer's stores in program order: the fields, the zero fill, the symbol. */
  function Stores(q: Quote, n: nat): seq<Store> {
    Block(0, Fields(q, n)) + Block(FIELDS, Zeros(SYMBOL_CAPACITY)) + Block(FIELDS, Bytes(q.symbol))
  }

  function Applied(cells: seq<Cell>, stores: seq<Store>): (r: seq<Cell>)
    ensures |r| == |cells|
    decreases |stores|
  {
    if stores == [] then cells
    else if stores[0].at < |cells| then Applied(cells[stores[0].at := stores[0].cell], stores[1..])
    else Applied(cells, stores[1..])
  }

  function CharOf(c: Cell): char {
    match c
    case Byte(b) => b
    case Number(_) => '\0'
  }

  function NumberOf(c: Cell): int {
    match c
    case Number(n) => n
    case Byte(_) => 0
  }

  /** The symbol bytes before the first zero byte. */
  function SymbolOf(cells: seq<Cell>): string {
    if cells == [] || CharOf(cells[0]) == '\0' then "" else [CharOf(cells[0])] + SymbolOf(cells[1..])
  }

  function DecodeVenue(code: int): Option<Venue> {
    if code == 1 then Some(Okx) else if code == 2 then Some(Binance) else None
  }

  /** None stands for the exception on a venue byte that is no venue. */
  function Decoded(copy: seq<Cell>, n: nat): Option<Quote>
    requires |copy| == WIDTH
  {
    match DecodeVenue(NumberOf(copy[5]))
    case None => None
    case Some(venue) =>
      Some(Quote(venue, SymbolOf(copy[FIELDS..]), NumberOf(copy[3]), NumberOf(copy[4]), NumberOf(copy[1]), NumberOf(copy[2]), n))
  }

  // ----- the ring -----

  datatype Writer =
    | Idle
    | Writing(stores: seq<Store>)    // the slot's stamp is zero, these stores remain
    | Committed                      // the slot's stamp is set, the header is not yet

  datatype Delivery = Delivery(sequence: nat, quote: Quote)

  datatype Reading =
    | Resting
    | Looking(latest: nat, next: nat, room: nat, processed: nat)
    | Copying(latest: nat, next: nat, room: nat, copy: seq<Cell>)

  datatype Reader = Reader(cursor: nat, reading: Reading, delivered: seq<Delivery>)

  datatype Slot = Slot(committed: nat, cells: seq<Cell>)

  datatype Ring = Ring(
    slots: seq<Slot>,
    published: nat,
    writer: Writer,
    log: seq<Quote>,                 // every quote that got a sequence number; the first has number 1
    readers: map<nat, Reader>
  )

  function Start(capacity: nat): Ring {
    Ring(seq(capacity, _ => Slot(0, seq(WIDTH, _ => Number(0)))), 0, Idle, [], map[])
  }

  function SlotOf(s: Ring, n: nat): (i: nat)
    requires |s.slots| > 0 && n > 0
    ensures i < |s.slots|
  {
    Index(n - 1, |s.slots|)
  }

  function SetSlot(s: Ring, n: nat, slot: Slot): Ring
    requires |s.slots| > 0 && n > 0
  {
    s.(slots := s.slots[SlotOf(s, n) := slot])
  }

  // ----- the writer -----

  /** Takes the next number and withdraws the slot's stamp; an invalid quote changes nothing. */
  function BeginPublish(s: Ring, quote: Quote, now: int): Ring
    requires |s.slots| > 0
  {
    if s.writer != Idle || !ValidQuote(quote) || !Fits(quote) then s
    else
      var q := if quote.publishedAt == 0 then quote.(publishedAt := now) else quote;
      var n := |s.log| + 1;
      SetSlot(s, n, s.slots[SlotOf(s, n)].(committed := 0)).(log := s.log + [q], writer := Writing(Stores(q, n)))
  }

  function WriterStep(s: Ring): Ring
    requires |s.slots| > 0
  {
    var n := |s.log|;
    if n == 0 then s
    else
      match s.writer
      case Idle => s
      case Writing(stores) =>
        var slot := s.slots[SlotOf(s, n)];
        if stores == [] then SetSlot(s, n, slot.(committed := n)).(writer := Committed)
        else SetSlot(s, n, slot.(cells := Applied(slot.cells, [stores[0]]))).(writer := Writing(stores[1..]))
      case Committed => s.(published := n, writer := Idle)
  }

  // ----- a reader -----

  function Update(s: Ring, r: nat, reader: Reader): Ring {
    s.(readers := s.readers[r := reader])
  }

  function ReaderOf(s: Ring, r: nat): Reader {
    if r in s.readers then s.readers[r] else Reader(0, Resting, [])
  }

  /** read_available with room for that many quotes: fixes the newest number and where to start. */
  function BeginRead(s: Ring, r: nat, room: nat): Ring {
    var reader := ReaderOf(s, r);
    if reader.reading != Resting || room == 0 then s
    else
      var latest := s.published;
      var cursor := if reader.cursor > latest then 0 else reader.cursor;
      if latest <= cursor then Update(s, r, reader.(cursor := cursor))
      else
        var firstAvailable := if latest > |s.slots| then latest - |s.slots| + 1 else 1;
        var first := if cursor + 1 < firstAvailable then firstAvailable else cursor + 1;
        Update(s, r, reader.(cursor := cursor, reading := Looking(latest, first, room, cursor)))
  }

  function Skipped(reader: Reader, latest: nat, n: nat, room: nat): Reader {
    reader.(reading := Looking(latest, n + 1, room, n))
  }

  /** The head of the loop: stop, skip, or start copying. */
  function Look(s: Ring, reader: Reader, latest: nat, n: nat, room: nat, processed: nat): Reader
    requires |s.slots| > 0 && n > 0
  {
    if n > latest || room == 0 then reader.(cursor := processed, reading := Resting)
    else if s.slots[SlotOf(s, n)].committed != n then Skipped(reader, latest, n, room)
    else reader.(reading := Copying(latest, n, room, []))
  }

  /** The second look at the stamp, after the whole record was copied. */
  function Check(s: Ring, reader: Reader, latest: nat, n: nat, room: nat, copy: seq<Cell>): Reader
    requires |s.slots| > 0 && n > 0 && |copy| == WIDTH && room > 0
  {
    if s.slots[SlotOf(s, n)].committed != n || copy[0] != Number(n) then Skipped(reader, latest, n, room)
    else
      match Decoded(copy, n)
      case None => reader.(reading := Resting)
      case Some(quote) =>
        if ValidQuote(quote)
        then Skipped(reader, latest, n, room - 1).(delivered := reader.delivered + [Delivery(n, quote)])
        else Skipped(reader, latest, n, room)
  }

  function ReaderStep(s: Ring, r: nat): Ring
    requires |s.slots| > 0
  {
    if r !in s.readers then s
    else
      var reader := s.readers[r];
      match reader.reading
      case Resting => s
      case Looking(latest, n, room, processed) =>
        if n == 0 then s else Update(s, r, Look(s, reader, latest, n, room, processed))
      case Copying(latest, n, room, copy) =>
        if n == 0 || room == 0 || |s.slots[SlotOf(s, n)].cells| != WIDTH then s
        else if |copy| < WIDTH then
          Update(s, r, reader.(reading := Copying(latest, n, room, copy + [s.slots[SlotOf(s, n)].cells[|copy|]])))
        else if |copy| == WIDTH then Update(s, r, Check(s, reader, latest, n, room, copy))
        else s
  }

  // ----- runs -----

  datatype Step =
    | DoBeginPublish(quote: Quote, now: int)
    | DoWrite
    | DoBeginRead(r: nat, room: nat)
    | DoRead(r: nat)

  function Exec(s: Ring, step: Step): (s': Ring)
    requires |s.slots| > 0
    ensures |s'.slots| == |s.slots|
  {
    match step
    case DoBeginPublish(quote, now) => BeginPublish(s, quote, now)
    case DoWrite => WriterStep(s)
    case DoBeginRead(r, room) => BeginRead(s, r, room)
    case DoRead(r) => ReaderStep(s, r)
  }

  function After(capacity: nat, steps: seq<Step>): (s: Ring)
    requires capacity > 0
    ensures |s.slots| == capacity
  {
    if steps == [] then Start(capacity) else Exec(After(capacity, steps[..|steps| - 1]), steps[|steps| - 1])
  }

  // ----- what a record means -----

  lemma {:induction false} AppliedInTurn(cells: seq<Cell>, first: seq<Store>, rest: seq<Store>)
    ensures Applied(cells, first + rest) == Applied(Applied(cells, first), rest)
    decreases |first|
  {
    if first == [] {
      assert first + rest == rest;
    } else {
      assert (first + rest)[1..] == first[1..] + rest;
      var stored := if first[0].at < |cells| then cells[first[0].at := first[0].cell] else cells;
      AppliedInTurn(stored, first[1..], rest);
    }
  }

  lemma {:induction false} BlockOverwrites(cells: seq<Cell>, at: nat, block: seq<Cell>)
    requires at + |block| <= |cells|
    ensures Applied(cells, Block(at, block)) == cells[..at] + block + cells[at + |block|..]
    decreases |block|
  {
    if block != [] {
      assert Block(at, block)[1..] == Block(at + 1, block[1..]);
      BlockOverwrites(cells[at := block[0]], at + 1, block[1..]);
    }
  }

  /** Whatever the slot held before, the writer's stores leave exactly the encoded record. */
  lemma StoresEncode(cells: seq<Cell>, q: Quote, n: nat)
    requires |cells| == WIDTH && Fits(q)
    ensures Applied(cells, Stores(q, n)) == Encoded(q, n)
  {
    var a, b, c := Fields(q, n), Zeros(SYMBOL_CAPACITY), Bytes(q.symbol);
    AppliedInTurn(cells, Block(0, a) + Block(FIELDS, b), Block(FIELDS, c));
    AppliedInTurn(cells, Block(0, a), Block(FIELDS, b));
    BlockOverwrites(cells, 0, a);
    var x := Applied(cells, Block(0, a));
    assert x == a + cells[FIELDS..];
    BlockOverwrites(x, FIELDS, b);
    var y := Applied(x, Block(FIELDS, b));
    assert y == a + b;
    BlockOverwrites(y, FIELDS, c);
    assert y[..FIELDS] == a;
  }

  /** The part of a symbol before its first zero byte. */
  function UpToNul(s: string): string {
    if s == "" || s[0] == '\0' then "" else [s[0]] + UpToNul(s[1..])
  }

  lemma {:induction false} SymbolRoundTrip(s: string, k: nat)
    requires k > 0
    ensures SymbolOf(Bytes(s) + Zeros(k)) == UpToNul(s)
  {
    var cells := Bytes(s) + Zeros(k);
    if s != "" {
      assert cells[0] == Byte(s[0]);
      assert cells[1..] == Bytes(s[1..]) + Zeros(k);
      SymbolRoundTrip(s[1..], k);
    } else {
      assert cells[0] == Byte('\0');
    }
  }

  lemma {:induction false} NulFreeExactly(s: string)
    ensures UpToNul(s) == s <==> '\0' !in s
  {
    if s != "" {
      NulFreeExactly(s[1..]);
      assert s == [s[0]] + s[1..];
    }
  }

  /** What a reader shows for a complete record. */
  function Shown(q: Quote, n: nat): Quote {
    q.(symbol := UpToNul(q.symbol), sequence := n)
  }

  /** Decoding a complete record returns the quote that was written, cut at a zero byte in its symbol. */
  lemma RecordRoundTrip(q: Quote, n: nat)
    requires Fits(q)
    ensures Decoded(Encoded(q, n), n) == Some(Shown(q, n))
    ensures Shown(q, n) == q.(sequence := n) <==> '\0' !in q.symbol
  {
    var k := SYMBOL_CAPACITY - |q.symbol|;
    SymbolRoundTrip(q.symbol, k);
    NulFreeExactly(q.symbol);
    var r := Encoded(q, n);
    assert r[FIELDS..] == Bytes(q.symbol) + Zeros(k);
    assert r[1] == Number(q.sourceTime) && r[2] == Number(q.publishedAt) && r[3] == Number(q.bid)
           && r[4] == Number(q.ask) && r[5] == Number(EncodeVenue(q.venue));
  }

  // ----- the invariant -----

  ghost predicate Logged(s: Ring) {
    && |s.slots| > 0 && s.published + One(s.writer != Idle) == |s.log|
    && (forall i :: 0 <= i < |s.log| ==> ValidQuote(s.log[i]) && Fits(s.log[i]))
    && (forall i :: 0 <= i < |s.slots| ==> |s.slots[i].cells| == WIDTH)
  }

  /** A slot with a stamp holds exactly the record of that number, and the number is of the current lap. */
  ghost predicate StampOk(s: Ring, i: nat)
    requires Logged(s) && i < |s.slots|
  {
    var n := s.slots[i].committed;
    n != 0 ==> && n <= |s.log| < n + |s.slots| && SlotOf(s, n) == i
               && s.slots[i].cells == Encoded(s.log[n - 1], n)
               && (s.writer.Writing? ==> n < |s.log|)
  }

  /** A number of the current lap is on its slot unless it is the one being written. */
  ghost predicate CurrentOk(s: Ring, n: nat)
    requires Logged(s) && n > 0
  {
    n <= |s.log| < n + |s.slots| && !(s.writer.Writing? && n == |s.log|) ==> s.slots[SlotOf(s, n)].committed == n
  }

  ghost predicate Written(s: Ring)
    requires Logged(s)
  {
    && (forall i :: 0 <= i < |s.slots| ==> StampOk(s, i))
    && (forall n :: 0 < n <= |s.log| ==> CurrentOk(s, n))
    && (s.writer.Writing? ==>
          && s.slots[SlotOf(s, |s.log|)].committed == 0
          && Applied(s.slots[SlotOf(s, |s.log|)].cells, s.writer.stores) == Encoded(s.log[|s.log| - 1], |s.log|))
  }

  // ----- a reader's invariant -----

  ghost predicate WasDelivered(delivered: seq<Delivery>, n: nat) {
    exists i :: 0 <= i < |delivered| && delivered[i].sequence == n
  }

  /** A number a reader has passed was delivered, is overwritten or being overwritten, or shows no symbol. */
  ghost predicate Settled(delivered: seq<Delivery>, log: seq<Quote>, capacity: nat, n: nat) {
    0 < n <= |log| ==>
      || WasDelivered(delivered, n)
      || n + capacity <= |log|
      || UpToNul(log[n - 1].symbol) == ""
  }

  /** How far a reader has come: every number up to here is settled. */
  function Reached(reader: Reader): int {
    match reader.reading
    case Resting => reader.cursor
    case Looking(_, n, _, _) => n - 1
    case Copying(_, n, _, _) => n - 1
  }

  ghost predicate Faithful(delivered: seq<Delivery>, log: seq<Quote>, upTo: int) {
    && (forall i :: 0 <= i < |delivered| ==>
          && 0 < delivered[i].sequence <= |log| && delivered[i].sequence <= upTo
          && delivered[i].quote == Shown(log[delivered[i].sequence - 1], delivered[i].sequence)
          && ValidQuote(delivered[i].quote))
    && (forall i, j :: 0 <= i < j < |delivered| ==> delivered[i].sequence < delivered[j].sequence)
  }

  /** While the stamp is still there, the cells copied so far are the record's. */
  ghost predicate TornFree(s: Ring, reader: Reader)
    requires Logged(s)
  {
    match reader.reading
    case Copying(latest, n, _, copy) =>
      && 0 < n <= latest && |copy| <= WIDTH
      && (s.slots[SlotOf(s, n)].committed == n ==> n <= |s.log| && copy == Encoded(s.log[n - 1], n)[..|copy|])
    case _ => true
  }

  ghost predicate Placed(s: Ring, reader: Reader) {
    match reader.reading
    case Resting => reader.cursor <= s.published
    case Looking(latest, n, room, processed) =>
      && 0 < n <= latest + 1 && latest <= s.published && reader.cursor <= s.published
      && (processed == n - 1 || (room > 0 && n <= latest))
    case Copying(latest, n, room, _) =>
      0 < n <= latest && latest <= s.published && reader.cursor <= s.published && room > 0
  }

  ghost predicate ReaderOk(s: Ring, reader: Reader)
    requires Logged(s)
  {
    && Placed(s, reader)
    && (forall n :: 0 < n <= Reached(reader) ==> Settled(reader.delivered, s.log, |s.slots|, n))
    && Faithful(reader.delivered, s.log, Reached(reader))
    && TornFree(s, reader)
  }

  ghost predicate Safe(s: Ring) {
    Logged(s) && Written(s) && forall r :: r in s.readers ==> ReaderOk(s, s.readers[r])
  }

  // ----- the writer keeps it -----

  lemma BeginWrites(s: Ring, quote: Quote, now: int)
    requires Logged(s) && Written(s)
    ensures Logged(BeginPublish(s, quote, now)) && Written(BeginPublish(s, quote, now))
  {
    hide Index, Encoded, Stores, Applied;
    var s' := BeginPublish(s, quote, now);
    if s.writer == Idle && ValidQuote(quote) && Fits(quote) {
      var m := |s'.log|;
      StoresEncode(s.slots[SlotOf(s, m)].cells, s'.log[m - 1], m);
      forall i | 0 <= i < |s'.slots|
        ensures StampOk(s', i)
      {
        assert StampOk(s, i);
        if m > |s.slots| {
          IndexNextLap(m - 1 - |s.slots|, |s.slots|);
        }
      }
      forall n | 0 < n <= m
        ensures CurrentOk(s', n)
      {
        if n < m {
          assert CurrentOk(s, n);
          if m < n + |s.slots| {
            IndexInjective(n - 1, m - 1, |s.slots|);
          }
        }
      }
    }
  }

  lemma StoreWrites(s: Ring)
    requires Logged(s) && Written(s) && s.writer.Writing? && s.writer.stores != []
    ensures Logged(WriterStep(s)) && Written(WriterStep(s))
  {
    hide Index, Encoded;
    var s' := WriterStep(s);
    var slot := s.slots[SlotOf(s, |s.log|)];
    AppliedInTurn(slot.cells, [s.writer.stores[0]], s.writer.stores[1..]);
    assert [s.writer.stores[0]] + s.writer.stores[1..] == s.writer.stores;
    forall i | 0 <= i < |s'.slots|
      ensures StampOk(s', i)
    {
      assert StampOk(s, i);
    }
    forall n | 0 < n <= |s'.log|
      ensures CurrentOk(s', n)
    {
      assert CurrentOk(s, n);
    }
  }

  lemma CommitWrites(s: Ring)
    requires Logged(s) && Written(s) && s.writer.Writing? && s.writer.stores == []
    ensures Logged(WriterStep(s)) && Written(WriterStep(s))
  {
    hide Index, Encoded;
    var s' := WriterStep(s);
    var m := |s.log|;
    forall i | 0 <= i < |s'.slots|
      ensures StampOk(s', i)
    {
      assert StampOk(s, i);
    }
    forall n | 0 < n <= m
      ensures CurrentOk(s', n)
    {
      assert CurrentOk(s, n);
      if n < m < n + |s.slots| {
        IndexInjective(n - 1, m - 1, |s.slots|);
      }
    }
  }

  lemma HeaderWrites(s: Ring)
    requires Logged(s) && Written(s) && !s.writer.Writing?
    ensures Logged(WriterStep(s)) && Written(WriterStep(s))
  {
    hide Index, Encoded;
    var s' := WriterStep(s);
    forall i | 0 <= i < |s'.slots|
      ensures StampOk(s', i)
    {
      assert StampOk(s, i);
    }
    forall n | 0 < n <= |s'.log|
      ensures CurrentOk(s', n)
    {
      assert CurrentOk(s, n);
    }
  }

  /** What the writer may do while a reader rests or copies: extend the log and withdraw or move on stamps. */
  lemma ReaderUnharmed(s: Ring, s': Ring, reader: Reader)
    requires Logged(s) && Logged(s') && ReaderOk(s, reader)
    requires |s'.slots| == |s.slots| && s.log <= s'.log && s.published <= s'.published
    requires TornFree(s', reader)
    ensures ReaderOk(s', reader)
  {
    hide TornFree, Encoded, Shown, UpToNul, Logged;
    forall n | 0 < n <= Reached(reader)
      ensures Settled(reader.delivered, s'.log, |s'.slots|, n)
    {
      assert Settled(reader.delivered, s.log, |s.slots|, n);
      ReachedIsLogged(s, reader);
    }
  }

  lemma ReachedIsLogged(s: Ring, reader: Reader)
    requires Logged(s) && Placed(s, reader)
    ensures Reached(reader) <= s.published <= |s.log|
  {
  }

  lemma BeginPublishSafe(s: Ring, quote: Quote, now: int)
    requires Safe(s) && |s.slots| > 0
    ensures Safe(BeginPublish(s, quote, now))
  {
    hide Logged, Written, ReaderOk, TornFree;
    var s' := BeginPublish(s, quote, now);
    BeginWrites(s, quote, now);
    forall r | r in s'.readers
      ensures ReaderOk(s', s'.readers[r])
    {
      BeginKeepsTornFree(s, quote, now, s.readers[r]);
      BeginGrows(s, quote, now);
      ReaderUnharmed(s, s', s.readers[r]);
    }
  }

  lemma BeginGrows(s: Ring, quote: Quote, now: int)
    requires |s.slots| > 0
    ensures var s' := BeginPublish(s, quote, now);
            |s'.slots| == |s.slots| && s.log <= s'.log && s.published == s'.published && s'.readers == s.readers
  {
  }

  lemma BeginKeepsTornFree(s: Ring, quote: Quote, now: int, reader: Reader)
    requires Logged(s) && Logged(BeginPublish(s, quote, now)) && ReaderOk(s, reader)
    ensures TornFree(BeginPublish(s, quote, now), reader)
  {
    hide Index, Encoded, Settled, Faithful, Stores;
  }

  lemma WriterStepSafe(s: Ring)
    requires Safe(s)
    ensures Safe(WriterStep(s))
  {
    hide Written, ReaderOk, TornFree, Applied;
    var s' := WriterStep(s);
    if s.writer.Writing? && s.writer.stores != [] {
      StoreWrites(s);
    } else if s.writer.Writing? {
      CommitWrites(s);
    } else {
      HeaderWrites(s);
    }
    forall r | r in s'.readers
      ensures ReaderOk(s', s'.readers[r])
    {
      WriterKeepsTornFree(s, s.readers[r]);
      ReaderUnharmed(s, s', s.readers[r]);
    }
  }

  lemma WriterKeepsTornFree(s: Ring, reader: Reader)
    requires Logged(s) && Logged(WriterStep(s)) && ReaderOk(s, reader)
    ensures TornFree(WriterStep(s), reader)
  {
    hide Index, Encoded, Settled, Faithful, Applied;
  }

  // ----- the readers keep it -----

  lemma BeginReadOk(s: Ring, r: nat, room: nat)
    requires Safe(s)
    ensures BeginRead(s, r, room) != s ==>
              r in BeginRead(s, r, room).readers && ReaderOk(s, BeginRead(s, r, room).readers[r])
  {
    hide Written, Shown, UpToNul;
    var reader := ReaderOf(s, r);
    assert ReaderOk(s, reader);
    if reader.reading == Resting && room != 0 {
      var after := BeginRead(s, r, room).readers[r];
      forall n | 0 < n <= Reached(after)
        ensures Settled(after.delivered, s.log, |s.slots|, n)
      {
        assert Settled(reader.delivered, s.log, |s.slots|, n) || n > reader.cursor;
      }
    }
  }

  /** A number of the current lap that a reader may look at still has its stamp. */
  lemma MissingStampIsOverwritten(s: Ring, n: nat)
    requires Logged(s) && Written(s) && 0 < n <= s.published && s.slots[SlotOf(s, n)].committed != n
    ensures n + |s.slots| <= |s.log|
  {
    hide Index;
    assert CurrentOk(s, n);
  }

  lemma SkipOk(s: Ring, reader: Reader, latest: nat, n: nat, room: nat, delivered: seq<Delivery>)
    requires Logged(s) && Placed(s, reader) && n > 0 && Reached(reader) == n - 1 && n <= latest <= s.published
    requires forall k :: 0 < k < n ==> Settled(delivered, s.log, |s.slots|, k)
    requires Settled(delivered, s.log, |s.slots|, n) && Faithful(delivered, s.log, n)
    ensures ReaderOk(s, Skipped(reader, latest, n, room).(delivered := delivered))
  {
    hide Settled, Faithful, Logged;
  }

  lemma FaithfulFurther(delivered: seq<Delivery>, log: seq<Quote>, upTo: int, further: int)
    requires Faithful(delivered, log, upTo) && upTo <= further
    ensures Faithful(delivered, log, further)
  {
    hide Shown;
  }

  lemma LookOk(s: Ring, reader: Reader)
    requires Logged(s) && Written(s) && ReaderOk(s, reader) && reader.reading.Looking?
    ensures var x := reader.reading; ReaderOk(s, Look(s, reader, x.latest, x.next, x.room, x.processed))
  {
    hide Logged, Written, Settled, Faithful;
    var latest, n, room, processed := reader.reading.latest, reader.reading.next, reader.reading.room, reader.reading.processed;
    HasSlots(s);
    if n <= latest && room != 0 {
      if s.slots[SlotOf(s, n)].committed != n {
        MissingStampIsOverwritten(s, n);
        assert Settled(reader.delivered, s.log, |s.slots|, n) by { SettledByOverwriting(reader.delivered, s.log, |s.slots|, n); }
        FaithfulFurther(reader.delivered, s.log, n - 1, n);
        SkipOk(s, reader, latest, n, room, reader.delivered);
      } else {
        PublishedIsLogged(s);
      }
    }
  }

  lemma HasSlots(s: Ring)
    requires Logged(s)
    ensures |s.slots| > 0
  {
  }

  lemma PublishedIsLogged(s: Ring)
    requires Logged(s)
    ensures s.published <= |s.log| && forall i :: 0 <= i < |s.log| ==> Fits(s.log[i])
  {
  }

  lemma SettledByOverwriting(delivered: seq<Delivery>, log: seq<Quote>, capacity: nat, n: nat)
    requires n + capacity <= |log|
    ensures Settled(delivered, log, capacity, n)
  {
  }

  /** Copying one more cell: if the stamp is still there, the slot still holds the record. */
  lemma CopyOk(s: Ring, reader: Reader)
    requires Logged(s) && Written(s) && ReaderOk(s, reader) && reader.reading.Copying? && |reader.reading.copy| < WIDTH
    ensures var x := reader.reading;
            var cell := s.slots[SlotOf(s, x.next)].cells[|x.copy|];
            ReaderOk(s, reader.(reading := Copying(x.latest, x.next, x.room, x.copy + [cell])))
  {
    hide Index, Encoded, Settled, Faithful;
    var x := reader.reading;
    assert StampOk(s, SlotOf(s, x.next));
  }

  /** A copy that passes the second look at the stamp is the record that was published. */
  lemma CheckedCopyIsTheRecord(s: Ring, reader: Reader)
    requires Logged(s) && ReaderOk(s, reader) && reader.reading.Copying? && |reader.reading.copy| == WIDTH
    requires s.slots[SlotOf(s, reader.reading.next)].committed == reader.reading.next
    ensures var x := reader.reading;
            && x.next <= |s.log| && x.copy == Encoded(s.log[x.next - 1], x.next) && x.copy[0] == Number(x.next)
            && Decoded(x.copy, x.next) == Some(Shown(s.log[x.next - 1], x.next))
  {
    hide Index, Settled, Faithful, Decoded;
    var x := reader.reading;
    var record := Encoded(s.log[x.next - 1], x.next);
    assert record[..WIDTH] == record;
    RecordRoundTrip(s.log[x.next - 1], x.next);
  }

  lemma CheckOk(s: Ring, reader: Reader)
    requires Logged(s) && Written(s) && ReaderOk(s, reader) && reader.reading.Copying? && |reader.reading.copy| == WIDTH
    ensures var x := reader.reading; ReaderOk(s, Check(s, reader, x.latest, x.next, x.room, x.copy))
  {
    hide Logged, Written, Settled, Faithful, Decoded, Encoded, UpToNul;
    var x := reader.reading;
    HasSlots(s);
    FaithfulFurther(reader.delivered, s.log, x.next - 1, x.next);
    if s.slots[SlotOf(s, x.next)].committed != x.next {
      MissingStampIsOverwritten(s, x.next);
      SettledByOverwriting(reader.delivered, s.log, |s.slots|, x.next);
      SkipOk(s, reader, x.latest, x.next, x.room, reader.delivered);
    } else {
      CheckedCopyIsTheRecord(s, reader);
      var quote := Shown(s.log[x.next - 1], x.next);
      LoggedIsValid(s, x.next);
      if ValidQuote(quote) {
        DeliveryOk(s, reader, quote);
        SkipOk(s, reader, x.latest, x.next, x.room - 1, reader.delivered + [Delivery(x.next, quote)]);
      } else {
        MutedIsSettled(s, reader.delivered, x.next);
        SkipOk(s, reader, x.latest, x.next, x.room, reader.delivered);
      }
    }
  }

  lemma LoggedIsValid(s: Ring, n: nat)
    requires Logged(s) && 0 < n <= |s.log|
    ensures ValidQuote(Shown(s.log[n - 1], n)) <==> UpToNul(s.log[n - 1].symbol) != ""
  {
  }

  lemma MutedIsSettled(s: Ring, delivered: seq<Delivery>, n: nat)
    requires Logged(s) && 0 < n <= |s.log| && UpToNul(s.log[n - 1].symbol) == ""
    ensures Settled(delivered, s.log, |s.slots|, n)
  {
  }

  lemma DeliveryOk(s: Ring, reader: Reader, quote: Quote)
    requires Logged(s) && ReaderOk(s, reader) && reader.reading.Copying?
    requires var n := reader.reading.next; n <= |s.log| && quote == Shown(s.log[n - 1], n) && ValidQuote(quote)
    ensures var n := reader.reading.next;
            var delivered := reader.delivered + [Delivery(n, quote)];
            && Faithful(delivered, s.log, n)
            && (forall k :: 0 < k <= n ==> Settled(delivered, s.log, |s.slots|, k))
  {
    hide Shown, UpToNul, TornFree, Encoded;
    var n := reader.reading.next;
    var before := reader.delivered;
    var delivered := before + [Delivery(n, quote)];
    assert delivered[|before|].sequence == n;
    forall k | 0 < k <= n
      ensures Settled(delivered, s.log, |s.slots|, k)
    {
      if k < n {
        assert Settled(before, s.log, |s.slots|, k);
        if WasDelivered(before, k) {
          var i :| 0 <= i < |before| && before[i].sequence == k;
          assert delivered[i].sequence == k;
        }
      }
    }
  }

  lemma ReaderStepSafe(s: Ring, r: nat)
    requires Safe(s) && |s.slots| > 0
    ensures Safe(ReaderStep(s, r))
  {
    hide Logged, Written, ReaderOk, Look, Check, TornFree;
    var s' := ReaderStep(s, r);
    if r in s.readers && s' != s {
      var reader := s.readers[r];
      match reader.reading
      case Looking(_, _, _, _) =>
        LookOk(s, reader);
        ReadersOnly(s, s', r);
      case Copying(_, _, _, copy) =>
        if |copy| < WIDTH {
          CopyOk(s, reader);
        } else {
          CheckOk(s, reader);
        }
        ReadersOnly(s, s', r);
    }
  }

  lemma ReadersOnly(s: Ring, s': Ring, r: nat)
    requires Safe(s) && r in s'.readers && s' == Update(s, r, s'.readers[r]) && ReaderOk(s, s'.readers[r])
    ensures Safe(s')
  {
    hide Encoded, Applied, Settled, Faithful;
    forall x | x in s'.readers
      ensures ReaderOk(s', s'.readers[x])
    {
      assert ReaderOk(s, s'.readers[x]);
    }
    forall i | 0 <= i < |s'.slots|
      ensures StampOk(s', i)
    {
      assert StampOk(s, i);
    }
    forall n | 0 < n <= |s'.log|
      ensures CurrentOk(s', n)
    {
      assert CurrentOk(s, n);
    }
  }

  lemma BeginReadSafe(s: Ring, r: nat, room: nat)
    requires Safe(s)
    ensures Safe(BeginRead(s, r, room))
  {
    hide Safe, ReaderOk;
    BeginReadOk(s, r, room);
    if BeginRead(s, r, room) != s {
      ReadersOnly(s, BeginRead(s, r, room), r);
    }
  }

  lemma ExecSafe(s: Ring, step: Step)
    requires Safe(s) && |s.slots| > 0
    ensures Safe(Exec(s, step))
  {
    hide Safe, BeginPublish, WriterStep, BeginRead, ReaderStep;
    match step
    case DoBeginPublish(quote, now) => BeginPublishSafe(s, quote, now);
    case DoWrite => WriterStepSafe(s);
    case DoBeginRead(r, room) => BeginReadSafe(s, r, room);
    case DoRead(r) => ReaderStepSafe(s, r);
  }

  lemma {:induction false} EveryRunIsSafe(capacity: nat, steps: seq<Step>)
    requires capacity > 0
    ensures Safe(After(capacity, steps))
  {
    hide Exec;
    if steps != [] {
      EveryRunIsSafe(capacity, steps[..|steps| - 1]);
      ExecSafe(After(capacity, steps[..|steps| - 1]), steps[|steps| - 1]);
    }
  }

  // ----- what readers may rely on -----

  /**
   Every quote a reader delivers is exactly a quote published under that sequence number, never a
   mixture of two, and the numbers only grow; only a zero byte inside a symbol cuts it short.
   */
  lemma DeliveriesArePublications(capacity: nat, steps: seq<Step>, r: nat, i: nat)
    requires capacity > 0
    requires r in After(capacity, steps).readers && i < |After(capacity, steps).readers[r].delivered|
    ensures var s := After(capacity, steps);
            var d := s.readers[r].delivered[i];
            && 0 < d.sequence <= |s.log| && d.quote == Shown(s.log[d.sequence - 1], d.sequence) && ValidQuote(d.quote)
            && (d.quote == s.log[d.sequence - 1].(sequence := d.sequence) <==> '\0' !in s.log[d.sequence - 1].symbol)
            && (forall j :: 0 <= j < i ==> s.readers[r].delivered[j].sequence < d.sequence)
  {
    hide After, Written, Settled, Placed, TornFree, Reached, UpToNul;
    EveryRunIsSafe(capacity, steps);
    var s := After(capacity, steps);
    assert ReaderOk(s, s.readers[r]);
    var n := s.readers[r].delivered[i].sequence;
    RecordRoundTrip(s.log[n - 1], n);
  }

  /**
   A reader leaves a published number out only when its slot was already being overwritten by the
   number one capacity later, or when its symbol shows no byte at all.
   */
  lemma OnlyOverwrittenNumbersAreSkipped(capacity: nat, steps: seq<Step>, r: nat, n: nat)
    requires capacity > 0 && n > 0
    requires var s := After(capacity, steps);
             && r in s.readers && s.readers[r].reading.Resting? && n <= s.readers[r].cursor
             && !WasDelivered(s.readers[r].delivered, n)
    ensures var s := After(capacity, steps);
            n <= |s.log| && (n + capacity <= |s.log| || UpToNul(s.log[n - 1].symbol) == "")
  {
    hide After, Written, TornFree, Faithful, UpToNul;
    EveryRunIsSafe(capacity, steps);
    var s := After(capacity, steps);
    assert ReaderOk(s, s.readers[r]) && Settled(s.readers[r].delivered, s.log, capacity, n);
  }

  /** The decoder's exception for a bad venue byte is never raised, and no cursor is ever ahead of the header. */
  lemma ReadersNeverFail(capacity: nat, steps: seq<Step>, r: nat)
    requires capacity > 0 && r in After(capacity, steps).readers
    ensures var s := After(capacity, steps);
            var reader := s.readers[r];
            && reader.cursor <= s.published
            && ((reader.reading.Copying? && |reader.reading.copy| == WIDTH && reader.reading.next > 0
                 && s.slots[SlotOf(s, reader.reading.next)].committed == reader.reading.next)
                ==> Decoded(reader.reading.copy, reader.reading.next).Some?)
  {
    hide After, Written, Decoded, Settled, Faithful, Shown;
    EveryRunIsSafe(capacity, steps);
    var s := After(capacity, steps);
    var reader := s.readers[r];
    assert ReaderOk(s, reader);
    if reader.reading.Copying? && |reader.reading.copy| == WIDTH
       && s.slots[SlotOf(s, reader.reading.next)].committed == reader.reading.next {
      CheckedCopyIsTheRecord(s, reader);
    }
  }

  /** A symbol with a zero byte is shown only up to it. */
  lemma {:induction false} SymbolIsCut(head: string, tail: string)
    requires '\0' !in head
    ensures UpToNul(head + ['\0'] + tail) == head
  {
    if head != "" {
      var s := head + ['\0'] + tail;
      assert s[0] == head[0] && s[1..] == head[1..] + ['\0'] + tail;
      SymbolIsCut(head[1..], tail);
      assert head == [head[0]] + head[1..];
    } else {
      assert (head + ['\0'] + tail)[0] == '\0';
    }
  }

  const CUT_QUOTE := Quote(Okx, ['A', '\0', 'B'], 1, 2, 3, 4, 0)

  /** The writer accepts this quote, and every reader that copies its record gets another symbol. */
  lemma ZeroByteChangesTheSymbol()
    ensures ValidQuote(CUT_QUOTE) && Fits(CUT_QUOTE)
    ensures Decoded(Encoded(CUT_QUOTE, 1), 1) == Some(Quote(Okx, ['A'], 1, 2, 3, 4, 1))
  {
    hide Decoded, Encoded, UpToNul;
    RecordRoundTrip(CUT_QUOTE, 1);
    SymbolIsCut(['A'], ['B']);
    assert ['A'] + ['\0'] + ['B'] == CUT_QUOTE.symbol;
  }
}
