/**
 Appends that break off half-way in a process that lives on. What such an append wrote stays at the end
 of the file, the next record shares its line, and no JSON reader ever accepts that line. So what a
 restart finds is decided by how the file ends, whatever the records hold and wherever the break lies.
 */
module BrokenAppends {
  import opened Wrappers
  import opened JournalText
  import opened JournalRecords
  import opened JournalReading
  import opened JournalEnds
  import opened TornTail

  // ----- what is known of the reader -----

  predicate IsBlank(s: string) {
    forall i :: 0 <= i < |s| ==> s[i] in [' ', '\t', '\r', '\n']
  }

  /** Behind the closing bracket of an object only blanks may follow. */
  predicate OneObject(s: string) {
    s != [] && s[0] == '{' ==> forall k :: 0 < k < |s| && Closed(s[..k]) ==> IsBlank(s[k..])
  }

  /** What a JSON reader of whole records accepts: the records themselves, and nothing that is no JSON object. */
  ghost predicate Reader(decode: string -> Option<Record>) {
    && (forall r :: decode(WriteRecord(r)) == Some(r))
    && (forall s :: decode(s).Some? ==> Closed(s) && !Strays(OUTSIDE, s) && OneObject(s))
  }

  lemma ReaderIsCodec(decode: string -> Option<Record>)
    requires Reader(decode)
    ensures Codec(WriteRecord, decode)
  {
    hide Closed, OneObject, Framed, WriteRecord;
    WrittenRecordsAreFramed(decode);
  }

  /** Different records have different lines. */
  lemma RecordsAreDistinct(a: Record, b: Record)
    requires WriteRecord(a) == WriteRecord(b)
    ensures a == b
  {
    hide Render;
    RenderIsInjective(Object(Envelope(a.sequence, a.kind, a.writtenAt, a.payload, a.checksum)),
                      Object(Envelope(b.sequence, b.kind, b.writtenAt, b.payload, b.checksum)));
  }

  /** The least such reader: it finds the record whose line it is given. */
  ghost function Find(s: string): Option<Record> {
    if exists r :: WriteRecord(r) == s then
      var r :| WriteRecord(r) == s;
      Some(r)
    else None
  }

  /** So the hypothesis about the reader can be met. */
  lemma ReaderExists()
    ensures Reader(Find)
  {
    hide WriteRecord, Closed, OneObject;
    forall r
      ensures Find(WriteRecord(r)) == Some(r)
    {
      var found :| WriteRecord(found) == WriteRecord(r) && Find(WriteRecord(r)) == Some(found);
      RecordsAreDistinct(found, r);
    }
    forall s | Find(s).Some?
      ensures Closed(s) && !Strays(OUTSIDE, s) && OneObject(s)
    {
      var r :| WriteRecord(r) == s;
      RecordIsAcceptable(r);
    }
  }

  lemma RecordIsAcceptable(r: Record)
    ensures var s := WriteRecord(r);
            Closed(s) && !Strays(OUTSIDE, s) && OneObject(s)
  {
    hide Scanned, Strays, Render, Envelope;
    var fields := Envelope(r.sequence, r.kind, r.writtenAt, r.payload, r.checksum);
    RecordsAreFramed(r.sequence, r.kind, r.writtenAt, r.payload, r.checksum);
    RenderPasses(0, Object(fields));
    PassesParts(OUTSIDE, WriteRecord(r));
  }

  // ----- lines that no reader accepts -----

  /** An object with another one right behind it. */
  ghost predicate TwoObjects(s: string) {
    s != [] && s[0] == '{' && exists k :: 0 < k < |s| && Closed(s[..k]) && s[k] == '{'
  }

  /** Part of a line that no appended record makes acceptable again. */
  ghost predicate Spoiled(s: string) {
    s != [] && '\n' !in s && (Strays(OUTSIDE, s) || Scanned(OUTSIDE, s).depth > 0 || TwoObjects(s))
  }

  lemma TwoObjectsAreNotOne(s: string)
    requires TwoObjects(s)
    ensures !OneObject(s)
  {
    hide Closed;
    var k :| 0 < k < |s| && Closed(s[..k]) && s[k] == '{';
    assert s[k..][0] == '{';
  }

  lemma SpoiledNeverDecodes(s: string, decode: string -> Option<Record>)
    requires Reader(decode) && Spoiled(s)
    ensures decode(s).None?
  {
    hide Scanned, Strays, WriteRecord, TwoObjects, OneObject;
    if TwoObjects(s) {
      TwoObjectsAreNotOne(s);
    }
  }

  lemma RecordStarts(r: Record)
    ensures |WriteRecord(r)| >= 4 && WriteRecord(r)[..4] == ['{', '"', 's', 'c']
  {
    hide Quoted, NumberText;
    var name := "schemaVersion";
    var s := Quoted(name);
    NameStarts(name);
    var fields := Envelope(r.sequence, r.kind, r.writtenAt, r.payload, r.checksum);
    var inner := RenderFields(fields, true);
    var behind := [':'] + Render(Number(1)) + RenderFields(fields.others, false);
    assert inner == s + behind by { FieldText(fields); }
    assert WriteRecord(r) == ['{'] + (s + behind) + ['}'];
  }

  lemma FieldText(fields: Fields)
    requires fields.Field?
    ensures RenderFields(fields, true)
            == Quoted(fields.key) + ([':'] + Render(fields.value) + RenderFields(fields.others, false))
  {
    hide Quoted, Render;
    var key, value, others := Quoted(fields.key), Render(fields.value), RenderFields(fields.others, false);
    Ungroup(key, [':'], value, others);
  }

  lemma Ungroup(a: string, b: string, c: string, d: string)
    ensures [] + a + b + c + d == a + (b + c + d)
  {
  }

  lemma NameStarts(name: string)
    requires |name| >= 2 && name[0] == 's' && name[1] == 'c'
    ensures |Quoted(name)| >= 3 && Quoted(name)[..3] == ['"', 's', 'c']
  {
    hide Escaped;
    EscapedFirst(name);
    EscapedFirst(name[1..]);
  }

  /** A proper part of a record has its bracket open. */
  lemma PartIsSpoiled(r: Record, k: nat)
    requires 0 < k < |WriteRecord(r)|
    ensures Spoiled(WriteRecord(r)[..k])
  {
    hide Scanned, Strays, Render, Envelope;
    RecordsAreFramed(r.sequence, r.kind, r.writtenAt, r.payload, r.checksum);
    OpenUntilTheEnd(Envelope(r.sequence, r.kind, r.writtenAt, r.payload, r.checksum), k);
  }

  /** What an append leaves of a record is a piece of it. */
  predicate IsPiece(piece: string, r: Record) {
    piece != [] && piece <= WriteRecord(r)
  }

  lemma PieceFacts(piece: string, r: Record)
    requires IsPiece(piece, r)
    ensures piece != [] && '\n' !in piece && Scanned(OUTSIDE, piece).depth >= 0 && piece[0] == '{'
    ensures |piece| >= 2 ==> piece[1] == '"'
    ensures |piece| >= 3 ==> piece[2] == 's'
    ensures |piece| >= 4 ==> piece[3] == 'c'
  {
    hide Scanned, Render, Envelope;
    var line := WriteRecord(r);
    RecordsAreFramed(r.sequence, r.kind, r.writtenAt, r.payload, r.checksum);
    RecordStarts(r);
    assert piece == line[..|piece|];
    assert forall i :: 0 <= i < |piece| && i < 4 ==> piece[i] == line[..4][i];
    if |piece| < |line| {
      OpenUntilTheEnd(Envelope(r.sequence, r.kind, r.writtenAt, r.payload, r.checksum), |piece|);
    } else {
      assert piece == line && Closed(line);
    }
  }

  /** A whole record with any piece of another one behind it is two objects. */
  lemma WholeThenPiece(whole: Record, piece: string, r: Record)
    requires IsPiece(piece, r)
    ensures Spoiled(WriteRecord(whole) + piece)
  {
    hide Scanned, Strays, Render, Envelope;
    var line := WriteRecord(whole);
    var s := line + piece;
    RecordsAreFramed(whole.sequence, whole.kind, whole.writtenAt, whole.payload, whole.checksum);
    RecordStarts(whole);
    PieceFacts(piece, r);
    assert line[0] == line[..4][0];
    assert s[..|line|] == line && s[|line|] == piece[0];
  }

  /** Inside a literal the piece ends it with its first quote, and the name behind it stands outside. */
  lemma InsideThenPiece(st: Scan, piece: string, r: Record)
    requires st.inString && IsPiece(piece, r)
    ensures Strays(st, piece) || Scanned(st, piece).depth == st.depth
  {
    hide IsPiece;
    PieceFacts(piece, r);
    var st1 := Next(st, '{');
    assert st1 == Scan(st.depth, true, false);
    if |piece| == 1 {
      assert piece[1..] == [];
    } else {
      var rest := piece[1..];
      assert rest[0] == '"' && Next(st1, '"') == Scan(st.depth, false, false);
      OutsideThenName(Scan(st.depth, false, false), rest[1..]);
      assert Scanned(st, piece) == Scanned(st1, rest) == Scanned(Scan(st.depth, false, false), rest[1..]);
      assert Strays(st, piece) <==> Strays(st1, rest);
      assert Strays(st1, rest) <==> Strays(Scan(st.depth, false, false), rest[1..]);
    }
  }

  lemma OutsideThenName(st: Scan, s: string)
    requires !st.inString && !st.escaped && (|s| >= 1 ==> s[0] == 's') && (|s| >= 2 ==> s[1] == 'c')
    ensures Strays(st, s) || Scanned(st, s).depth == st.depth
  {
    if |s| >= 1 {
      assert Next(st, 's') == st;
      if |s| >= 2 {
        assert s[1..][0] == 'c' && IsStray('c');
        assert Strays(st, s[1..]);
      }
    }
  }

  /** Scanning from another depth ends at the same distance from it. */
  lemma {:induction false} ScanShifts(st: Scan, s: string, shift: int)
    ensures var r := Scanned(st, s);
            Scanned(st.(depth := st.depth + shift), s) == r.(depth := r.depth + shift)
    decreases |s|
  {
    if s != [] {
      ScanShifts(Next(st, s[0]), s[1..], shift);
    }
  }

  /** Only inside a literal can the scanner be behind a backslash. */
  lemma {:induction false} OutsideIsPlain(st: Scan, s: string)
    requires st.escaped ==> st.inString
    ensures Scanned(st, s).escaped ==> Scanned(st, s).inString
    decreases |s|
  {
    if s != [] {
      OutsideIsPlain(Next(st, s[0]), s[1..]);
    }
  }

  /**
   Whatever is appended to a spoiled line, it stays spoiled: outside a literal a bracket stays open,
   inside one a name comes free.
   */
  lemma SpoiledStays(s: string, piece: string, r: Record)
    requires Spoiled(s) && IsPiece(piece, r)
    ensures Spoiled(s + piece)
  {
    hide Scanned, Strays, Next, IsPiece;
    PieceFacts(piece, r);
    StraysInTurn(OUTSIDE, s, piece);
    ScannedInTurn(OUTSIDE, s, piece);
    var st := Scanned(OUTSIDE, s);
    if TwoObjects(s) {
      var k :| 0 < k < |s| && Closed(s[..k]) && s[k] == '{';
      assert (s + piece)[..k] == s[..k] && (s + piece)[k] == '{';
    } else if !Strays(OUTSIDE, s) {
      if st.inString {
        InsideThenPiece(st, piece, r);
      } else {
        OutsideIsPlain(OUTSIDE, s);
        ScanShifts(OUTSIDE, piece, st.depth);
      }
    }
  }

  // ----- the file and what it stands for -----

  ghost predicate HasBehind(content: string, base: string, text: string, more: string) {
    Spoiled(text) && more != [] && more[0] == '{' && content == base + text + NEWLINE + more
  }

  /** The content of the file is that of the records in front and of such an end. */
  ghost predicate Shows(content: string, f: File<Record>) {
    var base := Journal(f.lines, WriteRecord);
    match f.end
    case Clean => content == base
    case Unfinished(r) => content == base + WriteRecord(r)
    case Torn => exists text :: Spoiled(text) && content == base + text
    case Joined(_) => exists text :: Spoiled(text) && content == base + text + NEWLINE
    case Blocked => exists text, more :: HasBehind(content, base, text, more)
  }

  function ExtentOf(r: Record, taken: nat): Extent {
    if taken == 0 then Nothing
    else if taken < |WriteRecord(r)| then Part
    else if taken == |WriteRecord(r)| then AllButNewline
    else Everything
  }

  /** One append of which the first `taken` characters are written, the newline being the last one. */
  function Bytes(r: Record, taken: nat): string
    requires taken <= |WriteRecord(r)| + 1
  {
    (WriteRecord(r) + NEWLINE)[..taken]
  }

  lemma BytesFacts(r: Record, taken: nat)
    requires taken <= |WriteRecord(r)| + 1
    ensures match ExtentOf(r, taken)
            case Nothing => Bytes(r, taken) == []
            case Part => Bytes(r, taken) == WriteRecord(r)[..taken] && Spoiled(Bytes(r, taken)) && IsPiece(Bytes(r, taken), r)
            case AllButNewline => Bytes(r, taken) == WriteRecord(r) && IsPiece(Bytes(r, taken), r)
            case Everything => Bytes(r, taken) == WriteRecord(r) + NEWLINE && IsPiece(WriteRecord(r), r)
  {
    hide WriteRecord, Spoiled;
    RecordStarts(r);
    var line := WriteRecord(r);
    if 0 < taken < |line| {
      PartIsSpoiled(r, taken);
      assert (line + NEWLINE)[..taken] == line[..taken];
    } else if taken == |line| {
      assert (line + NEWLINE)[..taken] == line;
    } else if taken > 0 {
      assert (line + NEWLINE)[..taken] == line + NEWLINE;
    }
  }

  lemma JournalGrows(records: seq<Record>, r: Record)
    ensures Journal(records + [r], WriteRecord) == Journal(records, WriteRecord) + WriteRecord(r) + NEWLINE
  {
    hide WriteRecord;
    assert (records + [r])[..|records|] == records;
  }

  lemma Joins(base: string, text: string, piece: string, end: string)
    ensures base + text + (piece + end) == base + (text + piece) + end
    ensures base + text + piece == base + (text + piece)
  {
  }

  lemma JoinsBehind(base: string, text: string, more: string, bytes: string)
    ensures base + text + NEWLINE + more + bytes == base + text + NEWLINE + (more + bytes)
  {
  }

  /** A spoiled text at the end takes up whatever is appended next. */
  lemma AppendToSpoiled(content: string, f: File<Record>, text: string, r: Record, taken: nat)
    requires Spoiled(text) && content == Journal(f.lines, WriteRecord) + text && (f.end.Torn? || f.end.Unfinished?)
    requires 0 < taken <= |WriteRecord(r)| + 1
    ensures Shows(content + Bytes(r, taken), Written(f, r, ExtentOf(r, taken)))
  {
    hide WriteRecord, Spoiled, IsPiece, Bytes;
    BytesFacts(r, taken);
    var base := Journal(f.lines, WriteRecord);
    var piece := if taken <= |WriteRecord(r)| then Bytes(r, taken) else WriteRecord(r);
    SpoiledStays(text, piece, r);
    Joins(base, text, piece, NEWLINE);
  }

  lemma AppendToUnfinished(content: string, f: File<Record>, r: Record, taken: nat)
    requires f.end.Unfinished? && Shows(content, f)
    requires 0 < taken <= |WriteRecord(r)| + 1
    ensures Shows(content + Bytes(r, taken), Written(f, r, ExtentOf(r, taken)))
  {
    hide WriteRecord, Spoiled, IsPiece, Bytes;
    BytesFacts(r, taken);
    var base, line := Journal(f.lines, WriteRecord), WriteRecord(f.end.record);
    var piece := if taken <= |WriteRecord(r)| then Bytes(r, taken) else WriteRecord(r);
    WholeThenPiece(f.end.record, piece, r);
    Joins(base, line, piece, NEWLINE);
  }

  lemma AppendToClean(content: string, f: File<Record>, r: Record, taken: nat)
    requires f.end.Clean? && Shows(content, f)
    requires 0 < taken <= |WriteRecord(r)| + 1
    ensures Shows(content + Bytes(r, taken), Written(f, r, ExtentOf(r, taken)))
  {
    hide WriteRecord, Spoiled, IsPiece, Bytes;
    BytesFacts(r, taken);
    JournalGrows(f.lines, r);
    assert content + (WriteRecord(r) + NEWLINE) == content + WriteRecord(r) + NEWLINE;
  }

  lemma AppendBehind(content: string, f: File<Record>, r: Record, taken: nat)
    requires (f.end.Joined? || f.end.Blocked?) && Shows(content, f)
    requires 0 < taken <= |WriteRecord(r)| + 1
    ensures Shows(content + Bytes(r, taken), Written(f, r, ExtentOf(r, taken)))
  {
    hide WriteRecord, Spoiled;
    BytesFacts(r, taken);
    var base, bytes := Journal(f.lines, WriteRecord), Bytes(r, taken);
    BytesStart(r, taken);
    if f.end.Joined? {
      var text :| Spoiled(text) && content == base + text + NEWLINE;
      assert HasBehind(content + bytes, base, text, bytes);
    } else {
      var text, more :| HasBehind(content, base, text, more);
      JoinsBehind(base, text, more, bytes);
      assert HasBehind(content + bytes, base, text, more + bytes);
    }
  }

  lemma BytesStart(r: Record, taken: nat)
    requires 0 < taken <= |WriteRecord(r)| + 1
    ensures Bytes(r, taken) != [] && Bytes(r, taken)[0] == '{'
  {
    hide WriteRecord;
    RecordStarts(r);
    assert WriteRecord(r)[0] == WriteRecord(r)[..4][0];
  }

  /** Every append, whole or broken off anywhere, moves the file as the table of ends says. */
  lemma AppendShows(content: string, f: File<Record>, r: Record, taken: nat)
    requires Shows(content, f) && taken <= |WriteRecord(r)| + 1
    ensures Shows(content + Bytes(r, taken), Written(f, r, ExtentOf(r, taken)))
  {
    hide WriteRecord, Spoiled, Bytes;
    if taken == 0 {
      BytesFacts(r, taken);
      assert content + [] == content;
    } else {
      match f.end {
        case Clean => AppendToClean(content, f, r, taken);
        case Unfinished(_) => AppendToUnfinished(content, f, r, taken);
        case Torn =>
          var text :| Spoiled(text) && content == Journal(f.lines, WriteRecord) + text;
          AppendToSpoiled(content, f, text, r, taken);
        case Joined(_) => AppendBehind(content, f, r, taken);
        case Blocked => AppendBehind(content, f, r, taken);
      }
    }
  }

  // ----- what a restart finds -----

  /** A file that ends in a spoiled line, with or without a newline, loads without it and is cut back. */
  lemma SpoiledEndIsCut(records: seq<Record>, text: string, terminated: bool, decode: string -> Option<Record>)
    requires Reader(decode) && Spoiled(text)
    ensures var base := Journal(records, WriteRecord);
            var content := base + text + if terminated then NEWLINE else [];
            Loaded(content, decode) == Ok(records) && Repaired(content, decode) == base
  {
    hide Closed, WriteRecord, LinesFrom, DecodedPrefix, Loaded, Repaired;
    ReaderIsCodec(decode);
    SpoiledNeverDecodes(text, decode);
    JournalIsWhole(records, WriteRecord, decode);
    var base := Journal(records, WriteRecord);
    OneMoreLine(base, text);
    var content := base + text + if terminated then NEWLINE else [];
    assert base + text + [] == base + text;
    var last := Line(text, |base|, terminated);
    DecodedInTurn(LinesFrom(base, 0), [last], decode);
    DecodedOne(last, decode);
    assert records + [] == records;
    assert LinesFrom(content, 0)[|records|] == last;
    assert content[..|base|] == base;
    BadEnd(content, decode, records);
  }

  /** Text that starts with a bracket has a line. */
  lemma MoreLines(content: string, n: nat)
    requires n < |content| && content[n] != '\n'
    ensures LinesFrom(content, n) != []
  {
    LinesUnfold(content, n);
  }

  lemma SpoiledInside(records: seq<Record>, text: string, more: string, content: string, decode: string -> Option<Record>)
    requires Reader(decode) && HasBehind(content, Journal(records, WriteRecord), text, more)
    ensures Loaded(content, decode).Err?
  {
    hide Closed, WriteRecord, LinesFrom, DecodedPrefix, Loaded, Reader;
    SpoiledNeverDecodes(text, decode);
    ReaderIsCodec(decode);
    JournalIsWhole(records, WriteRecord, decode);
    var base := Journal(records, WriteRecord);
    OneMoreLine(base, text);
    var first := base + text + NEWLINE;
    var n := |first|;
    assert content[..n] == first && content[n] == more[0];
    LinesSplit(content, 0, n);
    MoreLines(content, n);
    var i := |LinesFrom(base, 0)|;
    assert LinesFrom(content, 0)[i] == Line(text, |base|, true);
    LoadingFailsExactly(content, decode);
  }

  /** What a restart loads and leaves of the file, for every such end. */
  lemma ShownLoads(content: string, f: File<Record>, decode: string -> Option<Record>)
    requires Reader(decode) && Shows(content, f)
    ensures match Reloaded(f)
            case Some(records) => Loaded(content, decode) == Ok(records) && Repaired(content, decode) == Journal(records, WriteRecord)
            case None => Loaded(content, decode).Err?
  {
    hide Closed, WriteRecord, Spoiled, Loaded, Repaired, Reader, HasBehind, Whole;
    ReaderIsCodec(decode);
    var base := Journal(f.lines, WriteRecord);
    match f.end {
      case Clean => CompleteJournalLoads(f.lines, WriteRecord, decode);
      case Unfinished(r) => MissingNewlineIsAdded(f.lines, WriteRecord, decode, r);
      case Torn =>
        var text :| Spoiled(text) && content == base + text;
        assert base + text + [] == base + text;
        SpoiledEndIsCut(f.lines, text, false, decode);
      case Joined(_) =>
        var text :| Spoiled(text) && content == base + text + NEWLINE;
        SpoiledEndIsCut(f.lines, text, true, decode);
      case Blocked =>
        var text, more :| HasBehind(content, base, text, more);
        SpoiledInside(f.lines, text, more, content, decode);
    }
  }

  // ----- any sequence of appends -----

  datatype Write = Write(record: Record, taken: nat)

  predicate Fits(w: Write) {
    w.taken <= |WriteRecord(w.record)| + 1
  }

  /** The file after these appends, character by character. */
  function Content(writes: seq<Write>): string
    requires forall i :: 0 <= i < |writes| ==> Fits(writes[i])
  {
    if writes == [] then []
    else
      var before, w := Content(writes[..|writes| - 1]), writes[|writes| - 1];
      assert Fits(w);
      before + Bytes(w.record, w.taken)
  }

  /** The same as the table of ends sees it. */
  function Outline(writes: seq<Write>): File<Record> {
    if writes == [] then File([], Clean)
    else
      var before, w := Outline(writes[..|writes| - 1]), writes[|writes| - 1];
      Written(before, w.record, ExtentOf(w.record, w.taken))
  }

  lemma {:induction false} WritesShow(writes: seq<Write>)
    requires forall i :: 0 <= i < |writes| ==> Fits(writes[i])
    ensures Shows(Content(writes), Outline(writes))
  {
    hide WriteRecord, Bytes, ExtentOf;
    if writes == [] {
      assert Journal<Record>([], WriteRecord) == [];
    } else {
      var before, w := writes[..|writes| - 1], writes[|writes| - 1];
      WritesShow(before);
      AppendShows(Content(before), Outline(before), w.record, w.taken);
    }
  }

  /** Whatever was appended, and wherever appends broke off: a restart finds what the table of ends says. */
  lemma WritesReload(writes: seq<Write>, decode: string -> Option<Record>)
    requires Reader(decode) && forall i :: 0 <= i < |writes| ==> Fits(writes[i])
    ensures match Reloaded(Outline(writes))
            case Some(records) => && Loaded(Content(writes), decode) == Ok(records)
                                  && Repaired(Content(writes), decode) == Journal(records, WriteRecord)
            case None => Loaded(Content(writes), decode).Err?
  {
    hide WriteRecord, Loaded, Repaired, Reader, Shows, Outline, Content;
    WritesShow(writes);
    ShownLoads(Content(writes), Outline(writes), decode);
  }

  // ----- which appends spoil what -----

  predicate IsBroken(w: Write) {
    0 < w.taken <= |WriteRecord(w.record)|
  }

  predicate IsComplete(w: Write) {
    w.taken == |WriteRecord(w.record)| + 1
  }

  predicate HasBroken(writes: seq<Write>) {
    exists i :: 0 <= i < |writes| && IsBroken(writes[i])
  }

  /** Some record was appended completely behind one that broke off. */
  predicate HasJoined(writes: seq<Write>) {
    exists i, j :: 0 <= i < j < |writes| && IsBroken(writes[i]) && IsComplete(writes[j])
  }

  /** And something was written behind that record. */
  predicate HasMore(writes: seq<Write>) {
    exists l :: 0 <= l < |writes| && HasJoined(writes[..l]) && writes[l].taken > 0
  }

  lemma OneMoreWrite(before: seq<Write>, w: Write)
    ensures var writes := before + [w];
            && (HasBroken(writes) <==> HasBroken(before) || IsBroken(w))
            && (HasJoined(writes) <==> HasJoined(before) || (HasBroken(before) && IsComplete(w)))
  {
    hide IsBroken, IsComplete;
    var writes, n := before + [w], |before|;
    assert writes[n] == w && forall i :: 0 <= i < n ==> writes[i] == before[i];
    if HasBroken(before) && IsComplete(w) {
      var i :| 0 <= i < n && IsBroken(before[i]);
      assert IsBroken(writes[i]) && IsComplete(writes[n]);
    }
    if HasJoined(before) {
      var i, j :| 0 <= i < j < n && IsBroken(before[i]) && IsComplete(before[j]);
      assert IsBroken(writes[i]) && IsComplete(writes[j]);
    }
    if HasBroken(before) {
      var i :| 0 <= i < n && IsBroken(before[i]);
      assert IsBroken(writes[i]);
    }
  }

  lemma JoinedStays(writes: seq<Write>, n: nat)
    requires n <= |writes| && HasJoined(writes[..n])
    ensures HasJoined(writes)
  {
    var i, j :| 0 <= i < j < n && IsBroken(writes[..n][i]) && IsComplete(writes[..n][j]);
    assert IsBroken(writes[i]) && IsComplete(writes[j]);
  }

  lemma MoreWrites(before: seq<Write>, w: Write)
    ensures HasMore(before + [w]) <==> HasMore(before) || (HasJoined(before) && w.taken > 0)
  {
    hide HasJoined;
    var writes, n := before + [w], |before|;
    assert writes[..n] == before && writes[n] == w;
    assert forall l :: 0 <= l < n ==> writes[..l] == before[..l] && writes[l] == before[l];
  }

  /** The end of the file, from the appends alone. */
  lemma {:induction false} EndExactly(writes: seq<Write>)
    requires forall i :: 0 <= i < |writes| ==> Fits(writes[i])
    ensures var end := Outline(writes).end;
            && (end.Clean? <==> !HasBroken(writes)) && (end.Blocked? <==> HasMore(writes))
            && (end.Joined? <==> HasJoined(writes) && !HasMore(writes))
  {
    hide HasBroken, HasJoined, HasMore;
    if writes == [] {
      NothingIsBroken();
    } else {
      var before, w := writes[..|writes| - 1], writes[|writes| - 1];
      assert forall i :: 0 <= i < |before| ==> before[i] == writes[i];
      assert writes == before + [w];
      assert Fits(w);
      EndExactly(before);
      OneMoreWrite(before, w);
      MoreWrites(before, w);
      JoinedHasBroken(before);
    }
  }

  lemma NothingIsBroken()
    ensures !HasBroken([]) && !HasJoined([]) && !HasMore([])
  {
  }

  lemma JoinedHasBroken(writes: seq<Write>)
    ensures HasJoined(writes) ==> HasBroken(writes)
    ensures HasMore(writes) ==> HasJoined(writes)
  {
    hide HasJoined;
    if HasJoined(writes) {
      JoinedFindsBroken(writes);
    }
    if HasMore(writes) {
      var l :| 0 <= l < |writes| && HasJoined(writes[..l]) && writes[l].taken > 0;
      JoinedStays(writes, l);
    }
  }

  lemma JoinedFindsBroken(writes: seq<Write>)
    requires HasJoined(writes)
    ensures HasBroken(writes)
  {
  }

  /** Loading fails exactly when something was written behind a record that was appended to a broken one. */
  lemma LoadingBlockedExactly(writes: seq<Write>, decode: string -> Option<Record>)
    requires Reader(decode) && forall i :: 0 <= i < |writes| ==> Fits(writes[i])
    ensures Loaded(Content(writes), decode).Err? <==> HasMore(writes)
  {
    hide WriteRecord, Loaded, Repaired, Reader, Outline, Content, HasMore, HasJoined, HasBroken;
    WritesReload(writes, decode);
    EndExactly(writes);
  }

  // ----- the two losses, as text -----

  lemma CompleteShows(records: seq<Record>)
    ensures Shows(Journal(records, WriteRecord), File(records, Clean))
  {
  }

  lemma BrokenThenComplete(records: seq<Record>, broken: Record, k: nat, joined: Record)
    requires 0 < k <= |WriteRecord(broken)|
    ensures Shows(Journal(records, WriteRecord) + WriteRecord(broken)[..k] + (WriteRecord(joined) + NEWLINE),
                  File(records, Joined(joined)))
  {
    hide WriteRecord, Shows;
    var base := Journal(records, WriteRecord);
    CompleteShows(records);
    AppendShows(base, File(records, Clean), broken, k);
    assert Bytes(broken, k) == WriteRecord(broken)[..k];
    var f := Written(File(records, Clean), broken, ExtentOf(broken, k));
    AppendShows(base + Bytes(broken, k), f, joined, |WriteRecord(joined)| + 1);
    assert Bytes(joined, |WriteRecord(joined)| + 1) == WriteRecord(joined) + NEWLINE;
  }

  /**
   A record whose append succeeded is lost: when it follows an append that broke off anywhere, be it only
   before the newline, and the process stops before another record follows, a restart cuts both off.
   */
  lemma CommittedRecordIsLost(records: seq<Record>, broken: Record, k: nat, joined: Record, decode: string -> Option<Record>)
    requires Reader(decode) && 0 < k <= |WriteRecord(broken)|
    ensures var file := Journal(records, WriteRecord) + WriteRecord(broken)[..k] + (WriteRecord(joined) + NEWLINE);
            Loaded(file, decode) == Ok(records) && Repaired(file, decode) == Journal(records, WriteRecord)
  {
    hide WriteRecord, Shows, Loaded, Repaired, Reader;
    BrokenThenComplete(records, broken, k, joined);
    ShownLoads(Journal(records, WriteRecord) + WriteRecord(broken)[..k] + (WriteRecord(joined) + NEWLINE),
               File(records, Joined(joined)), decode);
  }

  /** When another record does follow, the file never loads again. */
  lemma BrokenAppendBlocksLoading(records: seq<Record>, broken: Record, k: nat, joined: Record, last: Record,
                                  decode: string -> Option<Record>)
    requires Reader(decode) && 0 < k <= |WriteRecord(broken)|
    ensures var file := Journal(records, WriteRecord) + WriteRecord(broken)[..k] + (WriteRecord(joined) + NEWLINE)
                        + (WriteRecord(last) + NEWLINE);
            Loaded(file, decode).Err?
  {
    hide WriteRecord, Shows, Loaded, Reader;
    var content := Journal(records, WriteRecord) + WriteRecord(broken)[..k] + (WriteRecord(joined) + NEWLINE);
    BrokenThenComplete(records, broken, k, joined);
    AppendShows(content, File(records, Joined(joined)), last, |WriteRecord(last)| + 1);
    assert Bytes(last, |WriteRecord(last)| + 1) == WriteRecord(last) + NEWLINE;
    ShownLoads(content + (WriteRecord(last) + NEWLINE), File(records, Blocked), decode);
  }

  const FIRST_RECORD := Record(1, "ORDER_SNAPSHOT", 0, Object(NoFields), "0")
  const SECOND_RECORD := Record(2, "ORDER_SNAPSHOT", 0, Object(NoFields), "0")
  const THIRD_RECORD := Record(3, "ORDER_SNAPSHOT", 0, Object(NoFields), "0")

  /** One character left behind is enough: the second record goes with it, and a third one blocks the file. */
  lemma OneCharacterIsEnough()
    ensures var left := ['{'] + (WriteRecord(SECOND_RECORD) + NEWLINE);
            && Loaded(left, Find) == Ok([])
            && Loaded(left + (WriteRecord(THIRD_RECORD) + NEWLINE), Find).Err?
  {
    hide WriteRecord, Reader, Repaired, Loaded, Find;
    ReaderExists();
    RecordStarts(FIRST_RECORD);
    assert WriteRecord(FIRST_RECORD)[..1] == WriteRecord(FIRST_RECORD)[..4][..1] == ['{'];
    assert Journal<Record>([], WriteRecord) + ['{'] == ['{'];
    CommittedRecordIsLost([], FIRST_RECORD, 1, SECOND_RECORD, Find);
    BrokenAppendBlocksLoading([], FIRST_RECORD, 1, SECOND_RECORD, THIRD_RECORD, Find);
  }
}
