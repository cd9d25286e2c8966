/**
 Loading the journal file and repairing its end. A record is a line; a crash can leave any part of
 the last record behind. Decoding a line is a parameter: a JSON parser with schema and checksum tests.
 */
module TornTail {
  import opened Wrappers
  import opened JournalRecords

  const NEWLINE := ['\n']

  datatype Line = Line(text: string, start: nat, terminated: bool)

  function NewlineFrom(content: string, from: nat): (e: nat)
    requires from <= |content|
    ensures from <= e <= |content| && (e < |content| ==> content[e] == '\n')
    ensures forall k :: from <= k < e ==> content[k] != '\n'
    decreases |content| - from
  {
    if from == |content| || content[from] == '\n' then from else NewlineFrom(content, from + 1)
  }

  /** The line that begins at an offset, or nothing if it is empty. */
  function LineAt(content: string, from: nat): (r: seq<Line>)
    requires from < |content|
  {
    var e := NewlineFrom(content, from);
    if e == from then [] else [Line(content[from..e], from, e < |content|)]
  }

  /** Where the next line begins. */
  function NextFrom(content: string, from: nat): (r: nat)
    requires from < |content|
    ensures from < r <= |content|
  {
    var e := NewlineFrom(content, from);
    if e < |content| then e + 1 else e
  }

  /** The non-empty lines of a file from an offset on. */
  function LinesFrom(content: string, from: nat): seq<Line>
    requires from <= |content|
    decreases |content| - from
  {
    if from == |content| then [] else LineAt(content, from) + LinesFrom(content, NextFrom(content, from))
  }

  lemma LinesUnfold(content: string, from: nat)
    requires from < |content|
    ensures LinesFrom(content, from) == LineAt(content, from) + LinesFrom(content, NextFrom(content, from))
    ensures LinesFrom(content, |content|) == []
  {
  }

  lemma InTurn(a: seq<Line>, b: seq<Line>, c: seq<Line>)
    ensures a + b + c == a + (b + c)
  {
  }

  /** One getline call: the text up to the next newline, and whether there was one. */
  method ReadLine(content: string, from: nat) returns (line: string, next: nat, terminated: bool)
    requires from < |content|
    ensures line == content[from..NewlineFrom(content, from)] && next == NextFrom(content, from)
    ensures terminated == (NewlineFrom(content, from) < |content|)
  {
    line := [];
    next := from;
    while next < |content| && content[next] != '\n'
      invariant from <= next <= |content| && line == content[from..next]
      invariant NewlineFrom(content, next) == NewlineFrom(content, from)
    {
      line := line + [content[next]];
      next := next + 1;
    }
    terminated := next < |content|;
    if terminated {
      next := next + 1;
    }
  }

  /** Reads the file line by line, keeping offsets and skipping empty lines. */
  method ReadLines(content: string) returns (lines: seq<Line>)
    ensures lines == LinesFrom(content, 0)
  {
    hide LinesFrom, NewlineFrom, NextFrom;
    lines := [];
    var offset := 0;
    while offset < |content|
      invariant offset <= |content| && lines + LinesFrom(content, offset) == LinesFrom(content, 0)
    {
      LinesUnfold(content, offset);
      InTurn(lines, LineAt(content, offset), LinesFrom(content, NextFrom(content, offset)));
      var line, next, terminated := ReadLine(content, offset);
      ghost var before := lines;
      if line != [] {
        lines := lines + [Line(line, offset, terminated)];
      }
      assert lines == before + LineAt(content, offset);
      offset := next;
    }
    NoLines(content);
  }

  lemma NoLines(content: string)
    ensures LinesFrom(content, |content|) == []
  {
  }

  // ----- what loading yields -----

  /** The records of the longest run of lines from the beginning that decode. */
  function DecodedPrefix<R>(lines: seq<Line>, decode: string -> Option<R>): (r: seq<R>)
    ensures |r| <= |lines|
  {
    if lines == [] then []
    else
      match decode(lines[0].text)
      case None => []
      case Some(record) => [record] + DecodedPrefix(lines[1..], decode)
  }

  /** Loading succeeds with the decoded records, or fails with the number of a bad line that is not the last. */
  function Loaded<R>(content: string, decode: string -> Option<R>): Result<seq<R>, nat> {
    var lines := LinesFrom(content, 0);
    var records := DecodedPrefix(lines, decode);
    if |records| + 1 < |lines| then Err(|records| + 1) else Ok(records)
  }

  /** A bad last line is cut off; a good last line gets its missing newline. */
  function Repaired<R>(content: string, decode: string -> Option<R>): string {
    var lines := LinesFrom(content, 0);
    var good := |DecodedPrefix(lines, decode)|;
    if good < |lines| then
      (if good + 1 == |lines| && lines[good].start <= |content| then content[..lines[good].start] else content)
    else if lines != [] && !lines[|lines| - 1].terminated then content + NEWLINE
    else content
  }

  lemma {:induction false} DecodedNext<R>(lines: seq<Line>, decode: string -> Option<R>, i: nat)
    requires i < |lines| && |DecodedPrefix(lines, decode)| >= i
    ensures decode(lines[i].text).None? ==> |DecodedPrefix(lines, decode)| == i
    ensures decode(lines[i].text).Some? ==>
              |DecodedPrefix(lines, decode)| > i && DecodedPrefix(lines, decode)[i] == decode(lines[i].text).value
    decreases i
  {
    if i > 0 {
      DecodedNext(lines[1..], decode, i - 1);
    }
  }

  /** The journal file; nobody else writes it while its owner holds the lock. */
  class JournalFile {
    var content: string

    constructor (content: string)
      ensures this.content == content
    {
      this.content := content;
    }

    /** Reads all records and repairs the end of the file. */
    method Load<R>(decode: string -> Option<R>) returns (result: Result<seq<R>, nat>)
      modifies this
      ensures result == Loaded(old(content), decode)
      ensures content == Repaired(old(content), decode)
    {
      var lines := ReadLines(content);
      var records: seq<R> := [];
      for i := 0 to |lines|
        invariant content == old(content) && |records| == i <= |DecodedPrefix(lines, decode)|
        invariant records == DecodedPrefix(lines, decode)[..i]
      {
        DecodedNext(lines, decode, i);
        match decode(lines[i].text)
        case Some(record) => records := records + [record];
        case None =>
          assert DecodedPrefix(lines, decode)[..i] == DecodedPrefix(lines, decode);
          if i + 1 == |lines| {
            LineStarts(content, 0, i);
            content := content[..lines[i].start];
            return Ok(records);
          }
          return Err(i + 1);
      }
      if lines != [] && !lines[|lines| - 1].terminated {
        content := content + NEWLINE;
      }
      assert DecodedPrefix(lines, decode)[..|lines|] == DecodedPrefix(lines, decode);
      return Ok(records);
    }

    method Append(line: string)
      modifies this
      ensures content == old(content) + line + NEWLINE
    {
      content := content + line + NEWLINE;
    }
  }

  // ----- lines of parts of a file -----

  predicate AtLineStart(content: string, p: nat) {
    p <= |content| && (p == 0 || content[p - 1] == '\n')
  }

  lemma NextIsLineStart(content: string, from: nat)
    requires from < |content|
    ensures NextFrom(content, from) < |content| ==> AtLineStart(content, NextFrom(content, from))
  {
  }

  lemma LineAtFacts(content: string, from: nat)
    requires from < |content|
    ensures |LineAt(content, from)| <= 1
    ensures LineAt(content, from) != [] ==> LineAt(content, from)[0].start == from
  {
  }

  /** Each line begins where a line can begin, and from there the file has exactly the remaining lines. */
  lemma {:induction false} LineStarts(content: string, from: nat, i: nat)
    requires AtLineStart(content, from) && i < |LinesFrom(content, from)|
    ensures var line := LinesFrom(content, from)[i];
            && from <= line.start < |content| && AtLineStart(content, line.start)
            && LinesFrom(content, line.start) == LinesFrom(content, from)[i..]
    decreases |content| - from
  {
    hide LinesFrom, NewlineFrom, NextFrom, LineAt;
    NoLines(content);
    LinesUnfold(content, from);
    LineAtFacts(content, from);
    var next := NextFrom(content, from);
    NextIsLineStart(content, from);
    var first := |LineAt(content, from)|;
    if i >= first {
      LineStarts(content, next, i - first);
    }
  }

  lemma {:induction false} NewlineOfPrefix(content: string, from: nat, p: nat)
    requires from <= p <= |content| && (p == from || content[p - 1] == '\n')
    ensures from < p ==> NewlineFrom(content[..p], from) == NewlineFrom(content, from) < p
    decreases p - from
  {
    if from < p && content[from] != '\n' {
      NewlineOfPrefix(content, from + 1, p);
    }
  }

  lemma LineOfPrefix(content: string, from: nat, p: nat)
    requires from < p <= |content| && content[p - 1] == '\n'
    ensures LineAt(content[..p], from) == LineAt(content, from) && NextFrom(content[..p], from) == NextFrom(content, from) <= p
  {
    NewlineOfPrefix(content, from, p);
    var e := NewlineFrom(content, from);
    assert content[..p][from..e] == content[from..e];
  }

  /** A file cut after a newline has the lines before the cut; the rest has the others. */
  lemma {:induction false} LinesSplit(content: string, from: nat, p: nat)
    requires from <= p <= |content| && (p == from || content[p - 1] == '\n')
    ensures LinesFrom(content[..p], from) + LinesFrom(content, p) == LinesFrom(content, from)
    decreases p - from
  {
    hide LinesFrom, NewlineFrom, NextFrom, LineAt;
    NoLines(content[..p]);
    if from < p {
      LineOfPrefix(content, from, p);
      LinesUnfold(content, from);
      LinesUnfold(content[..p], from);
      var next := NextFrom(content, from);
      LinesSplit(content, next, p);
      InTurn(LineAt(content, from), LinesFrom(content[..p], next), LinesFrom(content, p));
    }
  }

  lemma {:induction false} NoNewline(content: string, from: nat)
    requires from <= |content| && '\n' !in content[from..]
    ensures NewlineFrom(content, from) == |content|
    decreases |content| - from
  {
    if from < |content| {
      assert content[from] == content[from..][0];
      assert content[from + 1..] == content[from..][1..];
      NoNewline(content, from + 1);
    }
  }

  lemma OpenLine(content: string, n: nat)
    requires n < |content| && '\n' !in content[n..]
    ensures LinesFrom(content, n) == [Line(content[n..], n, false)]
  {
    NoNewline(content, n);
    LinesUnfold(content, n);
    assert content[n..|content|] == content[n..];
  }

  lemma TerminatedLine(content: string, n: nat)
    requires n < |content| - 1 && content[|content| - 1] == '\n' && '\n' !in content[n..|content| - 1]
    ensures LinesFrom(content, n) == [Line(content[n..|content| - 1], n, true)]
  {
    EndOfLine(content, n, |content| - 1);
    LinesUnfold(content, n);
  }

  /** One more line at the end of a file that ends between lines. */
  lemma OneMoreLine(content: string, line: string)
    requires AtLineStart(content, |content|) && line != [] && '\n' !in line
    ensures LinesFrom(content + line, 0) == LinesFrom(content, 0) + [Line(line, |content|, false)]
    ensures LinesFrom(content + line + NEWLINE, 0) == LinesFrom(content, 0) + [Line(line, |content|, true)]
  {
    hide LinesFrom;
    var n := |content|;
    var open, closed := content + line, content + line + NEWLINE;
    assert open[..n] == content && closed[..n] == content;
    LinesSplit(open, 0, n);
    LinesSplit(closed, 0, n);
    assert open[n..] == line && closed[n..|closed| - 1] == line;
    OpenLine(open, n);
    TerminatedLine(closed, n);
  }

  lemma {:induction false} EndOfLine(content: string, from: nat, e: nat)
    requires from <= e < |content| && content[e] == '\n' && '\n' !in content[from..e]
    ensures NewlineFrom(content, from) == e
    decreases e - from
  {
    if from < e {
      assert content[from] == content[from..e][0];
      assert content[from + 1..e] == content[from..e][1..];
      EndOfLine(content, from + 1, e);
    }
  }

  lemma {:induction false} DecodedInTurn<R>(lines: seq<Line>, more: seq<Line>, decode: string -> Option<R>)
    ensures DecodedPrefix(lines + more, decode)
            == if |DecodedPrefix(lines, decode)| == |lines| then DecodedPrefix(lines, decode) + DecodedPrefix(more, decode)
               else DecodedPrefix(lines, decode)
    decreases |lines|
  {
    if lines == [] {
      assert lines + more == more;
    } else {
      assert (lines + more)[1..] == lines[1..] + more;
      DecodedInTurn(lines[1..], more, decode);
    }
  }

  // ----- complete journals and torn ends -----

  /** Decoding inverts writing, written records are framed, and nothing with an open bracket decodes. */
  ghost predicate Codec<R(!new)>(write: R -> string, decode: string -> Option<R>) {
    && (forall r :: Framed(write(r)) && decode(write(r)) == Some(r))
    && (forall s :: decode(s).Some? ==> Closed(s))
  }

  function Journal<R>(records: seq<R>, write: R -> string): string {
    if records == [] then [] else Journal(records[..|records| - 1], write) + write(records[|records| - 1]) + NEWLINE
  }

  lemma DecodedOne<R>(line: Line, decode: string -> Option<R>)
    ensures DecodedPrefix([line], decode)
            == match decode(line.text) case None => [] case Some(r) => [r]
  {
    assert [line][1..] == [];
  }

  /** A file is whole when it ends between lines and every line decodes. */
  ghost predicate Whole<R>(content: string, decode: string -> Option<R>, records: seq<R>) {
    && AtLineStart(content, |content|)
    && DecodedPrefix(LinesFrom(content, 0), decode) == records && |LinesFrom(content, 0)| == |records|
    && (records != [] ==> LinesFrom(content, 0)[|records| - 1].terminated)
  }

  lemma WholeLoads<R>(content: string, decode: string -> Option<R>, records: seq<R>)
    requires Whole(content, decode, records)
    ensures Loaded(content, decode) == Ok(records) && Repaired(content, decode) == content
  {
  }

  /** Appending a decodable line to a whole file makes it whole again. */
  lemma AppendKeepsWhole<R>(content: string, decode: string -> Option<R>, records: seq<R>, line: string, r: R)
    requires Whole(content, decode, records) && line != [] && '\n' !in line && decode(line) == Some(r)
    ensures Whole(content + line + NEWLINE, decode, records + [r])
  {
    OneMoreLine(content, line);
    var last := Line(line, |content|, true);
    DecodedInTurn(LinesFrom(content, 0), [last], decode);
    DecodedOne(last, decode);
  }

  lemma {:induction false} JournalIsWhole<R(!new)>(records: seq<R>, write: R -> string, decode: string -> Option<R>)
    requires Codec(write, decode)
    ensures Whole(Journal(records, write), decode, records)
  {
    hide Whole, Closed;
    if records == [] {
      NothingIsWhole(decode);
    } else {
      var before, r := records[..|records| - 1], records[|records| - 1];
      JournalIsWhole(before, write, decode);
      assert Framed(write(r));
      AppendKeepsWhole(Journal(before, write), decode, before, write(r), r);
      assert before + [r] == records;
    }
  }

  lemma NothingIsWhole<R>(decode: string -> Option<R>)
    ensures Whole([], decode, [])
  {
  }

  /** A journal of complete records loads as exactly those records and is left alone. */
  lemma CompleteJournalLoads<R(!new)>(records: seq<R>, write: R -> string, decode: string -> Option<R>)
    requires Codec(write, decode)
    ensures Loaded(Journal(records, write), decode) == Ok(records)
    ensures Repaired(Journal(records, write), decode) == Journal(records, write)
  {
    hide Whole, Loaded, Repaired;
    JournalIsWhole(records, write, decode);
    WholeLoads(Journal(records, write), decode, records);
  }

  /** What an unterminated line after a whole file does: it counts when it decodes and is cut off when not. */
  lemma UnterminatedEnd<R>(content: string, decode: string -> Option<R>, records: seq<R>, line: string)
    requires Whole(content, decode, records) && line != [] && '\n' !in line
    ensures decode(line).None? ==> Loaded(content + line, decode) == Ok(records) && Repaired(content + line, decode) == content
    ensures decode(line).Some? ==> Loaded(content + line, decode) == Ok(records + [decode(line).value])
                                   && Repaired(content + line, decode) == content + line + NEWLINE
  {
    hide LinesFrom, DecodedPrefix, Loaded, Repaired;
    OneMoreLine(content, line);
    var last := Line(line, |content|, false);
    DecodedInTurn(LinesFrom(content, 0), [last], decode);
    DecodedOne(last, decode);
    assert (content + line)[..|content|] == content;
    var lines := LinesFrom(content, 0) + [last];
    assert lines[|lines| - 1] == last;
    if decode(line).None? {
      assert records + [] == records;
      BadEnd(content + line, decode, records);
    } else {
      OpenEnd(content + line, decode, records + [decode(line).value]);
    }
  }

  /** The outcome when all lines but the last decode. */
  lemma BadEnd<R>(content: string, decode: string -> Option<R>, records: seq<R>)
    requires var lines := LinesFrom(content, 0);
             DecodedPrefix(lines, decode) == records && |lines| == |records| + 1 && lines[|records|].start <= |content|
    ensures Loaded(content, decode) == Ok(records)
    ensures Repaired(content, decode) == content[..LinesFrom(content, 0)[|records|].start]
  {
  }

  /** The outcome when all lines decode and the last one has no newline. */
  lemma OpenEnd<R>(content: string, decode: string -> Option<R>, records: seq<R>)
    requires var lines := LinesFrom(content, 0);
             DecodedPrefix(lines, decode) == records && |lines| == |records| > 0 && !lines[|lines| - 1].terminated
    ensures Loaded(content, decode) == Ok(records) && Repaired(content, decode) == content + NEWLINE
  {
  }

  /** Every proper part of one more record is dropped: loading returns the complete records and restores their file. */
  lemma TornTailIsDropped<R(!new)>(records: seq<R>, write: R -> string, decode: string -> Option<R>, torn: R, k: nat)
    requires Codec(write, decode) && 0 < k < |write(torn)|
    ensures var file := Journal(records, write) + write(torn)[..k];
            Loaded(file, decode) == Ok(records) && Repaired(file, decode) == Journal(records, write)
  {
    hide Whole, Loaded, Repaired, Closed;
    JournalIsWhole(records, write, decode);
    assert Framed(write(torn));
    UnterminatedEnd(Journal(records, write), decode, records, write(torn)[..k]);
  }

  /** When only the newline is missing, the record counts and the newline is added. */
  lemma MissingNewlineIsAdded<R(!new)>(records: seq<R>, write: R -> string, decode: string -> Option<R>, last: R)
    requires Codec(write, decode)
    ensures var file := Journal(records, write) + write(last);
            Loaded(file, decode) == Ok(records + [last]) && Repaired(file, decode) == Journal(records + [last], write)
  {
    hide Whole, Loaded, Repaired, Closed;
    JournalIsWhole(records, write, decode);
    assert Framed(write(last));
    UnterminatedEnd(Journal(records, write), decode, records, write(last));
    assert (records + [last])[..|records|] == records;
  }

  // ----- any file -----

  /** Loading fails exactly when some line other than the last does not decode. */
  lemma LoadingFailsExactly<R>(content: string, decode: string -> Option<R>)
    ensures var lines := LinesFrom(content, 0);
            Loaded(content, decode).Err? <==> exists i :: 0 <= i < |lines| - 1 && decode(lines[i].text).None?
  {
    var lines := LinesFrom(content, 0);
    var good := |DecodedPrefix(lines, decode)|;
    if good < |lines| {
      DecodedNext(lines, decode, good);
    }
    forall i | 0 <= i < |lines| - 1 && decode(lines[i].text).None?
      ensures good <= i
    {
      if i <= good {
        DecodedNext(lines, decode, i);
      }
    }
  }

  /** A line either ends with a newline, or it is the last one and reaches to the end of the file. */
  lemma FirstLine(content: string, from: nat)
    requires AtLineStart(content, from) && from < |content|
    ensures var next, first := NextFrom(content, from), LineAt(content, from);
            || (AtLineStart(content, next) && (first == [] || first[0].terminated))
            || (next == |content| && first == [Line(content[from..], from, false)] && '\n' !in content[from..])
  {
    var e := NewlineFrom(content, from);
    assert content[from..|content|] == content[from..];
    if e == |content| {
      forall k | from <= k < |content|
        ensures content[from..][k - from] == content[k] && content[k] != '\n'
      {
      }
    }
  }

  lemma {:induction false} UnterminatedIsLast(content: string, from: nat, i: nat)
    requires AtLineStart(content, from) && i < |LinesFrom(content, from)|
    ensures i < |LinesFrom(content, from)| - 1 ==> LinesFrom(content, from)[i].terminated
    decreases |content| - from
  {
    hide LinesFrom, NewlineFrom, NextFrom, LineAt;
    NoLines(content);
    LinesUnfold(content, from);
    LineAtFacts(content, from);
    FirstLine(content, from);
    var next, first := NextFrom(content, from), |LineAt(content, from)|;
    if i >= first {
      UnterminatedIsLast(content, next, i - first);
    }
  }

  /** A file whose last line is terminated ends between lines; otherwise its last line reaches to its end. */
  lemma {:induction false} EndOfFile(content: string, from: nat)
    requires AtLineStart(content, from)
    ensures var lines := LinesFrom(content, from);
            && ((lines == [] || lines[|lines| - 1].terminated) ==> AtLineStart(content, |content|))
            && (lines != [] && !lines[|lines| - 1].terminated ==>
                  var last := lines[|lines| - 1];
                  && last.start < |content| && last.text == content[last.start..] && '\n' !in last.text
                  && AtLineStart(content, last.start))
    decreases |content| - from
  {
    hide LinesFrom, NewlineFrom, NextFrom, LineAt;
    NoLines(content);
    if from < |content| {
      LinesUnfold(content, from);
      LineAtFacts(content, from);
      FirstLine(content, from);
      var next := NextFrom(content, from);
      if AtLineStart(content, next) {
        EndOfFile(content, next);
      }
    }
  }

  /** The file before its last line holds the other lines. */
  lemma BeforeLast(content: string) returns (before: string, last: Line)
    requires LinesFrom(content, 0) != []
    ensures LinesFrom(content, 0) == LinesFrom(before, 0) + [last]
    ensures last.start <= |content| && before == content[..last.start] && AtLineStart(before, |before|)
    ensures !last.terminated ==> before + last.text == content && last.text != [] && '\n' !in last.text
    ensures LinesFrom(before, 0) != [] ==> LinesFrom(before, 0)[|LinesFrom(before, 0)| - 1].terminated
  {
    hide LinesFrom;
    var lines := LinesFrom(content, 0);
    last := lines[|lines| - 1];
    LineStarts(content, 0, |lines| - 1);
    before := content[..last.start];
    LinesSplit(content, 0, last.start);
    assert lines[|lines| - 1..] == [last];
    assert lines == LinesFrom(before, 0) + [last];
    EndOfFile(content, 0);
    if |lines| > 1 {
      UnterminatedIsLast(content, 0, |lines| - 2);
      assert LinesFrom(before, 0)[|lines| - 2] == lines[|lines| - 2];
    }
  }

  /** Whatever file loads, loading leaves it whole: it ends between lines and holds exactly the loaded records. */
  lemma RepairLeavesWhole<R>(content: string, decode: string -> Option<R>)
    requires Loaded(content, decode).Ok?
    ensures Whole(Repaired(content, decode), decode, Loaded(content, decode).value)
  {
    hide LinesFrom, DecodedPrefix, Repaired;
    var lines := LinesFrom(content, 0);
    if lines == [] {
      EmptyFileIsWhole(content, decode);
    } else {
      var before, last := BeforeLast(content);
      DecodedInTurn(LinesFrom(before, 0), [last], decode);
      DecodedOne(last, decode);
      var records := DecodedPrefix(LinesFrom(before, 0), decode);
      assert Whole(before, decode, records);
      if decode(last.text).None? {
        assert records + [] == records;
        assert lines[|records|] == last;
        BadEnd(content, decode, records);
      } else if last.terminated {
        TerminatedEnd(content, decode, records + [decode(last.text).value]);
      } else {
        assert lines[|records|] == last;
        OpenEnd(content, decode, records + [decode(last.text).value]);
        AppendKeepsWhole(before, decode, records, last.text, decode(last.text).value);
      }
    }
  }

  lemma EmptyFileIsWhole<R>(content: string, decode: string -> Option<R>)
    requires LinesFrom(content, 0) == []
    ensures Repaired(content, decode) == content && Loaded(content, decode) == Ok([]) && Whole(content, decode, [])
  {
    EndOfFile(content, 0);
  }

  lemma TerminatedEnd<R>(content: string, decode: string -> Option<R>, records: seq<R>)
    requires var lines := LinesFrom(content, 0);
             DecodedPrefix(lines, decode) == records && |lines| == |records| > 0 && lines[|lines| - 1].terminated
    ensures Repaired(content, decode) == content && Whole(content, decode, records)
  {
    EndOfFile(content, 0);
  }

  /** Repairing twice changes nothing more, and records appended afterwards load behind the old ones. */
  lemma RepairIsStableAndAppendable<R(!new)>(content: string, write: R -> string, decode: string -> Option<R>, r: R)
    requires Codec(write, decode) && Loaded(content, decode).Ok?
    ensures var repaired, records := Repaired(content, decode), Loaded(content, decode).value;
            && Loaded(repaired, decode) == Ok(records) && Repaired(repaired, decode) == repaired
            && Loaded(repaired + write(r) + NEWLINE, decode) == Ok(records + [r])
  {
    hide Whole, Loaded, Repaired, Closed;
    var repaired, records := Repaired(content, decode), Loaded(content, decode).value;
    RepairLeavesWhole(content, decode);
    WholeLoads(repaired, decode, records);
    assert Framed(write(r));
    AppendKeepsWhole(repaired, decode, records, write(r), r);
    WholeLoads(repaired + write(r) + NEWLINE, decode, records + [r]);
  }

  // ----- the records the store writes -----

  datatype Record = Record(sequence: nat, kind: string, writtenAt: int, payload: Json, checksum: string)

  function WriteRecord(r: Record): string {
    RecordLine(r.sequence, r.kind, r.writtenAt, r.payload, r.checksum)
  }

  /** For the JSON serializer only the parser has to be trusted: the framing follows from the escaping. */
  lemma WrittenRecordsAreFramed(decode: string -> Option<Record>)
    requires (forall r :: decode(WriteRecord(r)) == Some(r)) && forall s :: decode(s).Some? ==> Closed(s)
    ensures Codec(WriteRecord, decode)
  {
    hide Framed, Closed, RecordLine;
    forall r: Record
      ensures Framed(WriteRecord(r)) && decode(WriteRecord(r)) == Some(r)
    {
      RecordsAreFramed(r.sequence, r.kind, r.writtenAt, r.payload, r.checksum);
    }
  }
}
