/**
 How the outcome of a cancel or amend is stored as one string on the order, and read back when
 the same request is retried.
 */
module Outcomes {
  import opened Wrappers

  /** What the venue answered, as the gateway first returned it. */
  datatype Answer = Accepted | Failed(code: string, message: string) | Uncertain(code: string, message: string)

  /** The caller-visible part of a response. */
  datatype Response = Response(ok: bool, code: string, message: string)

  const SEPARATOR := '\U{1F}'
  const OK_MARK := "OK"
  const ERROR_MARK := "ERROR"
  const PENDING_MARK := "PENDING"

  function Encode(answer: Answer): string {
    match answer
    case Accepted => OK_MARK
    case Failed(code, message) => Pack(ERROR_MARK, code, message)
    case Uncertain(code, message) => Pack(PENDING_MARK, code, message)
  }

  function Pack(mark: string, code: string, message: string): string {
    mark + [SEPARATOR] + code + [SEPARATOR] + message
  }

  function FirstResponse(answer: Answer): Response {
    match answer
    case Accepted => Response(true, "", "")
    case Failed(code, message) => Response(false, code, message)
    case Uncertain(code, message) => Response(false, code, message)
  }

  /** Position of the first separator at or after `from`, or the length. */
  function SeparatorFrom(s: string, from: nat): (r: nat)
    requires from <= |s|
    ensures from <= r <= |s| && (r < |s| ==> s[r] == SEPARATOR)
    ensures forall k :: from <= k < r ==> s[k] != SEPARATOR
    decreases |s| - from
  {
    if from == |s| || s[from] == SEPARATOR then from else SeparatorFrom(s, from + 1)
  }

  /** Splits at the first two separators; a missing one yields the given default. */
  function Unpack(outcome: string, defaultCode: string, defaultMessage: string): Response {
    var first := SeparatorFrom(outcome, 0);
    if first == |outcome| then Response(false, defaultCode, defaultMessage)
    else
      var second := SeparatorFrom(outcome, first + 1);
      Response(false, outcome[first + 1..second],
               if second == |outcome| then defaultMessage else outcome[second + 1..])
  }

  function Replay(outcome: string): Response {
    if outcome == OK_MARK then Response(true, "", "")
    else if PENDING_MARK <= outcome then
      Unpack(outcome, "OUTCOME_UNKNOWN", "the original operation requires reconciliation")
    else if ERROR_MARK <= outcome then
      Unpack(outcome, "PREVIOUS_REQUEST_FAILED", "the original operation failed")
    else Response(true, "", "")
  }

  /** The stored text of an operation that has not answered yet. */
  predicate Completed(outcome: string) {
    outcome != PENDING_MARK
  }

  lemma FirstSeparator(s: string, from: nat, at: nat)
    requires from <= at < |s| && s[at] == SEPARATOR
    requires forall k :: from <= k < at ==> s[k] != SEPARATOR
    ensures SeparatorFrom(s, from) == at
  {
  }

  lemma PackLayout(mark: string, code: string, message: string)
    requires SEPARATOR !in mark
    ensures var s, end := Pack(mark, code, message), |mark| + 1 + |code|;
            && SeparatorFrom(s, 0) == |mark|
            && end < |s| && s[end] == SEPARATOR && s[|mark| + 1..end] == code && s[end + 1..] == message
            && forall k :: 0 <= k < |code| ==> s[|mark| + 1 + k] == code[k]
  {
    var s := Pack(mark, code, message);
    assert s[|mark|] == SEPARATOR;
    assert forall k :: 0 <= k < |mark| ==> s[k] == mark[k];
    FirstSeparator(s, 0, |mark|);
  }

  /** Unpacking gives back code and message exactly when the code holds no separator. */
  lemma UnpackExactly(mark: string, code: string, message: string, defaultCode: string, defaultMessage: string)
    requires SEPARATOR !in mark
    ensures Unpack(Pack(mark, code, message), defaultCode, defaultMessage) == Response(false, code, message)
            <==> SEPARATOR !in code
  {
    hide Pack, SeparatorFrom;
    PackLayout(mark, code, message);
    var s, end := Pack(mark, code, message), |mark| + 1 + |code|;
    var second := SeparatorFrom(s, |mark| + 1);
    if SEPARATOR in code {
      var k :| 0 <= k < |code| && code[k] == SEPARATOR;
      assert s[|mark| + 1 + k] == SEPARATOR;
      assert second <= |mark| + 1 + k;
      assert |s[|mark| + 1..second]| < |code|;
    } else {
      FirstSeparator(s, |mark| + 1, end);
    }
  }

  /** An answer's code, where it has one. */
  function CodeOf(answer: Answer): string {
    if answer.Accepted? then "" else answer.code
  }

  lemma PackStarts(mark: string, code: string, message: string)
    ensures mark <= Pack(mark, code, message) && mark != Pack(mark, code, message)
  {
    assert Pack(mark, code, message)[..|mark|] == mark;
  }

  /** A retry decodes to the original ok flag, code and message, for exactly the separator-free codes. */
  lemma ReplayIsFaithfulExactly(answer: Answer)
    ensures Completed(Encode(answer))
    ensures Replay(Encode(answer)) == FirstResponse(answer) <==> SEPARATOR !in CodeOf(answer)
  {
    match answer
    case Accepted =>
    case Failed(code, message) =>
      assert Encode(answer)[0] == 'E';
      PackStarts(ERROR_MARK, code, message);
      UnpackExactly(ERROR_MARK, code, message, "PREVIOUS_REQUEST_FAILED", "the original operation failed");
    case Uncertain(code, message) =>
      assert Encode(answer)[0] == 'P';
      PackStarts(PENDING_MARK, code, message);
      UnpackExactly(PENDING_MARK, code, message, "OUTCOME_UNKNOWN", "the original operation requires reconciliation");
  }

  /** A code with a separator is read back only up to it; the rest of the code lands in the message. */
  lemma SeparatorCodeIsCut(head: string, tail: string, message: string)
    requires SEPARATOR !in head
    ensures Replay(Encode(Failed(head + [SEPARATOR] + tail, message)))
            == Response(false, head, tail + [SEPARATOR] + message)
  {
    hide Pack, SeparatorFrom;
    var code, rest := head + [SEPARATOR] + tail, tail + [SEPARATOR] + message;
    assert Pack(ERROR_MARK, code, message) == Pack(ERROR_MARK, head, rest) by { SamePacked(head, tail, message); }
    PackStarts(ERROR_MARK, head, rest);
    assert Encode(Failed(code, message))[0] == 'E';
    UnpackExactly(ERROR_MARK, head, rest, "PREVIOUS_REQUEST_FAILED", "the original operation failed");
  }

  lemma SamePacked(head: string, tail: string, message: string)
    ensures Pack(ERROR_MARK, head + [SEPARATOR] + tail, message) == Pack(ERROR_MARK, head, tail + [SEPARATOR] + message)
  {
  }

  /** One failed answer that is retried: the first caller saw code "A<separator>B" and the second sees code "A". */
  lemma ReplayCanDiffer()
    ensures var answer := Failed("A" + [SEPARATOR] + "B", "m");
            && FirstResponse(answer) == Response(false, "A" + [SEPARATOR] + "B", "m")
            && Replay(Encode(answer)) == Response(false, "A", "B" + [SEPARATOR] + "m")
  {
    hide Replay, Encode;
    SeparatorCodeIsCut("A", "B", "m");
  }
}
