/**
 How a journal file ends after appends of which some broke off half-way. A broken append throws, but
 what it wrote stays in the file, and the next record goes onto the same line.
 */
module JournalEnds {
  import opened Wrappers

  /** How much of a record and its newline one append wrote. */
  datatype Extent = Nothing | Part | AllButNewline | Everything

  datatype End<R> =
    | Clean                  // behind a newline, and every line is a record
    | Torn                   // in text that no longer becomes a record
    | Unfinished(record: R)  // behind a record that lacks only its newline
    | Joined(record: R)      // behind a line that no reader accepts and that this record was appended to
    | Blocked                // such a line has others behind it

  function EndAfter<R>(end: End<R>, r: R, extent: Extent): End<R> {
    if extent.Nothing? then end
    else if end.Joined? || end.Blocked? then Blocked
    else if extent.Everything? then (if end.Clean? then Clean else Joined(r))
    else if extent.AllButNewline? && end.Clean? then Unfinished(r)
    else Torn
  }

  /** The records on lines of their own, in front of what broke off, and the end. */
  datatype File<R> = File(lines: seq<R>, end: End<R>)

  function Written<R>(f: File<R>, r: R, extent: Extent): File<R> {
    File(if extent.Everything? && f.end.Clean? then f.lines + [r] else f.lines, EndAfter(f.end, r, extent))
  }

  /** What a restart loads: text that is no record is cut off at the end of the file and refused anywhere else. */
  function Reloaded<R>(f: File<R>): Option<seq<R>> {
    match f.end
    case Unfinished(r) => Some(f.lines + [r])
    case Blocked => None
    case _ => Some(f.lines)
  }
}
