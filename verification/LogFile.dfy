/** A log file as its reader sees it, with the one thing about its end that matters to the next append. */
module LogFile {
  // The file ends at a line start; or with a record that a reader accepts but whose newline is missing;
  // or with some other unfinished line.
  datatype End = LineStart | Unended | Torn

  // `log` is what a reader sees.
  datatype File<T> = File(log: seq<T>, end: End)

  /** What stays readable when something else is written behind the end. */
  function Base<T>(f: File<T>): (log: seq<T>)
    ensures log <= f.log
  {
    if f.end.Unended? && f.log != [] then f.log[..|f.log| - 1] else f.log
  }

  /** A whole record is written: on a line of its own, or lost together with the unfinished line. */
  function Appended<T>(f: File<T>, e: T): File<T> {
    File(Base(f) + (if f.end.LineStart? then [e] else []), LineStart)
  }

  /** A record is cut short, after all of its text (`whole`) or a part of it, but before its newline. */
  function CutShort<T>(f: File<T>, e: T, whole: bool): File<T> {
    if whole && f.end.LineStart? then File(f.log + [e], Unended) else File(Base(f), Torn)
  }
}
