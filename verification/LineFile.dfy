/** Files with one JSON record a line, as `load` sees them after splitting and parsing. */
module LineFile {
  import opened JsonString

  datatype Line<T> = Blank | Unreadable(text: Text) | Stored(record: T)

  /** The lines `persist` writes. */
  function Encode<T>(records: seq<T>): (lines: seq<Line<T>>)
    ensures |lines| == |records| && forall i | 0 <= i < |lines| :: lines[i] == Stored(records[i])
  {
    seq(|records|, i requires 0 <= i < |records| => Stored(records[i]))
  }
}
