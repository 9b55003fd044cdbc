/**
 * The pure part of `fetch_cdx_data` in Code/main.py: the archive index
 * (CDX) answer for `{domain}/robots.txt` is a JSON array of rows whose first
 * row is a header; column 1 of every later row is a capture timestamp, and
 * only timestamps with `start <= ts <= end` (string comparison) are kept.
 * Every failure (transport error, non-200 status, a body that is not an
 * array of rows, a row too short to have column 1) yields the empty list.
 */
module Cdx {
  import opened Wrappers
  import opened Text
  import opened Seqs

  /**
   * What the index request produced: a transport exception, or an HTTP
   * status with the body read as JSON rows (`None` when it is not a JSON
   * array of arrays of strings).
   */
  datatype CdxReply = TransportError | Reply(status: int, json: Option<seq<seq<string>>>)

  predicate InWindow(ts: string, start: string, end: string) {
    LexLe(start, ts) && LexLe(ts, end)
  }

  /** The window test as a function value, for `Filter`. */
  function WindowTest(start: string, end: string): string -> bool {
    ts => InWindow(ts, start, end)
  }

  /**
   * `[entry[1] for entry in rows]`, or `None` when some row has no column 1
   * (Python raises IndexError while building the list).
   */
  function TimestampColumn(rows: seq<seq<string>>): (col: Option<seq<string>>)
    ensures col.Some? <==> forall i :: 0 <= i < |rows| ==> |rows[i]| >= 2
    ensures col.Some? ==> |col.value| == |rows| && forall i :: 0 <= i < |rows| ==> col.value[i] == rows[i][1]
  {
    if rows == [] then Some([])
    else
      var last := rows[|rows| - 1];
      match TimestampColumn(rows[..|rows| - 1])
      case None => None
      case Some(col) => if |last| < 2 then None else Some(col + [last[1]])
  }

  /** `data[1:]`: every row after the header (nothing when there is no row). */
  function DataRows(data: seq<seq<string>>): (rows: seq<seq<string>>)
    ensures |rows| == if data == [] then 0 else |data| - 1
    ensures forall i :: 0 <= i < |rows| ==> rows[i] == data[i + 1]
  {
    if data == [] then [] else data[1..]
  }

  /** `fetch_cdx_data` once the request has produced `reply`. */
  function FetchCdxData(reply: CdxReply, start: string, end: string): (timestamps: seq<string>)
    ensures forall ts :: ts in timestamps ==> InWindow(ts, start, end)
    ensures reply.TransportError? ==> timestamps == []
    ensures reply.Reply? && reply.status != 200 ==> timestamps == []
    ensures reply.Reply? && reply.json.None? ==> timestamps == []
  {
    match reply
    case TransportError => []
    case Reply(status, json) =>
      if status != 200 then []
      else
        match json
        case None => []
        case Some(data) =>
          match TimestampColumn(DataRows(data))
          case None => []
          case Some(col) => Filter(WindowTest(start, end), col)
  }

  /** A data row without column 1 makes the whole answer empty rather than an error. */
  lemma ShortRowFailsSoft(data: seq<seq<string>>, i: int, start: string, end: string)
    requires 1 <= i < |data| && |data[i]| < 2
    ensures FetchCdxData(Reply(200, Some(data)), start, end) == []
  {
    assert DataRows(data)[i - 1] == data[i];
  }

  /** The header row never contributes: replacing it changes nothing. */
  lemma HeaderIgnored(h1: seq<string>, h2: seq<string>, rows: seq<seq<string>>, start: string, end: string)
    ensures FetchCdxData(Reply(200, Some([h1] + rows)), start, end) == FetchCdxData(Reply(200, Some([h2] + rows)), start, end)
  {
    assert DataRows([h1] + rows) == rows;
    assert DataRows([h2] + rows) == rows;
  }

  /** The column-1 values of the data rows of a well-formed answer. */
  lemma WellFormedColumn(data: seq<seq<string>>)
    requires data != []
    requires forall i :: 1 <= i < |data| ==> |data[i]| >= 2
    ensures TimestampColumn(DataRows(data)) == Some(seq(|data| - 1, i requires 0 <= i < |data| - 1 => data[i + 1][1]))
  {
    var rows := DataRows(data);
    forall i | 0 <= i < |rows| ensures |rows[i]| >= 2 {
      assert rows[i] == data[i + 1];
    }
    assert TimestampColumn(rows).value == seq(|data| - 1, i requires 0 <= i < |data| - 1 => data[i + 1][1]);
  }

  /**
   * For a well-formed answer the result is the order-preserving subsequence
   * of the column-1 values of the data rows that fall in the window: entry
   * `k` is the timestamp of the `k`-th data row in the window, and every
   * data row in the window contributes.
   */
  lemma WindowSubsequence(data: seq<seq<string>>, start: string, end: string)
    requires data != []
    requires forall i :: 1 <= i < |data| ==> |data[i]| >= 2
    ensures var col := seq(|data| - 1, i requires 0 <= i < |data| - 1 => data[i + 1][1]);
      var pos := Positions(WindowTest(start, end), col);
      var r := FetchCdxData(Reply(200, Some(data)), start, end);
      |r| == |pos| && StrictlyIncreasing(pos) &&
      (forall i :: 0 <= i < |col| ==> (i in pos <==> InWindow(col[i], start, end))) &&
      (forall k :: 0 <= k < |r| ==> pos[k] < |col| && r[k] == col[pos[k]])
  {
    var col := seq(|data| - 1, i requires 0 <= i < |data| - 1 => data[i + 1][1]);
    WellFormedColumn(data);
    assert FetchCdxData(Reply(200, Some(data)), start, end) == Filter(WindowTest(start, end), col);
    PositionsExact(WindowTest(start, end), col);
    FilterAtPositions(WindowTest(start, end), col);
  }
}
