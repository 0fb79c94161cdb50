/** The table a loaded file becomes: the first parsed row is the header
    row, and every data row is padded with "" or truncated to the header
    count, so that every later column lookup is in range. */
module Tables {
  import opened Wrappers

  datatype Table = Table(headers: seq<string>, rows: seq<seq<string>>, fileName: string)

  /** Every row has exactly one cell per header. */
  predicate WellFormed(t: Table) {
    forall i :: 0 <= i < |t.rows| ==> |t.rows[i]| == |t.headers|
  }

  function Blanks(n: nat): (r: seq<string>)
    ensures |r| == n
    ensures forall k :: 0 <= k < n ==> r[k] == ""
  {
    if n == 0 then [] else Blanks(n - 1) + [""]
  }

  /** `while (row.length < headerCount) row.push(""); row.slice(0, headerCount)` */
  function NormalizeRow(row: seq<string>, headerCount: nat): (r: seq<string>)
    ensures |r| == headerCount
    ensures forall k :: 0 <= k < headerCount ==> r[k] == (if k < |row| then row[k] else "")
  {
    var padded := if |row| < headerCount then row + Blanks(headerCount - |row|) else row;
    padded[..headerCount]
  }

  /** A row that already has the header count is left as it is. */
  lemma NormalizeRowOfFullWidth(row: seq<string>, headerCount: nat)
    requires |row| == headerCount
    ensures NormalizeRow(row, headerCount) == row
  {
  }

  /** Normalising twice is normalising once. */
  lemma NormalizeRowIdempotent(row: seq<string>, headerCount: nat)
    ensures NormalizeRow(NormalizeRow(row, headerCount), headerCount) == NormalizeRow(row, headerCount)
  {
    NormalizeRowOfFullWidth(NormalizeRow(row, headerCount), headerCount);
  }

  /** The load step shared by the CSV and the spreadsheet path: nothing is
      loaded from an empty decode; otherwise the first row is the header
      row and every later row is normalised to its width. */
  function Load(raw: seq<seq<string>>, fileName: string): (r: Option<Table>)
    ensures r.None? <==> |raw| == 0
    ensures r.Some? ==> WellFormed(r.value)
    ensures r.Some? ==> r.value.headers == raw[0] && r.value.fileName == fileName
    ensures r.Some? ==> |r.value.rows| == |raw| - 1
    ensures r.Some? ==> forall i, k :: 0 <= i < |r.value.rows| && 0 <= k < |raw[0]| ==>
      r.value.rows[i][k] == (if k < |raw[i + 1]| then raw[i + 1][k] else "")
  {
    if |raw| == 0 then None
    else
      var headerCount := |raw[0]|;
      Some(Table(raw[0], seq(|raw| - 1, i requires 0 <= i < |raw| - 1 => NormalizeRow(raw[i + 1], headerCount)), fileName))
  }

  /** Loading rows that already have the header width keeps them verbatim. */
  lemma LoadOfRectangular(raw: seq<seq<string>>, fileName: string)
    requires |raw| > 0
    requires forall i :: 0 <= i < |raw| ==> |raw[i]| == |raw[0]|
    ensures Load(raw, fileName) == Some(Table(raw[0], raw[1..], fileName))
  {
    var t := Load(raw, fileName).value;
    forall i | 0 <= i < |t.rows|
      ensures t.rows[i] == raw[1..][i]
    {
      NormalizeRowOfFullWidth(raw[i + 1], |raw[0]|);
    }
    assert t.rows == raw[1..];
  }
}
