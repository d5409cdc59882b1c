/**
 * The spreadsheet sheets as the program sees them once pandas has read them:
 * an ordered list of column labels and an ordered list of rows, one cell per
 * column. A cell is either a value already turned into text or the missing
 * marker pandas reads from an empty spreadsheet cell.
 */
module Tables {

  datatype Cell = Null | Text(s: string)

  type Row = seq<Cell>

  datatype Table = Table(columns: seq<string>, rows: seq<Row>)

  /** The column labels the program looks cells up by. */
  const PromptIdColumn: string := "prompt_id"
  const NameColumn: string := "Name"
  const VersionColumn: string := "Version"

  /** Every row has exactly one cell per column, as in a DataFrame. */
  predicate WellFormed(t: Table)
  {
    forall r | 0 <= r < |t.rows| :: |t.rows[r]| == |t.columns|
  }

  /** Python's `str(cell)`; a missing cell is NaN, whose text is "nan". */
  function Str(c: Cell): string
  {
    match c
    case Null => "nan"
    case Text(s) => s
  }

  /** The position of the first column labelled `name` (how `row[name]` finds its cell). */
  function ColumnIndex(columns: seq<string>, name: string): (k: nat)
    requires name in columns
    ensures k < |columns| && columns[k] == name
    ensures name !in columns[..k]
  {
    if columns[0] == name then 0
    else
      var k := 1 + ColumnIndex(columns[1..], name);
      assert columns[..k] == [columns[0]] + columns[1..][..k - 1];
      k
  }

  /** `DataFrame.empty`: no rows or no columns. */
  predicate Empty(t: Table)
  {
    |t.rows| == 0 || |t.columns| == 0
  }

  /** `DataFrame.isnull().any().any()`: some cell is missing. */
  predicate HasNull(t: Table)
  {
    exists r, c | 0 <= r < |t.rows| && 0 <= c < |t.rows[r]| :: t.rows[r][c].Null?
  }
}
