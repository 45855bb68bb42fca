/**
 * The complaint table as the pipeline sees it: a pandas DataFrame whose
 * columns may or may not be present, whose cells may be missing, and which
 * the pipeline's stages update in place.
 */
module Frames {
  import opened Wrappers
  import opened Grouping

  /** The columns the aggregation layer reads or writes. */
  datatype Column =
    | OdiNumber | Summary | FailureDate | State | Vin | Severity
    | Cluster | Umap1 | Umap2 | YearMonth

  /**
   * A `FailureDate` cell, already parsed: `day` is the day ordinal of the
   * timestamp and `month` the ordinal of its calendar month (the
   * `Period('M').ordinal` pandas gives it).  `Unparsable` is text that
   * `pd.to_datetime` rejects; `Missing` is NaT.
   */
  datatype DateCell = Missing | Unparsable | Parsed(day: int, month: int)

  /**
   * One complaint.  A field belongs to the table only when its column is in
   * the table's `columns`; `cluster`, `umap1` and `umap2` are written by the
   * clustering stage.
   */
  datatype Record = Record(
    odiNumber: Option<int>,
    summary: string,
    failureDate: DateCell,
    state: Option<string>,
    vin: Option<string>,
    severity: Option<int>,
    cluster: int,
    umap1: real,
    umap2: real)

  datatype Table = Table(columns: set<Column>, rows: seq<Record>)

  /** The exceptions the aggregation layer can raise. */
  datatype Error =
    | MissingColumn(column: Column)  // KeyError on df[column]
    | UnparsableDate                 // pd.to_datetime without errors='coerce'
    | LengthMismatch                 // assigning a column of the wrong length
    | DivisionByZero                 // Python int / 0

  /** `df.empty`: no rows or no columns. */
  predicate IsEmpty(t: Table) {
    |t.rows| == 0 || t.columns == {}
  }

  /** The DataFrame object itself, which the stages mutate. */
  class Frame {
    var table: Table

    constructor (t: Table)
      ensures table == t
    {
      table := t;
    }
  }

  function ClusterOf(r: Record): int { r.cluster }
  function SummaryOf(r: Record): string { r.summary }
  function StateOf(r: Record): Option<string> { r.state }
  function VinOf(r: Record): Option<string> { r.vin }

  /** The day of a valid failure date; NaT and unparsable text have none. */
  function DayOf(r: Record): Option<int> {
    if r.failureDate.Parsed? then Some(r.failureDate.day) else None
  }

  /** The `YearMonth` period of a record; NaT has none. */
  function MonthOf(r: Record): Option<int> {
    if r.failureDate.Parsed? then Some(r.failureDate.month) else None
  }

  /** The `Cluster` column. */
  function Labels(rows: seq<Record>): seq<int> {
    Keys(rows, ClusterOf)
  }

  /** The rows of one cluster, in table order. */
  function ClusterRows(rows: seq<Record>, c: int): seq<Record> {
    Members(rows, ClusterOf, c)
  }

  /** `df['FailureDate'] = pd.to_datetime(df['FailureDate'], errors='coerce')`. */
  function CoerceDates(rows: seq<Record>): (out: seq<Record>)
    ensures |out| == |rows|
    ensures forall i :: 0 <= i < |rows| ==>
      out[i] == rows[i].(failureDate := if rows[i].failureDate.Unparsable? then Missing else rows[i].failureDate)
    ensures forall i :: 0 <= i < |rows| ==> !out[i].failureDate.Unparsable? && DayOf(out[i]) == DayOf(rows[i])
  {
    seq(|rows|, i requires 0 <= i < |rows| =>
      rows[i].(failureDate := if rows[i].failureDate.Unparsable? then Missing else rows[i].failureDate))
  }

  /** The distinct cluster labels always cover every row of the table. */
  lemma LabelsCoverRows(rows: seq<Record>)
    ensures forall r :: r in rows ==> ClusterOf(r) in Distinct(Labels(rows))
  {
  }
}
