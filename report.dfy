/** The report model: verdicts, rows and the two append-only audit tables. */
module Report {

  /** The status column of a row. `NotFound` is only used for a missing
      `interface Vlan1`. */
  datatype Verdict = Pass | Fail | Warn | Recommended | NotInUse | NotFound

  datatype Row = Row(audit: string, status: Verdict)

  /** A titled table whose rows are only ever appended. */
  datatype Table = Table(title: string, rows: seq<Row>) {

    /** `add_row`: the new row goes last and every earlier row is kept. */
    function AddRow(row: Row): (t: Table)
      ensures t.title == title
      ensures |t.rows| == |rows| + 1 && t.rows[|rows|] == row
      ensures t.rows[..|rows|] == rows
    {
      Table(title, rows + [row])
    }

    /** Several `add_row` calls in a row. */
    function AddRows(more: seq<Row>): (t: Table)
      ensures t.title == title
      ensures |t.rows| == |rows| + |more|
      ensures t.rows[..|rows|] == rows && t.rows[|rows|..] == more
    {
      Table(title, rows + more)
    }

    lemma AddNoRows()
      ensures AddRows([]) == this
    {
      assert rows + [] == rows;
    }

    lemma AddRowsThenRow(more: seq<Row>, row: Row)
      ensures AddRows(more).AddRow(row) == AddRows(more + [row])
    {
      assert rows + more + [row] == rows + (more + [row]);
    }

    lemma AddRowsThenRows(more: seq<Row>, after: seq<Row>)
      ensures AddRows(more).AddRows(after) == AddRows(more + after)
    {
      assert rows + more + after == rows + (more + after);
    }
  }
}
