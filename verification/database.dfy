/** How query results are shaped into rows: `execute_query` in
    src/text_to_sql.py and demo_meaningless_names_enhanced.py, and
    `DatabaseUtils.get_sample_data` in src/database_utils.py. The database
    itself is not modelled: what SQLite did with the statement is the
    outcome handed in. */
module Database {
  import opened Options
  import opened PyRepr

  /** What running a statement gave: the fetched rows, or the text of the
      exception it raised. */
  datatype ExecOutcome = Rows(rows: seq<Row>) | Failed(message: string)

  /** The one-column row a failure is reported as: `{"error": str(e)}`. */
  function ErrorRow(message: string): Row {
    [("error", Text(message))]
  }

  /** `[dict(row) for row in cursor.fetchall()]`, or `[{"error": str(e)}]`
      when the statement raised. */
  function ResultRows(o: ExecOutcome): seq<Row> {
    match o
    case Rows(rows) => rows
    case Failed(message) => [ErrorRow(message)]
  }

  /** `key in row` for a `dict` row. */
  predicate HasKey(row: Row, key: string) {
    exists i | 0 <= i < |row| :: row[i].0 == key
  }

  /** How a caller can tell a failure from the rows alone: a single row
      whose only column is `error`, holding the message. */
  function ReadError(rs: seq<Row>): Option<string> {
    if |rs| == 1 && |rs[0]| == 1 && rs[0][0].0 == "error" && rs[0][0].1.Text? then
      Some(rs[0][0].1.s)
    else None
  }

  /** A failure always reads back as its message, and a successful result
      reads as one only when it has that very shape. */
  lemma {:induction false} FailureReadsBack(o: ExecOutcome)
    ensures o.Failed? ==> ReadError(ResultRows(o)) == Some(o.message)
    ensures o.Rows? ==> (ReadError(ResultRows(o)).Some? <==> ReadError(o.rows).Some?)
  {
  }

  /** The error row carries the `error` key. */
  lemma {:induction false} ErrorRowHasKey(message: string)
    ensures HasKey(ErrorRow(message), "error")
  {
    assert ErrorRow(message)[0].0 == "error";
  }

  /** The report of a failure is the result of a query that succeeded: a
      query selecting one text column named `error` gives the very rows a
      failing one does. */
  lemma {:induction false} FailureIndistinguishable(message: string)
    ensures ResultRows(Rows([ErrorRow(message)])) == ResultRows(Failed(message))
    ensures Rows([ErrorRow(message)]) != Failed(message)
  {
  }
}
