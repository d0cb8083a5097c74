/** `DatabaseUtils.format_schema_for_llm` (src/database_utils.py): the
    records of `get_table_info` drawn as table blocks whose column lines
    list the constraints that hold, followed by up to three sample rows
    when fetching them worked. */
module LlmFormat {
  import opened Options
  import opened Text
  import opened PyRepr
  import opened Schema
  import opened Render
  import opened Database

  const SampleTitle := "Sample data (first 3 rows):"

  /** The `constraints` list: only the constraints that hold, in this order. */
  function Constraints(nullable: bool, primaryKey: bool): seq<string> {
    (if !nullable then ["NOT NULL"] else []) + (if primaryKey then ["PRIMARY KEY"] else [])
  }

  /** `" ".join(constraints) if constraints else ""`. */
  function ConstraintText(nullable: bool, primaryKey: bool): string {
    var cs := Constraints(nullable, primaryKey);
    if |cs| > 0 then Join(" ", cs) else ""
  }

  function LlmColumnText(c: ColumnInfo): string {
    c.name + " " + c.colType + " " + ConstraintText(c.nullable, c.primaryKey)
  }

  function LlmColumnTexts(cs: seq<ColumnInfo>): (ts: seq<string>)
    ensures |ts| == |cs|
    ensures forall j | 0 <= j < |cs| :: ts[j] == LlmColumnText(cs[j])
  {
    seq(|cs|, j requires 0 <= j < |cs| => LlmColumnText(cs[j]))
  }

  function InfoForeignKeyTexts(fks: seq<ForeignKeyInfo>): (ts: seq<string>)
    ensures |ts| == |fks|
    ensures forall j | 0 <= j < |fks| ::
      ts[j] == ForeignKeyText(fks[j].constrained, fks[j].referredTable, fks[j].referred)
  {
    seq(|fks|, j requires 0 <= j < |fks| =>
      ForeignKeyText(fks[j].constrained, fks[j].referredTable, fks[j].referred))
  }

  /** `sample_data and not any("error" in row for row in sample_data)`. */
  predicate ShowSamples(rows: seq<Row>) {
    |rows| > 0 && forall r | r in rows :: !HasKey(r, "error")
  }

  function RowReprs(rows: seq<Row>): (ts: seq<string>)
    ensures |ts| == |rows|
    ensures forall j | 0 <= j < |rows| :: ts[j] == RowRepr(rows[j])
  {
    seq(|rows|, j requires 0 <= j < |rows| => RowRepr(rows[j]))
  }

  /** Each sample row printed with `repr` of its `dict`. */
  function SampleSection(rows: seq<Row>): seq<string> {
    if ShowSamples(rows) then Section(SampleTitle, RowReprs(rows)) else []
  }

  function LlmLines(info: TableInfo, rows: seq<Row>): seq<string> {
    BlockLines(info.name, LlmColumnTexts(info.columns),
      Section("Foreign Keys:", InfoForeignKeyTexts(info.foreignKeys)) + SampleSection(rows))
  }

  /** `format_schema_for_llm`. `samples(name)` stands for what
      `SELECT * FROM name LIMIT 3` did; its rows reach the text through
      `get_sample_data`'s shaping. */
  function FormatSchemaForLlm(ts: Snapshot, samples: string -> ExecOutcome): string {
    var infos := GetTableInfo(ts);
    Document(seq(|infos|, i requires 0 <= i < |infos| => LlmLines(infos[i], ResultRows(samples(infos[i].name)))))
  }

  // ---------------------------------------------------------------------
  // Properties

  lemma {:induction false} ConstraintWords(nullable: bool, primaryKey: bool)
    ensures Words(ConstraintText(nullable, primaryKey)) ==
            (if nullable then [] else ["NOT", "NULL"]) + KeyWords(primaryKey)
  {
    var nn, pk := "NOT NULL", "PRIMARY KEY";
    var nt, nl, p, k := "NOT", "NULL", "PRIMARY", "KEY";
    if !nullable && primaryKey {
      assert ConstraintText(nullable, primaryKey) == nt + " " + nl + " " + pk by {
        assert Constraints(nullable, primaryKey) == [nn, pk];
        assert Join(" ", [nn, pk]) == nn + " " + pk;
      }
      ColumnWords(nt, nl, pk);
      KeyMarkerWords(true);
    } else if !nullable {
      assert ConstraintText(nullable, primaryKey) == nt + " " + nl;
      WordsSpaced(nt, nl);
      WordsOfToken(nl);
    } else if primaryKey {
      assert ConstraintText(nullable, primaryKey) == PkMarker(true);
      KeyMarkerWords(true);
    }
  }

  /** Partner of `LlmColumnText`: the column line reads back, with the
      same reader as the plain renderer's, as the record's name, its type
      with single spaces between its words, its nullability and its key
      flag. */
  lemma {:induction false} LlmColumnReadable(c: ColumnInfo)
    requires Token(c.name) && ReadableType(Words(c.colType), false)
    ensures ReadColumn(LlmColumnText(c), false) ==
            Some(ColumnShape(c.name, Join(" ", Words(c.colType)), c.nullable, c.primaryKey))
  {
    SpacedWords(c.name, c.colType, ConstraintText(c.nullable, c.primaryKey));
    ConstraintWords(c.nullable, c.primaryKey);
    assert (if c.nullable then [] else ["NOT", "NULL"]) == NullWordsFor(false, c.nullable);
    ReadMarkers(Words(LlmColumnText(c)), c.name, Words(c.colType), false, c.nullable, c.primaryKey);
  }

  /** The sample section appears exactly when the gate passes: at least one
      row, and no row with an `error` column. */
  lemma {:induction false} SampleHeaderIffShown(info: TableInfo, rows: seq<Row>)
    ensures SampleTitle in LlmLines(info, rows) <==> ShowSamples(rows)
  {
    var lines := LlmLines(info, rows);
    var items := Items(LlmColumnTexts(info.columns));
    var fks := Section("Foreign Keys:", InfoForeignKeyTexts(info.foreignKeys));
    var ss := SampleSection(rows);
    assert lines == ["Table: " + info.name, "Columns:"] + items + (fks + ss);
    if ShowSamples(rows) {
      assert lines[2 + |items| + |fks|] == SampleTitle;
    } else {
      assert ss == [];
      forall l | l in lines
        ensures l != SampleTitle
      {
        if l in items {
          var i :| 0 <= i < |items| && items[i] == l;
          assert l[0] == ' ';
        } else if l in fks {
          var i :| 0 <= i < |fks| && fks[i] == l;
          assert i == 0 || l[0] == ' ';
        } else if l != "Columns:" {
          assert l == "Table: " + info.name;
          assert l[0] == 'T';
        }
      }
    }
  }

  /** A failed sample query never shows a sample section. */
  lemma {:induction false} FailedSamplesHidden(message: string)
    ensures !ShowSamples(ResultRows(Failed(message)))
  {
    ErrorRowHasKey(message);
    assert ErrorRow(message) in ResultRows(Failed(message));
  }

  // ---------------------------------------------------------------------
  // Reading the text back

  /** Python's float `repr` never spans lines; the model carries it as text,
      so this is assumed of the sample rows. */
  predicate RowsWellFormed(rows: seq<Row>) {
    forall r: Row, j | r in rows && 0 <= j < |r| :: r[j].1.Real? ==> SingleLine(r[j].1.repr)
  }

  lemma {:induction false} StrReprSingleLine(s: string)
    ensures SingleLine(StrRepr(s))
  {
    EscapeSingleLine(s, QuoteFor(s));
  }

  lemma {:induction false} ValueReprSingleLine(v: SqlValue)
    requires v.Real? ==> SingleLine(v.repr)
    ensures SingleLine(ValueRepr(v))
  {
    if v.Text? {
      StrReprSingleLine(v.s);
    }
  }

  lemma {:induction false} RowReprSingleLine(r: Row)
    requires forall j | 0 <= j < |r| :: r[j].1.Real? ==> SingleLine(r[j].1.repr)
    ensures SingleLine(RowRepr(r))
  {
    var es := EntryReprs(r);
    forall e | e in es
      ensures SingleLine(e)
    {
      var j :| 0 <= j < |r| && es[j] == e;
      StrReprSingleLine(r[j].0);
      ValueReprSingleLine(r[j].1);
    }
    JoinSingleLine(", ", es);
  }

  lemma {:induction false} SampleSectionShape(rows: seq<Row>)
    requires RowsWellFormed(rows)
    ensures AllSingleLine(SampleSection(rows)) && NotHeaders(SampleSection(rows))
  {
    if ShowSamples(rows) {
      var rs := RowReprs(rows);
      forall j | 0 <= j < |rs|
        ensures SingleLine(Item(rs[j]))
      {
        assert rows[j] in rows;
        RowReprSingleLine(rows[j]);
      }
      var title := SampleTitle;
      SectionShape(title, rs);
    }
  }

  /** The four constraint strings. */
  lemma {:induction false} ConstraintCases(nullable: bool, primaryKey: bool)
    ensures ConstraintText(nullable, primaryKey) ==
      if !nullable && primaryKey then "NOT NULL" + " " + "PRIMARY KEY"
      else if !nullable then "NOT NULL"
      else if primaryKey then "PRIMARY KEY"
      else ""
  {
    var nn, pk := "NOT NULL", "PRIMARY KEY";
    if !nullable && primaryKey {
      assert Constraints(nullable, primaryKey) == [nn, pk];
      assert Join(" ", [nn, pk]) == nn + " " + pk;
    }
  }

  lemma {:induction false} LlmColumnSingle(c: ColumnInfo)
    requires SingleLine(c.name) && SingleLine(c.colType)
    ensures SingleLine(Item(LlmColumnText(c)))
  {
    ConstraintCases(c.nullable, c.primaryKey);
  }

  lemma {:induction false} LlmLinesShape(t: Table, rows: seq<Row>)
    requires SingleLine(t.name)
    requires forall c | c in t.columns :: SingleLine(c.name) && SingleLine(c.colType)
    requires forall fk | fk in t.foreignKeys :: SingleLine(fk.referredTable)
    requires RowsWellFormed(rows)
    ensures AllSingleLine(LlmLines(TableInfoOf(t), rows))
    ensures TableNamesOf(LlmLines(TableInfoOf(t), rows)) == [t.name]
  {
    var info := TableInfoOf(t);
    var cts := LlmColumnTexts(info.columns);
    var fts := InfoForeignKeyTexts(info.foreignKeys);
    forall j | 0 <= j < |cts|
      ensures SingleLine(Item(cts[j]))
    {
      assert t.columns[j] in t.columns;
      LlmColumnSingle(info.columns[j]);
    }
    forall j | 0 <= j < |fts|
      ensures SingleLine(Item(fts[j]))
    {
      assert t.foreignKeys[j] in t.foreignKeys;
      ForeignKeyLineSingle(t.foreignKeys[j]);
    }
    var fkTitle := "Foreign Keys:";
    SectionShape(fkTitle, fts);
    var fs, ss := Section(fkTitle, fts), SampleSection(rows);
    SampleSectionShape(rows);
    assert AllSingleLine(fs + ss) && NotHeaders(fs + ss);
    BlockShape(info.name, cts, fs + ss);
  }

  /** Partner of `FormatSchemaForLlm`: the text names every table
      `get_table_info` reports, in order, whatever the sample queries did. */
  lemma {:induction false} LlmNamesRecoverable(ts: Snapshot, samples: string -> ExecOutcome)
    requires PlainWellFormed(ts)
    requires forall t | t in ts :: RowsWellFormed(ResultRows(samples(t.name)))
    ensures TableNamesOf(SplitLines(FormatSchemaForLlm(ts, samples))) == Names(ts)
  {
    var infos := GetTableInfo(ts);
    var bs := seq(|infos|, i requires 0 <= i < |infos| => LlmLines(infos[i], ResultRows(samples(infos[i].name))));
    forall i | 0 <= i < |ts|
      ensures AllSingleLine(bs[i]) && TableNamesOf(bs[i]) == [ts[i].name]
    {
      assert ts[i] in ts;
      LlmLinesShape(ts[i], ResultRows(samples(ts[i].name)));
    }
    DocumentNames(bs, Names(ts));
  }

  // ---------------------------------------------------------------------
  // The sample gate and a column named `error`

  /** As written, the gate looks for an `error` key in the rows, so a table
      with a column of that name never shows its samples although the
      query worked. */
  lemma {:induction false} ErrorColumnHidesSamples(info: TableInfo, rows: seq<Row>)
    requires |rows| > 0 && HasKey(rows[0], "error")
    ensures !ShowSamples(ResultRows(Rows(rows)))
    ensures SampleTitle !in LlmLines(info, ResultRows(Rows(rows)))
  {
    assert rows[0] in rows;
    SampleHeaderIffShown(info, rows);
  }

  /** The gate as evidently meant: samples show when the query worked and
      returned rows, whatever the columns are called. */
  function SampleSectionFixed(o: ExecOutcome): (ls: seq<string>)
    ensures |ls| > 0 <==> o.Rows? && |o.rows| > 0
    ensures |ls| > 0 ==> ls[0] == SampleTitle && |ls| == |o.rows| + 1
  {
    match o
    case Rows(rows) => Section(SampleTitle, RowReprs(rows))
    case Failed(_) => []
  }

  function LlmLinesFixed(info: TableInfo, o: ExecOutcome): seq<string> {
    BlockLines(info.name, LlmColumnTexts(info.columns),
      Section("Foreign Keys:", InfoForeignKeyTexts(info.foreignKeys)) + SampleSectionFixed(o))
  }

  function FormatSchemaForLlmFixed(ts: Snapshot, samples: string -> ExecOutcome): string {
    var infos := GetTableInfo(ts);
    Document(seq(|infos|, i requires 0 <= i < |infos| => LlmLinesFixed(infos[i], samples(infos[i].name))))
  }

  /** The corrected gate differs from the written one only on rows with an
      `error` column: elsewhere, and on every failure, they agree. */
  lemma {:induction false} FixedGateAgrees(o: ExecOutcome)
    requires o.Rows? ==> forall r | r in o.rows :: !HasKey(r, "error")
    ensures SampleSectionFixed(o) == SampleSection(ResultRows(o))
  {
    if o.Failed? {
      FailedSamplesHidden(o.message);
    }
  }

  /** With the corrected gate, samples of a table with an `error` column
      show like any other. */
  lemma {:induction false} FixedShowsErrorColumn(info: TableInfo, rows: seq<Row>)
    requires |rows| > 0
    ensures SampleTitle in LlmLinesFixed(info, Rows(rows))
  {
    var lines := LlmLinesFixed(info, Rows(rows));
    var items := Items(LlmColumnTexts(info.columns));
    var fks := Section("Foreign Keys:", InfoForeignKeyTexts(info.foreignKeys));
    assert lines == ["Table: " + info.name, "Columns:"] + items + (fks + SampleSectionFixed(Rows(rows)));
    assert lines[2 + |items| + |fks|] == SampleTitle;
  }
}
