/** The metadata-enhanced generator of demo_meaningless_names_enhanced.py:
    the `column_metadata` table read into a nested dictionary
    (`get_column_metadata`), the schema text with each described column
    annotated (`get_enhanced_schema`), and the same text without
    annotations (`get_basic_schema`). Both renderers skip the metadata
    table itself. */
module Enhanced {
  import opened Options
  import opened Text
  import opened PyRepr
  import opened Schema
  import opened Render

  /** The table that holds the descriptions, hidden from both renderers. */
  const MetadataTable := "column_metadata"

  /** One row of `SELECT table_name, column_name, ... FROM column_metadata`.
      The two key columns are `TEXT NOT NULL`; the others may hold NULL. */
  datatype MetaRow = MetaRow(
    tableName: string,
    columnName: string,
    businessName: SqlValue,
    description: SqlValue,
    dataType: SqlValue,
    exampleValue: SqlValue,
    isSensitive: SqlValue,
    businessRules: SqlValue)

  /** The record `get_column_metadata` keeps for one column; `is_sensitive`
      has been through `bool`. */
  datatype Meta = Meta(
    businessName: SqlValue,
    description: SqlValue,
    dataType: SqlValue,
    exampleValue: SqlValue,
    isSensitive: bool,
    businessRules: SqlValue)

  /** `metadata[table_name][column_name]`. */
  type Metadata = map<string, map<string, Meta>>

  function MetaOf(r: MetaRow): Meta {
    Meta(r.businessName, r.description, r.dataType, r.exampleValue, Truthy(r.isSensitive), r.businessRules)
  }

  /** `table_name in metadata and col_name in metadata[table_name]`, and
      the record found there. */
  function MetaLookup(md: Metadata, table: string, column: string): Option<Meta> {
    if table in md && column in md[table] then Some(md[table][column]) else None
  }

  /** The reference reading of the rows: the last row for the key. */
  function LastMatch(rows: seq<MetaRow>, table: string, column: string): Option<Meta>
    decreases |rows|
  {
    if |rows| == 0 then None
    else
      var r := rows[|rows| - 1];
      if r.tableName == table && r.columnName == column then Some(MetaOf(r))
      else LastMatch(rows[..|rows| - 1], table, column)
  }

  /** One step of the loop: create the table's dictionary on first sight,
      then set (or overwrite) the column's record. */
  function Store(md: Metadata, r: MetaRow): Metadata {
    var inner := if r.tableName in md then md[r.tableName] else map[];
    md[r.tableName := inner[r.columnName := MetaOf(r)]]
  }

  /** `get_column_metadata`, the rows taken in cursor order: a table key
      exists exactly when some row names the table, and every lookup finds
      the record of the last row with that key. */
  function GroupMetadata(rows: seq<MetaRow>): (md: Metadata)
    ensures forall t :: t in md <==> exists i | 0 <= i < |rows| :: rows[i].tableName == t
    ensures forall t, c :: MetaLookup(md, t, c) == LastMatch(rows, t, c)
    decreases |rows|
  {
    if |rows| == 0 then map[]
    else
      var prev := GroupMetadata(rows[..|rows| - 1]);
      assert forall i | 0 <= i < |rows| - 1 :: rows[..|rows| - 1][i] == rows[i];
      Store(prev, rows[|rows| - 1])
  }

  /** `f", {label}{value}"` when the value is truthy, nothing otherwise. */
  function OptionalField(tag: string, v: SqlValue): string {
    if Truthy(v) then ", " + tag + Str(v) else ""
  }

  /** The annotation: the two fields always present, each optional one only
      when truthy. A field is printed with `str`, so a NULL business name
      reads `None`. */
  function Annotation(m: Meta): (a: string)
    ensures |a| > 0
  {
    var business := "业务名称: " + Str(m.businessName);
    var description := "描述: " + Str(m.description);
    var optional := OptionalField("示例: ", m.exampleValue) + OptionalField("规则: ", m.businessRules)
      + (if m.isSensitive then ", " + "敏感字段" else "");
    " (" + (business + ", " + description + optional) + ")"
  }

  /** The annotation as the list of its parts. */
  function AnnotationParts(m: Meta): seq<string> {
    ["业务名称: " + Str(m.businessName), "描述: " + Str(m.description)]
    + OptionalPart("示例: ", m.exampleValue)
    + OptionalPart("规则: ", m.businessRules)
    + (if m.isSensitive then ["敏感字段"] else [])
  }

  function OptionalPart(tag: string, v: SqlValue): seq<string> {
    if Truthy(v) then [tag + Str(v)] else []
  }

  /** `metadata_info`: empty unless the column has a record. */
  function MetadataInfo(md: Metadata, table: string, column: string): string {
    match MetaLookup(md, table, column)
    case None => ""
    case Some(m) => Annotation(m)
  }

  function EnhancedColumnText(md: Metadata, table: string, c: Column): string {
    ColumnText(c) + MetadataInfo(md, table, c.name)
  }

  function EnhancedColumnTexts(md: Metadata, t: Table): (ts: seq<string>)
    ensures |ts| == |t.columns|
    ensures forall j | 0 <= j < |t.columns| :: ts[j] == EnhancedColumnText(md, t.name, t.columns[j])
  {
    seq(|t.columns|, j requires 0 <= j < |t.columns| => EnhancedColumnText(md, t.name, t.columns[j]))
  }

  function EnhancedLines(md: Metadata, t: Table): seq<string> {
    BlockLines(t.name, EnhancedColumnTexts(md, t), Section("Foreign Keys:", ForeignKeyTexts(t.foreignKeys)))
  }

  /** The loop both renderers run: one block per table, except that the
      metadata table is skipped (`continue`). */
  function ShownBlocks(render: Table -> seq<string>, ts: Snapshot): seq<seq<string>>
    decreases |ts|
  {
    if |ts| == 0 then []
    else if ts[0].name == MetadataTable then ShownBlocks(render, ts[1..])
    else [render(ts[0])] + ShownBlocks(render, ts[1..])
  }

  /** `get_enhanced_schema`. */
  function EnhancedSchema(md: Metadata, ts: Snapshot): string {
    Document(ShownBlocks(t => EnhancedLines(md, t), ts))
  }

  /** `get_basic_schema`: the same loop with plain column lines. */
  function BasicSchema(ts: Snapshot): string {
    Document(ShownBlocks(PlainLines, ts))
  }

  /** The tables both renderers show: all but the metadata table, in order. */
  function Visible(ts: Snapshot): (vs: Snapshot)
    ensures forall t | t in vs :: t in ts && t.name != MetadataTable
    ensures forall t | t in ts && t.name != MetadataTable :: t in vs
    ensures |vs| <= |ts|
    decreases |ts|
  {
    if |ts| == 0 then []
    else if ts[0].name == MetadataTable then Visible(ts[1..])
    else [ts[0]] + Visible(ts[1..])
  }

  // ---------------------------------------------------------------------
  // Properties

  /** Partner of `Visible`: it is the order-keeping filter. A single table
      is kept or dropped on its name alone, and the filter of a
      concatenation is the concatenation of the filters, so order and
      repeats are kept. */
  lemma {:induction false} VisibleFilters(a: Snapshot, b: Snapshot)
    ensures |a| == 1 ==> Visible(a) == (if a[0].name == MetadataTable then [] else a)
    ensures Visible(a + b) == Visible(a) + Visible(b)
  {
    if |a| == 1 {
      VisibleOne(a);
    }
    VisibleAppend(a, b);
  }

  lemma {:induction false} VisibleOne(a: Snapshot)
    requires |a| == 1
    ensures Visible(a) == (if a[0].name == MetadataTable then [] else a)
  {
  }

  lemma {:induction false} VisibleAppend(a: Snapshot, b: Snapshot)
    ensures Visible(a + b) == Visible(a) + Visible(b)
    decreases |a|
  {
    if |a| == 0 {
      assert a + b == b;
    } else {
      var ab, r := a + b, a[1..];
      var h: Snapshot := if a[0].name == MetadataTable then [] else [a[0]];
      var vr, vb := Visible(r), Visible(b);
      assert Visible(ab) == h + Visible(r + b) by {
        assert ab[0] == a[0] && ab[1..] == r + b;
        VisibleStep(ab);
      }
      assert Visible(a) == h + vr by {
        VisibleStep(a);
      }
      assert Visible(r + b) == vr + vb by {
        VisibleAppend(r, b);
      }
      ConcatAssoc(h, vr, vb);
    }
  }

  lemma {:induction false} ConcatAssoc(h: Snapshot, x: Snapshot, y: Snapshot)
    ensures h + (x + y) == (h + x) + y
  {
  }

  lemma {:induction false} VisibleStep(ts: Snapshot)
    requires |ts| > 0
    ensures Visible(ts) == (if ts[0].name == MetadataTable then [] else [ts[0]]) + Visible(ts[1..])
  {
  }

  /** Skipping the metadata table inside the loop is drawing the visible
      tables. */
  lemma {:induction false} ShownIsVisible(render: Table -> seq<string>, ts: Snapshot)
    ensures ShownBlocks(render, ts) == BlocksOf(render, Visible(ts))
    decreases |ts|
  {
    if |ts| > 0 {
      ShownIsVisible(render, ts[1..]);
      var vs := Visible(ts[1..]);
      if ts[0].name != MetadataTable {
        assert BlocksOf(render, [ts[0]] + vs) == [render(ts[0])] + BlocksOf(render, vs);
      }
    } else {
      assert BlocksOf(render, []) == [];
    }
  }

  /** `get_basic_schema` is the plain renderer applied to the visible
      tables. */
  lemma {:induction false} BasicIsPlainOfVisible(ts: Snapshot)
    ensures BasicSchema(ts) == PlainSchema(Visible(ts))
  {
    ShownIsVisible(PlainLines, ts);
  }

  /** A column line changes exactly when the column has a record: the
      annotation is appended after the plain text, never empty. */
  lemma {:induction false} AnnotatedIffDescribed(md: Metadata, table: string, c: Column)
    ensures StartsWith(EnhancedColumnText(md, table, c), ColumnText(c))
    ensures EnhancedColumnText(md, table, c) == ColumnText(c) <==> !(table in md && c.name in md[table])
  {
    var e := EnhancedColumnText(md, table, c);
    assert e[..|ColumnText(c)|] == ColumnText(c);
  }

  lemma {:induction false} EnhancedLinesUnannotated(md: Metadata, t: Table)
    requires forall c | c in t.columns :: MetaLookup(md, t.name, c.name).None?
    ensures EnhancedLines(md, t) == PlainLines(t)
  {
    var es, ps := EnhancedColumnTexts(md, t), ColumnTexts(t.columns);
    forall j | 0 <= j < |t.columns|
      ensures es[j] == ps[j]
    {
      assert t.columns[j] in t.columns;
      assert ColumnText(t.columns[j]) + "" == ColumnText(t.columns[j]);
    }
    assert es == ps;
  }

  /** With no record for any shown column, the enhanced text is the basic
      text; in particular an empty metadata table changes nothing. */
  lemma {:induction false} EnhancedWithoutMetadata(md: Metadata, ts: Snapshot)
    requires forall t, c | t in ts && c in t.columns :: MetaLookup(md, t.name, c.name).None?
    ensures EnhancedSchema(md, ts) == BasicSchema(ts)
  {
    var render := t => EnhancedLines(md, t);
    var vs := Visible(ts);
    ShownIsVisible(render, ts);
    ShownIsVisible(PlainLines, ts);
    forall i | 0 <= i < |vs|
      ensures EnhancedLines(md, vs[i]) == PlainLines(vs[i])
    {
      assert vs[i] in ts;
      EnhancedLinesUnannotated(md, vs[i]);
    }
    assert BlocksOf(render, vs) == BlocksOf(PlainLines, vs);
  }

  /** The annotation is the comma-separated list of its parts in
      parentheses: fields never run together, and an optional field shows
      exactly when its value is truthy. */
  lemma {:induction false} AnnotationIsPartList(m: Meta)
    ensures Annotation(m) == " (" + Join(", ", AnnotationParts(m)) + ")"
    ensures |AnnotationParts(m)| ==
            2 + (if Truthy(m.exampleValue) then 1 else 0)
              + (if Truthy(m.businessRules) then 1 else 0)
              + (if m.isSensitive then 1 else 0)
  {
    var b, d := "业务名称: " + Str(m.businessName), "描述: " + Str(m.description);
    var ex, ru := OptionalPart("示例: ", m.exampleValue), OptionalPart("规则: ", m.businessRules);
    var se: seq<string> := if m.isSensitive then ["敏感字段"] else [];
    var tail := ex + ru + se;
    assert AnnotationParts(m) == [b, d] + tail;
    JoinPrefix(b, d, tail);
    TailJoin(ex, ru, se);
    var e, r := OptionalField("示例: ", m.exampleValue), OptionalField("规则: ", m.businessRules);
    var s := if m.isSensitive then ", " + "敏感字段" else "";
    CommaOne(ex, "示例: ", m.exampleValue);
    CommaOne(ru, "规则: ", m.businessRules);
    assert Concat(CommaEach(se)) == s;
  }

  lemma {:induction false} CommaOne(xs: seq<string>, tag: string, v: SqlValue)
    requires xs == OptionalPart(tag, v)
    ensures Concat(CommaEach(xs)) == OptionalField(tag, v)
  {
    if Truthy(v) {
      assert CommaEach(xs) == [", " + (tag + Str(v))];
    }
  }

  /** `", ".join` of two leading parts and a tail. */
  lemma {:induction false} JoinPrefix(b: string, d: string, tail: seq<string>)
    ensures Join(", ", [b, d] + tail) == b + ", " + d + Concat(CommaEach(tail))
  {
    JoinLead(d, tail);
    assert ([b, d] + tail)[1..] == [d] + tail;
  }

  /** Every part after the first, preceded by its separator. */
  function CommaEach(ws: seq<string>): (r: seq<string>)
    ensures |r| == |ws|
    decreases |ws|
  {
    if |ws| == 0 then [] else [", " + ws[0]] + CommaEach(ws[1..])
  }

  lemma {:induction false} JoinLead(w: string, tail: seq<string>)
    ensures Join(", ", [w] + tail) == w + Concat(CommaEach(tail))
    decreases |tail|
  {
    if |tail| == 0 {
      assert [w] + tail == [w];
    } else {
      JoinLead(tail[0], tail[1..]);
      assert ([w] + tail)[1..] == [tail[0]] + tail[1..];
      assert tail == [tail[0]] + tail[1..];
    }
  }

  lemma {:induction false} TailJoin(ex: seq<string>, ru: seq<string>, se: seq<string>)
    requires |ex| <= 1 && |ru| <= 1 && |se| <= 1
    ensures Concat(CommaEach(ex + ru + se)) ==
            Concat(CommaEach(ex)) + Concat(CommaEach(ru)) + Concat(CommaEach(se))
  {
    CommaEachAppend(ex + ru, se);
    CommaEachAppend(ex, ru);
    ConcatAppend(CommaEach(ex) + CommaEach(ru), CommaEach(se));
    ConcatAppend(CommaEach(ex), CommaEach(ru));
  }

  lemma {:induction false} CommaEachAppend(a: seq<string>, b: seq<string>)
    ensures CommaEach(a + b) == CommaEach(a) + CommaEach(b)
    decreases |a|
  {
    if |a| == 0 {
      assert a + b == b;
    } else {
      CommaEachAppend(a[1..], b);
      assert (a + b)[1..] == a[1..] + b;
    }
  }

  lemma {:induction false} ConcatAppend(a: seq<string>, b: seq<string>)
    ensures Concat(a + b) == Concat(a) + Concat(b)
    decreases |a|
  {
    if |a| == 0 {
      assert a + b == b;
    } else {
      ConcatAppend(a[1..], b);
      assert (a + b)[1..] == a[1..] + b;
    }
  }

  // ---------------------------------------------------------------------
  // Reading the enhanced text back

  /** No printed metadata field holds a line break. */
  predicate MetadataWellFormed(md: Metadata) {
    forall t, c | t in md && c in md[t] ::
      SingleLine(Str(md[t][c].businessName)) && SingleLine(Str(md[t][c].description)) &&
      SingleLine(Str(md[t][c].exampleValue)) && SingleLine(Str(md[t][c].businessRules))
  }

  lemma {:induction false} AnnotationSingleLine(m: Meta)
    requires SingleLine(Str(m.businessName)) && SingleLine(Str(m.description))
    requires SingleLine(Str(m.exampleValue)) && SingleLine(Str(m.businessRules))
    ensures SingleLine(Annotation(m))
  {
    var e, r := OptionalField("示例: ", m.exampleValue), OptionalField("规则: ", m.businessRules);
    assert SingleLine(e) && SingleLine(r);
  }

  lemma {:induction false} ItemAppendSingle(p: string, info: string)
    requires SingleLine(Item(p)) && SingleLine(info)
    ensures SingleLine(Item(p + info))
  {
    assert Item(p + info) == Item(p) + info;
  }

  lemma {:induction false} MetadataInfoSingle(md: Metadata, table: string, column: string)
    requires MetadataWellFormed(md)
    ensures SingleLine(MetadataInfo(md, table, column))
  {
    if table in md && column in md[table] {
      AnnotationSingleLine(md[table][column]);
    }
  }

  lemma {:induction false} EnhancedColumnSingle(md: Metadata, table: string, c: Column)
    requires MetadataWellFormed(md)
    requires SingleLine(c.name) && SingleLine(c.colType)
    ensures SingleLine(Item(EnhancedColumnText(md, table, c)))
  {
    ColumnLineSingle(c);
    MetadataInfoSingle(md, table, c.name);
    ItemAppendSingle(ColumnText(c), MetadataInfo(md, table, c.name));
  }

  lemma {:induction false} EnhancedLinesSingle(md: Metadata, t: Table)
    requires MetadataWellFormed(md)
    requires SingleLine(t.name)
    requires forall c | c in t.columns :: SingleLine(c.name) && SingleLine(c.colType)
    requires forall fk | fk in t.foreignKeys :: SingleLine(fk.referredTable)
    ensures AllSingleLine(EnhancedLines(md, t))
  {
    var cts := EnhancedColumnTexts(md, t);
    var fts := ForeignKeyTexts(t.foreignKeys);
    forall j | 0 <= j < |cts|
      ensures SingleLine(Item(cts[j]))
    {
      assert t.columns[j] in t.columns;
      EnhancedColumnSingle(md, t.name, t.columns[j]);
    }
    forall j | 0 <= j < |fts|
      ensures SingleLine(Item(fts[j]))
    {
      assert t.foreignKeys[j] in t.foreignKeys;
      ForeignKeyLineSingle(t.foreignKeys[j]);
    }
  }

  /** Partner of `EnhancedSchema`: the text names every table except the
      metadata table, in inspector order, whatever the metadata says. */
  lemma {:induction false} EnhancedNamesRecoverable(md: Metadata, ts: Snapshot)
    requires PlainWellFormed(ts) && MetadataWellFormed(md)
    ensures TableNamesOf(SplitLines(EnhancedSchema(md, ts))) == Names(Visible(ts))
    ensures MetadataTable !in TableNamesOf(SplitLines(EnhancedSchema(md, ts)))
  {
    var vs := Visible(ts);
    var bs := BlocksOf(t => EnhancedLines(md, t), vs);
    ShownIsVisible(t => EnhancedLines(md, t), ts);
    forall i | 0 <= i < |vs|
      ensures AllSingleLine(bs[i]) && TableNamesOf(bs[i]) == [vs[i].name]
    {
      assert vs[i] in vs && vs[i] in ts;
      EnhancedLinesSingle(md, vs[i]);
      SectionNotHeaders("Foreign Keys:", ForeignKeyTexts(vs[i].foreignKeys));
      BlockNames(vs[i].name, EnhancedColumnTexts(md, vs[i]), Section("Foreign Keys:", ForeignKeyTexts(vs[i].foreignKeys)));
    }
    DocumentNames(bs, Names(vs));
    forall i | 0 <= i < |vs|
      ensures Names(vs)[i] != MetadataTable
    {
      assert vs[i] in vs;
    }
  }
}
