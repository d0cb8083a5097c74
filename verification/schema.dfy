/** The introspected database snapshot the renderers read, and
    `DatabaseUtils.get_table_info` (src/database_utils.py), which reshapes
    it into plain records. Introspection itself (`inspect(engine)`) is not
    modelled: a snapshot is the tables in the order the inspector lists
    them. */
module Schema {
  import opened Options

  /** One entry of `inspector.get_columns(table)`; `comment` stands for the
      keys `get_table_info` does not copy. */
  datatype Column = Column(
    name: string,
    colType: string,
    nullable: bool,
    primaryKey: bool,
    default: Option<string>,
    comment: Option<string>)

  /** One entry of `inspector.get_foreign_keys(table)`. */
  datatype ForeignKey = ForeignKey(
    name: Option<string>,
    constrained: seq<string>,
    referredSchema: Option<string>,
    referredTable: string,
    referred: seq<string>)

  /** One table: its columns and foreign keys in inspector order, and the
      `constrained_columns` entry of its primary-key constraint, when the
      inspector reports one. */
  datatype Table = Table(
    name: string,
    columns: seq<Column>,
    foreignKeys: seq<ForeignKey>,
    pkColumns: Option<seq<string>>)

  type Snapshot = seq<Table>

  /** The column record `get_table_info` builds. */
  datatype ColumnInfo = ColumnInfo(
    name: string,
    colType: string,
    nullable: bool,
    primaryKey: bool,
    default: Option<string>)

  /** The foreign-key record `get_table_info` builds. */
  datatype ForeignKeyInfo = ForeignKeyInfo(
    name: Option<string>,
    constrained: seq<string>,
    referredTable: string,
    referred: seq<string>)

  /** The table record `get_table_info` builds. */
  datatype TableInfo = TableInfo(
    name: string,
    columns: seq<ColumnInfo>,
    primaryKeys: seq<string>,
    foreignKeys: seq<ForeignKeyInfo>)

  function ColumnInfoOf(c: Column): ColumnInfo {
    ColumnInfo(c.name, c.colType, c.nullable, c.primaryKey, c.default)
  }

  function ForeignKeyInfoOf(fk: ForeignKey): ForeignKeyInfo {
    ForeignKeyInfo(fk.name, fk.constrained, fk.referredTable, fk.referred)
  }

  /** `primary_keys.get("constrained_columns", [])`. */
  function PrimaryKeysOf(t: Table): seq<string> {
    match t.pkColumns
    case None => []
    case Some(cols) => cols
  }

  function TableInfoOf(t: Table): TableInfo {
    TableInfo(
      t.name,
      seq(|t.columns|, j requires 0 <= j < |t.columns| => ColumnInfoOf(t.columns[j])),
      PrimaryKeysOf(t),
      seq(|t.foreignKeys|, j requires 0 <= j < |t.foreignKeys| => ForeignKeyInfoOf(t.foreignKeys[j])))
  }

  /** `get_table_info`: one record per table, in inspector order. */
  function GetTableInfo(ts: Snapshot): (infos: seq<TableInfo>)
    ensures |infos| == |ts|
    ensures forall i | 0 <= i < |ts| :: infos[i].name == ts[i].name
    ensures forall i | 0 <= i < |ts| :: |infos[i].columns| == |ts[i].columns|
    ensures forall i | 0 <= i < |ts| :: |infos[i].foreignKeys| == |ts[i].foreignKeys|
    ensures forall i, j | 0 <= i < |ts| && 0 <= j < |ts[i].columns| ::
      infos[i].columns[j].name == ts[i].columns[j].name &&
      infos[i].columns[j].colType == ts[i].columns[j].colType &&
      infos[i].columns[j].nullable == ts[i].columns[j].nullable &&
      infos[i].columns[j].primaryKey == ts[i].columns[j].primaryKey &&
      infos[i].columns[j].default == ts[i].columns[j].default
    ensures forall i, j | 0 <= i < |ts| && 0 <= j < |ts[i].foreignKeys| ::
      infos[i].foreignKeys[j].constrained == ts[i].foreignKeys[j].constrained &&
      infos[i].foreignKeys[j].referredTable == ts[i].foreignKeys[j].referredTable &&
      infos[i].foreignKeys[j].referred == ts[i].foreignKeys[j].referred
    ensures forall i | 0 <= i < |ts| ::
      infos[i].primaryKeys == (if ts[i].pkColumns.Some? then ts[i].pkColumns.value else [])
  {
    seq(|ts|, i requires 0 <= i < |ts| => TableInfoOf(ts[i]))
  }

  /** Two columns agree on every key `get_table_info` copies. */
  predicate SameColumnKeys(a: Column, b: Column) {
    a.name == b.name && a.colType == b.colType && a.nullable == b.nullable &&
    a.primaryKey == b.primaryKey && a.default == b.default
  }

  /** Two foreign keys agree on every key `get_table_info` copies. */
  predicate SameForeignKeyKeys(a: ForeignKey, b: ForeignKey) {
    a.name == b.name && a.constrained == b.constrained &&
    a.referredTable == b.referredTable && a.referred == b.referred
  }

  /** A missing primary-key entry reads as an empty one. */
  predicate SamePrimaryKeys(a: Table, b: Table) {
    match (a.pkColumns, b.pkColumns)
    case (None, None) => true
    case (None, Some(y)) => y == []
    case (Some(x), None) => x == []
    case (Some(x), Some(y)) => x == y
  }

  /** Two tables that differ at most in what `get_table_info` drops. */
  predicate SameUpToDropped(a: Table, b: Table) {
    a.name == b.name && SamePrimaryKeys(a, b) &&
    |a.columns| == |b.columns| &&
    (forall j | 0 <= j < |a.columns| :: SameColumnKeys(a.columns[j], b.columns[j])) &&
    |a.foreignKeys| == |b.foreignKeys| &&
    (forall j | 0 <= j < |a.foreignKeys| :: SameForeignKeyKeys(a.foreignKeys[j], b.foreignKeys[j]))
  }

  /** What `get_table_info` loses: two tables get the same record exactly
      when they differ only in column comments, the referred schema of a
      foreign key, and a missing versus an empty primary key. */
  lemma {:induction false} TableInfoKernel(a: Table, b: Table)
    ensures TableInfoOf(a) == TableInfoOf(b) <==> SameUpToDropped(a, b)
  {
    var ia, ib := TableInfoOf(a), TableInfoOf(b);
    if ia == ib {
      forall j | 0 <= j < |a.columns|
        ensures SameColumnKeys(a.columns[j], b.columns[j])
      {
        assert ia.columns[j] == ib.columns[j];
      }
      forall j | 0 <= j < |a.foreignKeys|
        ensures SameForeignKeyKeys(a.foreignKeys[j], b.foreignKeys[j])
      {
        assert ia.foreignKeys[j] == ib.foreignKeys[j];
      }
    }
    if SameUpToDropped(a, b) {
      assert ia.columns == ib.columns;
      assert ia.foreignKeys == ib.foreignKeys;
    }
  }
}
