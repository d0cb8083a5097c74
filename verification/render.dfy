/** The plain schema text the generators put in front of the model:
    `TextToSQL.get_database_schema` (src/text_to_sql.py) and its copy in
    demo_meaningless_names.py. One block per table, each line ended by a
    line break, blocks joined by one more line break:

        Table: <name>
        Columns:
          - <column> <type> <NULL|NOT NULL> <PRIMARY KEY|>
        Foreign Keys:                       (only when the table has some)
          - [<constrained>] references <table>([<referred>])

    The block layout is shared with the enhanced renderer and with
    `format_schema_for_llm`, so it is defined here once, with the reader
    that recovers the table names from the text. */
module Render {
  import opened Options
  import opened Text
  import opened PyRepr
  import opened Schema

  // ---------------------------------------------------------------------
  // Block layout

  /** `f"  - {text}"`: the form of every column, foreign-key and sample line. */
  function Item(text: string): (l: string)
    ensures |l| > 0 && l[0] == ' '
  {
    "  - " + text
  }

  function Items(texts: seq<string>): (ls: seq<string>)
    ensures |ls| == |texts|
    ensures forall i | 0 <= i < |texts| :: ls[i] == Item(texts[i])
  {
    seq(|texts|, i requires 0 <= i < |texts| => Item(texts[i]))
  }

  /** The lines of one table block: header, column lines, then the optional
      sections that follow them. */
  function BlockLines(name: string, columnTexts: seq<string>, sections: seq<string>): seq<string> {
    ["Table: " + name, "Columns:"] + Items(columnTexts) + sections
  }

  /** A titled list that appears only when it has entries: the shape of the
      foreign-key and sample sections. */
  function Section(title: string, texts: seq<string>): (ls: seq<string>)
    ensures |ls| == 0 <==> |texts| == 0
    ensures |ls| > 0 ==> |ls| == |texts| + 1 && ls[0] == title
    ensures forall i | 1 <= i < |ls| :: ls[i] == Item(texts[i - 1])
  {
    if |texts| == 0 then [] else [title] + Items(texts)
  }

  /** Each block is built line by line, then the blocks are joined with
      `"\n".join`. */
  function Document(blocks: seq<seq<string>>): string {
    Join("\n", UnlinesAll(blocks))
  }

  function UnlinesAll(blocks: seq<seq<string>>): (ts: seq<string>)
    ensures |ts| == |blocks|
    decreases |blocks|
  {
    if |blocks| == 0 then [] else [Unlines(blocks[0])] + UnlinesAll(blocks[1..])
  }

  /** The lines of a whole document: the blocks' lines with an empty line
      between neighbouring blocks. */
  function Interleave(blocks: seq<seq<string>>): seq<string>
    decreases |blocks|
  {
    if |blocks| == 0 then []
    else if |blocks| == 1 then blocks[0]
    else blocks[0] + [""] + Interleave(blocks[1..])
  }

  /** The reader: the text after `"Table: "` on every line that opens with it. */
  function TableNamesOf(lines: seq<string>): seq<string>
    decreases |lines|
  {
    if |lines| == 0 then []
    else
      var l := lines[0];
      (if StartsWith(l, "Table: ") then [l[7..]] else []) + TableNamesOf(lines[1..])
  }

  predicate SingleLine(s: string) {
    '\n' !in s
  }

  predicate AllSingleLine(lines: seq<string>) {
    forall l | l in lines :: SingleLine(l)
  }

  /** Lines that cannot be mistaken for a table header. */
  predicate NotHeaders(lines: seq<string>) {
    forall l | l in lines :: |l| > 0 && l[0] != 'T'
  }

  // ---------------------------------------------------------------------
  // The plain renderer

  /** `"NULL" if column['nullable'] else "NOT NULL"`. */
  function NullMarker(nullable: bool): string {
    if nullable then "NULL" else "NOT NULL"
  }

  /** `"PRIMARY KEY" if column['primary_key'] else ""`: the empty marker
      still leaves the space before it. */
  function PkMarker(primaryKey: bool): string {
    if primaryKey then "PRIMARY KEY" else ""
  }

  function ColumnText(c: Column): string {
    c.name + " " + c.colType + " " + NullMarker(c.nullable) + " " + PkMarker(c.primaryKey)
  }

  /** A foreign key: both column lists are printed with `repr`. */
  function ForeignKeyText(constrained: seq<string>, referredTable: string, referred: seq<string>): string {
    ListRepr(constrained) + " references " + referredTable + "(" + ListRepr(referred) + ")"
  }

  function ColumnTexts(cs: seq<Column>): (ts: seq<string>)
    ensures |ts| == |cs|
    ensures forall j | 0 <= j < |cs| :: ts[j] == ColumnText(cs[j])
  {
    seq(|cs|, j requires 0 <= j < |cs| => ColumnText(cs[j]))
  }

  function ForeignKeyTexts(fks: seq<ForeignKey>): (ts: seq<string>)
    ensures |ts| == |fks|
  {
    seq(|fks|, j requires 0 <= j < |fks| =>
      ForeignKeyText(fks[j].constrained, fks[j].referredTable, fks[j].referred))
  }

  function PlainLines(t: Table): seq<string> {
    BlockLines(t.name, ColumnTexts(t.columns), Section("Foreign Keys:", ForeignKeyTexts(t.foreignKeys)))
  }

  /** One block per table, each drawn by `render`. */
  function BlocksOf(render: Table -> seq<string>, ts: Snapshot): (bs: seq<seq<string>>)
    ensures |bs| == |ts|
    ensures forall i | 0 <= i < |ts| :: bs[i] == render(ts[i])
  {
    seq(|ts|, i requires 0 <= i < |ts| => render(ts[i]))
  }

  function PlainBlocks(ts: Snapshot): (bs: seq<seq<string>>)
    ensures |bs| == |ts|
    ensures forall i | 0 <= i < |ts| :: bs[i] == PlainLines(ts[i])
  {
    BlocksOf(PlainLines, ts)
  }

  /** `get_database_schema`: every table the inspector lists, in order. */
  function PlainSchema(ts: Snapshot): string {
    Document(PlainBlocks(ts))
  }

  function Names(ts: Snapshot): (ns: seq<string>)
    ensures |ns| == |ts|
    ensures forall i | 0 <= i < |ts| :: ns[i] == ts[i].name
  {
    seq(|ts|, i requires 0 <= i < |ts| => ts[i].name)
  }

  /** No name or type the renderer prints verbatim holds a line break
      (the `repr`-printed column lists never do). */
  predicate PlainWellFormed(ts: Snapshot) {
    forall t | t in ts :: SingleLine(t.name) &&
      (forall c | c in t.columns :: SingleLine(c.name) && SingleLine(c.colType)) &&
      (forall fk | fk in t.foreignKeys :: SingleLine(fk.referredTable))
  }

  // ---------------------------------------------------------------------
  // Reading a document back

  lemma {:induction false} DocumentIsLines(blocks: seq<seq<string>>)
    ensures Document(blocks) == Unlines(Interleave(blocks))
    decreases |blocks|
  {
    if |blocks| == 1 {
      assert UnlinesAll(blocks) == [Unlines(blocks[0])];
    } else if |blocks| > 1 {
      var rest := blocks[1..];
      DocumentIsLines(rest);
      var us := UnlinesAll(blocks);
      assert us[1..] == UnlinesAll(rest);
      assert Join("\n", us) == Unlines(blocks[0]) + "\n" + Join("\n", UnlinesAll(rest));
      UnlinesAppend(blocks[0] + [""], Interleave(rest));
      UnlinesAppend(blocks[0], [""]);
      assert Unlines([""]) == "\n";
    }
  }

  lemma {:induction false} TableNamesAppend(a: seq<string>, b: seq<string>)
    ensures TableNamesOf(a + b) == TableNamesOf(a) + TableNamesOf(b)
    decreases |a|
  {
    if |a| > 0 {
      assert (a + b)[1..] == a[1..] + b;
      TableNamesAppend(a[1..], b);
    } else {
      assert a + b == b;
    }
  }

  lemma {:induction false} NoTableNames(lines: seq<string>)
    requires NotHeaders(lines)
    ensures TableNamesOf(lines) == []
    decreases |lines|
  {
    if |lines| > 0 {
      assert lines[0] in lines;
      assert forall l | l in lines[1..] :: l in lines;
      NoTableNames(lines[1..]);
    }
  }

  lemma {:induction false} ItemsNotHeaders(texts: seq<string>)
    ensures NotHeaders(Items(texts))
  {
    forall l | l in Items(texts)
      ensures |l| > 0 && l[0] != 'T'
    {
      var i :| 0 <= i < |texts| && Items(texts)[i] == l;
    }
  }

  /** A block names exactly its own table, whatever its sections hold, as
      long as they add no header line. */
  lemma {:induction false} BlockNames(name: string, columnTexts: seq<string>, sections: seq<string>)
    requires NotHeaders(sections)
    ensures TableNamesOf(BlockLines(name, columnTexts, sections)) == [name]
  {
    var head := "Table: " + name;
    var rest := ["Columns:"] + Items(columnTexts) + sections;
    assert BlockLines(name, columnTexts, sections) == [head] + rest;
    ItemsNotHeaders(columnTexts);
    assert NotHeaders(rest);
    NoTableNames(rest);
    TableNamesAppend([head], rest);
    assert head[..7] == "Table: " && head[7..] == name;
  }

  /** A section of single-line items, under a title that is not a header,
      is single-line and adds no header. */
  lemma {:induction false} SectionShape(title: string, texts: seq<string>)
    requires |title| > 0 && title[0] != 'T' && SingleLine(title)
    requires forall j | 0 <= j < |texts| :: SingleLine(Item(texts[j]))
    ensures AllSingleLine(Section(title, texts)) && NotHeaders(Section(title, texts))
  {
    SectionNotHeaders(title, texts);
  }

  /** A block of single-line parts is single-line and names its table. */
  lemma {:induction false} BlockShape(name: string, columnTexts: seq<string>, sections: seq<string>)
    requires SingleLine(name)
    requires forall j | 0 <= j < |columnTexts| :: SingleLine(Item(columnTexts[j]))
    requires AllSingleLine(sections) && NotHeaders(sections)
    ensures AllSingleLine(BlockLines(name, columnTexts, sections))
    ensures TableNamesOf(BlockLines(name, columnTexts, sections)) == [name]
  {
    BlockNames(name, columnTexts, sections);
  }

  lemma {:induction false} SectionNotHeaders(title: string, texts: seq<string>)
    requires |title| > 0 && title[0] != 'T'
    ensures NotHeaders(Section(title, texts))
  {
    ItemsNotHeaders(texts);
  }

  lemma {:induction false} InterleaveNames(blocks: seq<seq<string>>, names: seq<string>)
    requires |blocks| == |names|
    requires forall i | 0 <= i < |blocks| :: TableNamesOf(blocks[i]) == [names[i]]
    ensures TableNamesOf(Interleave(blocks)) == names
    decreases |blocks|
  {
    if |blocks| == 1 {
      assert names == [names[0]];
    } else if |blocks| > 1 {
      InterleaveNames(blocks[1..], names[1..]);
      TableNamesAppend(blocks[0] + [""], Interleave(blocks[1..]));
      TableNamesAppend(blocks[0], [""]);
      assert names == [names[0]] + names[1..];
    }
  }

  lemma {:induction false} InterleaveSingleLine(blocks: seq<seq<string>>)
    requires forall i | 0 <= i < |blocks| :: AllSingleLine(blocks[i])
    ensures AllSingleLine(Interleave(blocks))
    decreases |blocks|
  {
    if |blocks| > 1 {
      InterleaveSingleLine(blocks[1..]);
    }
  }

  /** Any document of single-line blocks reads back as the names its blocks
      carry, in order. */
  lemma {:induction false} DocumentNames(blocks: seq<seq<string>>, names: seq<string>)
    requires |blocks| == |names|
    requires forall i | 0 <= i < |blocks| :: AllSingleLine(blocks[i])
    requires forall i | 0 <= i < |blocks| :: TableNamesOf(blocks[i]) == [names[i]]
    ensures SplitLines(Document(blocks)) == Interleave(blocks) + [""]
    ensures TableNamesOf(SplitLines(Document(blocks))) == names
  {
    DocumentIsLines(blocks);
    InterleaveSingleLine(blocks);
    SplitUnlines(Interleave(blocks));
    InterleaveNames(blocks, names);
    TableNamesAppend(Interleave(blocks), [""]);
  }

  // ---------------------------------------------------------------------
  // Properties of the plain renderer

  lemma {:induction false} EscapeSingleLine(s: string, q: char)
    requires q != '\n'
    ensures SingleLine(Escape(s, q))
    decreases |s|
  {
    if |s| > 0 {
      EscapeSingleLine(s[1..], q);
      var e := EscapeChar(s[0], q);
      assert s[0] == '\n' ==> e == "\\n";
      assert SingleLine(e);
    }
  }

  lemma {:induction false} JoinSingleLine(sep: string, ws: seq<string>)
    requires SingleLine(sep) && AllSingleLine(ws)
    ensures SingleLine(Join(sep, ws))
    decreases |ws|
  {
    if |ws| > 1 {
      assert ws[0] in ws;
      assert AllSingleLine(ws[1..]);
      JoinSingleLine(sep, ws[1..]);
    } else if |ws| == 1 {
      assert ws[0] in ws;
    }
  }

  /** `repr` of a list never spans lines: a line break inside a name is
      printed as the escape `\n`. */
  lemma {:induction false} ListReprSingleLine(xs: seq<string>)
    ensures SingleLine(ListRepr(xs))
  {
    var rs := ReprAll(xs);
    forall r | r in rs
      ensures SingleLine(r)
    {
      var i :| 0 <= i < |xs| && rs[i] == r;
      EscapeSingleLine(xs[i], QuoteFor(xs[i]));
    }
    JoinSingleLine(", ", rs);
  }

  lemma {:induction false} ColumnLineSingle(c: Column)
    requires SingleLine(c.name) && SingleLine(c.colType)
    ensures SingleLine(Item(ColumnText(c)))
  {
    var n, p := NullMarker(c.nullable), PkMarker(c.primaryKey);
    assert SingleLine(n) && SingleLine(p);
    assert Item(ColumnText(c)) == "  - " + c.name + " " + c.colType + " " + n + " " + p;
  }

  lemma {:induction false} ForeignKeyLineSingle(fk: ForeignKey)
    requires SingleLine(fk.referredTable)
    ensures SingleLine(Item(ForeignKeyText(fk.constrained, fk.referredTable, fk.referred)))
  {
    ListReprSingleLine(fk.constrained);
    ListReprSingleLine(fk.referred);
  }

  lemma {:induction false} PlainLinesSingle(t: Table)
    requires SingleLine(t.name)
    requires forall c | c in t.columns :: SingleLine(c.name) && SingleLine(c.colType)
    requires forall fk | fk in t.foreignKeys :: SingleLine(fk.referredTable)
    ensures AllSingleLine(PlainLines(t))
  {
    var cts := ColumnTexts(t.columns);
    var fts := ForeignKeyTexts(t.foreignKeys);
    forall j | 0 <= j < |cts|
      ensures SingleLine(Item(cts[j]))
    {
      assert t.columns[j] in t.columns;
      ColumnLineSingle(t.columns[j]);
    }
    forall j | 0 <= j < |fts|
      ensures SingleLine(Item(fts[j]))
    {
      assert t.foreignKeys[j] in t.foreignKeys;
      ForeignKeyLineSingle(t.foreignKeys[j]);
    }
  }

  /** Partner of `PlainSchema`: splitting the text at line breaks and
      reading the `Table: ` lines gives back every table name the inspector
      listed, in order, and nothing else. */
  lemma {:induction false} PlainNamesRecoverable(ts: Snapshot)
    requires PlainWellFormed(ts)
    ensures TableNamesOf(SplitLines(PlainSchema(ts))) == Names(ts)
  {
    var bs := PlainBlocks(ts);
    forall i | 0 <= i < |ts|
      ensures AllSingleLine(bs[i]) && TableNamesOf(bs[i]) == [ts[i].name]
    {
      assert ts[i] in ts;
      PlainLinesSingle(ts[i]);
      SectionNotHeaders("Foreign Keys:", ForeignKeyTexts(ts[i].foreignKeys));
      BlockNames(ts[i].name, ColumnTexts(ts[i].columns), Section("Foreign Keys:", ForeignKeyTexts(ts[i].foreignKeys)));
    }
    DocumentNames(bs, Names(ts));
  }

  /** The `Foreign Keys:` header appears in a table's block exactly when the
      inspector reports a foreign key for it. */
  lemma {:induction false} ForeignKeyHeader(t: Table)
    ensures "Foreign Keys:" in PlainLines(t) <==> |t.foreignKeys| > 0
  {
    var lines := PlainLines(t);
    var items := Items(ColumnTexts(t.columns));
    var fks := ForeignKeyTexts(t.foreignKeys);
    if |t.foreignKeys| > 0 {
      assert lines[2 + |items|] == "Foreign Keys:";
    } else {
      assert lines == ["Table: " + t.name, "Columns:"] + items;
      forall l | l in lines
        ensures l != "Foreign Keys:"
      {
        if l in items {
          var i :| 0 <= i < |items| && items[i] == l;
          assert l[0] == ' ';
        } else if l != "Columns:" {
          assert l == "Table: " + t.name;
          assert l[0] == 'T';
        }
      }
    }
  }

  // ---------------------------------------------------------------------
  // Reading a column line back

  /** What a reader makes of a column line: the first word is the name,
      the markers are taken off the end (`PRIMARY KEY`, then `NOT NULL`,
      or, where the renderer spells it out, a bare `NULL`), and the words
      in between, joined by single spaces, are the type. */
  datatype ColumnShape = ColumnShape(name: string, colType: string, nullable: bool, primaryKey: bool)

  /** Reads a column line. `nullSpelled` says whether the renderer writes
      `NULL` for a nullable column (the plain renderer does, the
      constraint-list one writes nothing). */
  function ReadColumn(text: string, nullSpelled: bool): Option<ColumnShape> {
    ReadColumnWords(Words(text), nullSpelled)
  }

  predicate EndsWithWords(ws: seq<string>, tail: seq<string>) {
    |tail| <= |ws| && ws[|ws| - |tail|..] == tail
  }

  function DropLast(ws: seq<string>, n: nat): seq<string>
    requires n <= |ws|
  {
    ws[..|ws| - n]
  }

  function ReadColumnWords(ws: seq<string>, nullSpelled: bool): Option<ColumnShape> {
    if |ws| == 0 then None
    else
      var body := ws[1..];
      var primaryKey := EndsWithWords(body, ["PRIMARY", "KEY"]);
      var b1 := if primaryKey then DropLast(body, 2) else body;
      var notNull := EndsWithWords(b1, ["NOT", "NULL"]);
      if notNull then Some(ColumnShape(ws[0], Join(" ", DropLast(b1, 2)), false, primaryKey))
      else if !nullSpelled then Some(ColumnShape(ws[0], Join(" ", b1), true, primaryKey))
      else if EndsWithWords(b1, ["NULL"]) then Some(ColumnShape(ws[0], Join(" ", DropLast(b1, 1)), true, primaryKey))
      else None
  }

  /** The type words the reader cannot tell from the markers after them:
      with `NULL` spelled out, a type whose last word is `NOT`; without
      it, a type ending in `NOT NULL` or `PRIMARY KEY`. */
  predicate ReadableType(tw: seq<string>, nullSpelled: bool) {
    if nullSpelled then !EndsWithWords(tw, ["NOT"])
    else !EndsWithWords(tw, ["NOT", "NULL"]) && !EndsWithWords(tw, ["PRIMARY", "KEY"])
  }

  /** The nullability words a renderer writes. */
  function NullWordsFor(nullSpelled: bool, nullable: bool): seq<string> {
    if !nullable then ["NOT", "NULL"] else if nullSpelled then ["NULL"] else []
  }

  /** Partner of `ReadColumnWords`: a name, readable type words and the
      markers read back as exactly those. */
  lemma {:induction false} ReadMarkers(ws: seq<string>, name: string, tw: seq<string>, nullSpelled: bool, nullable: bool, primaryKey: bool)
    requires ReadableType(tw, nullSpelled)
    requires ws == [name] + tw + NullWordsFor(nullSpelled, nullable) + KeyWords(primaryKey)
    ensures ReadColumnWords(ws, nullSpelled) == Some(ColumnShape(name, Join(" ", tw), nullable, primaryKey))
  {
    var b1 := tw + NullWordsFor(nullSpelled, nullable);
    assert ws[1..] == b1 + KeyWords(primaryKey);
    NullStrip(tw, nullSpelled, nullable);
    KeyStrip(b1, primaryKey);
  }

  /** The key marker comes off the end exactly when it was written. */
  lemma {:induction false} KeyStrip(b1: seq<string>, primaryKey: bool)
    requires !EndsWithWords(b1, ["PRIMARY", "KEY"])
    ensures EndsWithWords(b1 + KeyWords(primaryKey), ["PRIMARY", "KEY"]) == primaryKey
    ensures primaryKey ==> DropLast(b1 + KeyWords(primaryKey), 2) == b1
    ensures !primaryKey ==> b1 + KeyWords(primaryKey) == b1
  {
  }

  /** The nullability words come off the end as they were written, and
      they never leave a key marker at the end. */
  lemma {:induction false} NullStrip(tw: seq<string>, nullSpelled: bool, nullable: bool)
    requires ReadableType(tw, nullSpelled)
    ensures EndsWithWords(tw + NullWordsFor(nullSpelled, nullable), ["NOT", "NULL"]) == !nullable
    ensures !nullable ==> DropLast(tw + NullWordsFor(nullSpelled, nullable), 2) == tw
    ensures nullable && nullSpelled ==> EndsWithWords(tw + NullWordsFor(nullSpelled, nullable), ["NULL"])
    ensures nullable && nullSpelled ==> DropLast(tw + NullWordsFor(nullSpelled, nullable), 1) == tw
    ensures nullable && !nullSpelled ==> tw + NullWordsFor(nullSpelled, nullable) == tw
    ensures !EndsWithWords(tw + NullWordsFor(nullSpelled, nullable), ["PRIMARY", "KEY"])
  {
    var b1 := tw + NullWordsFor(nullSpelled, nullable);
    if !nullable {
      assert b1[|b1| - 2..] == ["NOT", "NULL"];
      assert DropLast(b1, 2) == tw;
      assert b1[|b1| - 1] == "NULL";
    } else if nullSpelled {
      assert b1[|b1| - 1..] == ["NULL"];
      assert b1[|b1| - 1] == "NULL";
      assert DropLast(b1, 1) == tw;
    } else {
      assert b1 == tw;
    }
  }

  function NullWords(nullable: bool): seq<string> {
    if nullable then ["NULL"] else ["NOT", "NULL"]
  }

  function KeyWords(primaryKey: bool): seq<string> {
    if primaryKey then ["PRIMARY", "KEY"] else []
  }

  lemma {:induction false} KeyMarkerWords(primaryKey: bool)
    ensures Words(PkMarker(primaryKey)) == KeyWords(primaryKey)
  {
    if primaryKey {
      var p, k := "PRIMARY", "KEY";
      var m := p + " " + k;
      assert PkMarker(true) == m;
      WordsSpaced(p, k);
      WordsOfToken(k);
    }
  }

  lemma {:induction false} MarkerWords(nullable: bool, primaryKey: bool)
    ensures Words(NullMarker(nullable) + " " + PkMarker(primaryKey)) ==
            NullWords(nullable) + KeyWords(primaryKey)
  {
    var pk := PkMarker(primaryKey);
    KeyMarkerWords(primaryKey);
    if nullable {
      NullableWords(pk);
    } else {
      NotNullWords(pk);
    }
  }

  lemma {:induction false} NullableWords(pk: string)
    ensures Words(NullMarker(true) + " " + pk) == ["NULL"] + Words(pk)
  {
    var nl := "NULL";
    WordsSpaced(nl, pk);
  }

  lemma {:induction false} NotNullWords(pk: string)
    ensures Words(NullMarker(false) + " " + pk) == ["NOT", "NULL"] + Words(pk)
  {
    var nt, nl := "NOT", "NULL";
    ColumnWords(nt, nl, pk);
    assert NullMarker(false) == nt + " " + nl;
  }

  /** The words of a column line that ends with the given markers. */
  lemma {:induction false} ColumnWords(name: string, colType: string, markers: string)
    requires Token(name) && Token(colType)
    ensures Words(name + " " + colType + " " + markers) == [name, colType] + Words(markers)
  {
    var rest := colType + " " + markers;
    SpacedAssoc(name, colType, markers);
    WordsSpaced(colType, markers);
    WordsSpaced(name, rest);
  }

  lemma {:induction false} SpacedAssoc(a: string, b: string, c: string)
    ensures a + " " + b + " " + c == a + " " + (b + " " + c)
  {
  }

  /** The words of a plain column line: the name, the type's words, then
      the markers'. */
  lemma {:induction false} ColumnLineWords(c: Column)
    requires Token(c.name)
    ensures Words(ColumnText(c)) == [c.name] + Words(c.colType) + NullWords(c.nullable) + KeyWords(c.primaryKey)
  {
    var markers := NullMarker(c.nullable) + " " + PkMarker(c.primaryKey);
    assert ColumnText(c) == c.name + " " + c.colType + " " + markers;
    SpacedWords(c.name, c.colType, markers);
    MarkerWords(c.nullable, c.primaryKey);
  }

  /** The words of a one-word name, a text and another text, joined by
      single spaces. */
  lemma {:induction false} SpacedWords(name: string, t: string, m: string)
    requires Token(name)
    ensures Words(name + " " + t + " " + m) == [name] + Words(t) + Words(m)
  {
    SpacedAssoc(name, t, m);
    WordsSpaced(name, t + " " + m);
    WordsAround(t, m);
  }

  /** Partner of `ColumnText`: the plain column line reads back as the
      column's name, its type with single spaces between its words, its
      nullability and its key flag. */
  lemma {:induction false} ColumnTextReadable(c: Column)
    requires Token(c.name) && ReadableType(Words(c.colType), true)
    ensures ReadColumn(ColumnText(c), true) ==
            Some(ColumnShape(c.name, Join(" ", Words(c.colType)), c.nullable, c.primaryKey))
  {
    ColumnLineWords(c);
    assert NullWords(c.nullable) == NullWordsFor(true, c.nullable);
    ReadMarkers(Words(ColumnText(c)), c.name, Words(c.colType), true, c.nullable, c.primaryKey);
  }
}
