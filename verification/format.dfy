/** The two pure formatters of the pipeline: `humanReadableArray`, which turns
    query rows into one line of prose, and the schema description that
    `getDatabaseSchema` builds from the table and column lists. */
module Format {
  import opened Wrappers
  import opened Strings
  import opened Connection

  /** The message a TypeError carries when `.map` is called on `undefined`. */
  const UndefinedMap := "Cannot read properties of undefined (reading 'map')"

  /** The message a TypeError carries when `for ... of` walks `undefined`. */
  const NotIterable := "columnsResult is not iterable"

  // ---------------------------------------------------------------------
  // humanReadableArray
  // ---------------------------------------------------------------------

  /** The default key formatter: underscores become spaces, then upper case. */
  function FormatKey(key: string): (r: string)
    ensures |r| == |key|
    ensures forall i :: 0 <= i < |key| ==> r[i] == (if key[i] == '_' then ' ' else UpperChar(key[i]))
    ensures '_' !in r
  {
    Upper(ReplaceChar(key, '_', ' '))
  }

  /** `${KEY}: ${value}` for one property. */
  function FormatPair(p: (string, Value)): string
  {
    FormatKey(p.0) + ": " + Render(p.1)
  }

  /** One row: its properties formatted and joined by "; ". */
  function RowText(row: Row): string
  {
    Join(seq(|row|, i requires 0 <= i < |row| => FormatPair(row[i])), "; ")
  }

  function RowTexts(rows: seq<Row>): (r: seq<string>)
    ensures |r| == |rows|
    ensures forall i :: 0 <= i < |rows| ==> r[i] == RowText(rows[i])
  {
    seq(|rows|, i requires 0 <= i < |rows| => RowText(rows[i]))
  }

  /** Position of the last `c` in `s`. */
  function LastIndexOf(s: string, c: char): (r: Option<nat>)
    ensures r.None? <==> c !in s
    ensures r.Some? ==> r.value < |s| && s[r.value] == c && c !in s[r.value + 1..]
  {
    if s == [] then None
    else if s[|s| - 1] == c then Some(|s| - 1)
    else
      var r := LastIndexOf(s[..|s| - 1], c);
      assert r.Some? ==> s[r.value + 1..] == s[..|s| - 1][r.value + 1..] + [s[|s| - 1]];
      r
  }

  /** `s.replace(/,([^,]*)$/, " and $1")`: the last comma becomes " and ". */
  function ReplaceLastComma(s: string): (r: string)
    ensures ',' !in s ==> r == s
    ensures ',' in s ==> exists i :: 0 <= i < |s| && s[i] == ',' && ',' !in s[i + 1..]
                                     && r == s[..i] + " and " + s[i + 1..]
  {
    match LastIndexOf(s, ',')
    case None => s
    case Some(i) => s[..i] + " and " + s[i + 1..]
  }

  /** The regular expression `/,([^,]*)$/` matches at position `p`: a comma
      followed by comma-free text up to the end of the string. */
  predicate MatchesAt(s: string, p: nat) {
    p < |s| && s[p] == ',' && ',' !in s[p + 1..]
  }

  /** `String.prototype.replace` with a non-global regular expression: try
      each position from `p` rightwards and rewrite the first match. */
  function RegexReplaceFrom(s: string, p: nat): string
    requires p <= |s|
    decreases |s| - p
  {
    if p == |s| then s
    else if MatchesAt(s, p) then s[..p] + " and " + s[p + 1..]
    else RegexReplaceFrom(s, p + 1)
  }

  /** A comma with no comma after it is the last comma. */
  lemma {:induction false} LastIndexOfIsLast(s: string, c: char, q: nat)
    requires q < |s| && s[q] == c && c !in s[q + 1..]
    ensures LastIndexOf(s, c) == Some(q)
  {
    if q < |s| - 1 {
      assert s[|s| - 1] == s[q + 1..][|s| - 2 - q];
      assert s[..|s| - 1][q + 1..] == s[q + 1..|s| - 1];
      LastIndexOfIsLast(s[..|s| - 1], c, q);
    }
  }

  /** Scanning for the last comma from the right agrees with the regular
      expression's left-to-right search. */
  lemma ReplaceLastCommaIsRegex(s: string)
    ensures ReplaceLastComma(s) == RegexReplaceFrom(s, 0)
  {
    RegexScan(s, 0);
  }

  lemma {:induction false} RegexScan(s: string, p: nat)
    requires p <= |s|
    requires LastIndexOf(s, ',').Some? ==> p <= LastIndexOf(s, ',').value
    ensures RegexReplaceFrom(s, p) == ReplaceLastComma(s)
    decreases |s| - p
  {
    var last := LastIndexOf(s, ',');
    if last.None? {
      if p < |s| {
        assert s[p] in s;
        RegexScan(s, p + 1);
      }
    } else if p == last.value {
      assert MatchesAt(s, p);
    } else {
      assert s[p + 1..][last.value - p - 1] == ',';
      RegexScan(s, p + 1);
    }
  }

  /** `humanReadableArray(rows)` with its default options: the row texts
      joined by ", ", then `replace(/,([^,]*)$/, " and $1")` as a regular
      expression engine runs it. No rows give the empty text. */
  function HumanReadableArray(rows: seq<Row>): (r: string)
    ensures rows == [] ==> r == ""
    ensures r == RegexReplaceFrom(Join(RowTexts(rows), ", "), 0)
  {
    ReplaceLastCommaIsRegex(Join(RowTexts(rows), ", "));
    ReplaceLastComma(Join(RowTexts(rows), ", "))
  }

  /** A row whose keys and string values hold no comma renders without one. */
  lemma RowTextCommaFree(row: Row)
    requires forall i :: 0 <= i < |row| ==> ',' !in row[i].0
    requires forall i :: 0 <= i < |row| ==> !row[i].1.Str? || ',' !in row[i].1.s
    ensures ',' !in RowText(row)
  {
    var parts := seq(|row|, i requires 0 <= i < |row| => FormatPair(row[i]));
    forall i | 0 <= i < |row|
      ensures ',' !in parts[i]
    {
      RenderCommaFree(row[i].1);
      var k := FormatKey(row[i].0);
      assert forall j :: 0 <= j < |k| ==> k[j] != ',';
    }
    JoinAvoids(parts, "; ", ',');
  }

  /** Rewriting the separator before a comma-free tail. */
  lemma ReplaceSeparator(head: string, last: string)
    requires ',' !in last
    ensures ReplaceLastComma(head + ", " + last) == head + " and " + " " + last
  {
    var s := head + ", " + last;
    var i := |head|;
    assert s[i] == ',';
    assert s[i + 1..] == " " + last;
    LastIndexOfIsLast(s, ',', i);
    assert s[..i] == head;
  }

  /** With comma-free rows the rewritten comma is the last row separator: the
      last two rows are joined by " and " followed by the space the ", "
      separator left behind. */
  lemma HumanReadableLastSeparator(rows: seq<Row>)
    requires |rows| >= 2
    requires forall i :: 0 <= i < |rows| ==> ',' !in RowText(rows[i])
    ensures HumanReadableArray(rows)
            == Join(RowTexts(rows)[..|rows| - 1], ", ") + " and " + " " + RowText(rows[|rows| - 1])
  {
    var texts := RowTexts(rows);
    var init := texts[..|rows| - 1];
    assert texts == init + [texts[|rows| - 1]];
    assert Join(texts, ", ") == Join(init, ", ") + ", " + RowText(rows[|rows| - 1]);
    ReplaceSeparator(Join(init, ", "), RowText(rows[|rows| - 1]));
  }

  /** With at most one row and no commas, nothing is rewritten. */
  lemma HumanReadableSingle(rows: seq<Row>)
    requires |rows| <= 1
    requires forall i :: 0 <= i < |rows| ==> ',' !in RowText(rows[i])
    ensures HumanReadableArray(rows) == if rows == [] then "" else RowText(rows[0])
  {
  }

  // ---------------------------------------------------------------------
  // The schema description built by getDatabaseSchema
  // ---------------------------------------------------------------------

  datatype Column = Column(name: string, dataType: string)

  datatype TableInfo = TableInfo(name: string, columns: seq<Column>)

  const ColumnSep := " : "
  const ColumnEnd := " ,"
  const TableLabel := "Table : "
  const TableEnd := " \n"
  const ColumnsLabel := "Columns "
  const SectionEnd := "\n"

  /** The description of one column. */
  function ColumnText(c: Column): string
  {
    c.name + ColumnSep + c.dataType + ColumnEnd
  }

  /** The descriptions of a table's columns, in order, concatenated. */
  function ColumnsText(cols: seq<Column>): string
  {
    if cols == [] then "" else ColumnText(cols[0]) + ColumnsText(cols[1..])
  }

  /** The block describing one table. */
  function TableSection(t: TableInfo): (r: string)
    ensures |r| >= |TableLabel| && r[..|TableLabel|] == TableLabel
  {
    TableLabel + t.name + TableEnd + ColumnsLabel + ColumnsText(t.columns) + SectionEnd
  }

  /** The blocks of all tables, in order; empty exactly when there is no table. */
  function SchemaText(tables: seq<TableInfo>): (r: string)
    ensures r == "" <==> tables == []
  {
    if tables == [] then "" else TableSection(tables[0]) + SchemaText(tables[1..])
  }

  lemma {:induction false} ColumnsTextAppend(a: seq<Column>, b: seq<Column>)
    ensures ColumnsText(a + b) == ColumnsText(a) + ColumnsText(b)
  {
    if a == [] {
      assert a + b == b;
    } else {
      assert (a + b)[0] == a[0];
      assert (a + b)[1..] == a[1..] + b;
      ColumnsTextAppend(a[1..], b);
    }
  }

  /** The description of a concatenation of table lists is the concatenation
      of their descriptions. */
  lemma {:induction false} SchemaTextAppend(a: seq<TableInfo>, b: seq<TableInfo>)
    ensures SchemaText(a + b) == SchemaText(a) + SchemaText(b)
  {
    if a == [] {
      assert a + b == b;
    } else {
      assert (a + b)[0] == a[0];
      assert (a + b)[1..] == a[1..] + b;
      SchemaTextAppend(a[1..], b);
    }
  }

  /** Appending the pieces of one table's block, as the loop does, extends
      the description by that table. */
  lemma SchemaTextSnoc(tables: seq<TableInfo>, k: nat, before: string, rows: string)
    requires k < |tables| && before == SchemaText(tables[..k])
    requires rows == ColumnsText(tables[k].columns)
    ensures before + TableLabel + tables[k].name + TableEnd + ColumnsLabel + rows + SectionEnd
            == SchemaText(tables[..k + 1])
  {
    SchemaTextAppend(tables[..k], [tables[k]]);
    assert tables[..k + 1] == tables[..k] + [tables[k]];
    assert SchemaText([tables[k]]) == TableSection(tables[k]) + SchemaText([]);
  }

  /** The inner loop of `getDatabaseSchema`: a `rows +=` per column. */
  method BuildColumnsText(cols: seq<Column>) returns (rows: string)
    ensures rows == ColumnsText(cols)
  {
    rows := "";
    var c := 0;
    while c < |cols|
      invariant c <= |cols|
      invariant rows == ColumnsText(cols[..c])
    {
      ColumnsTextAppend(cols[..c], [cols[c]]);
      assert cols[..c + 1] == cols[..c] + [cols[c]];
      rows := rows + cols[c].name + ColumnSep + cols[c].dataType + ColumnEnd;
      c := c + 1;
    }
    assert cols[..c] == cols;
  }

  /** The outer loop of `getDatabaseSchema`: a `schema +=` per table. */
  method BuildSchemaText(tables: seq<TableInfo>) returns (schema: string)
    ensures schema == SchemaText(tables)
  {
    schema := "";
    var k := 0;
    while k < |tables|
      invariant k <= |tables|
      invariant schema == SchemaText(tables[..k])
    {
      var table := tables[k];
      ghost var before := schema;
      schema := schema + TableLabel + table.name + TableEnd;
      var rows := BuildColumnsText(table.columns);
      schema := schema + ColumnsLabel + rows;
      schema := schema + SectionEnd;
      SchemaTextSnoc(tables, k, before, rows);
      k := k + 1;
    }
    assert tables[..k] == tables;
  }

  /** The query listing the public tables. */
  const TablesQuery := "\n      SELECT table_name\n      FROM information_schema.tables\n      WHERE table_schema = 'public'\n      ORDER BY table_name;\n    "

  /** The query listing one table's columns; the name is spliced in unescaped. */
  function ColumnsQuery(table: string): string
  {
    ColumnsQueryHead + table + ColumnsQueryTail
  }

  const ColumnsQueryHead := "\n        SELECT column_name, data_type\n        FROM information_schema.columns\n        WHERE table_name = '"
  const ColumnsQueryTail := "';\n      "

  /** `rows.map(row => row.table_name)`, each name as the template renders it. */
  function TableNames(rows: seq<Row>): (r: seq<string>)
    ensures |r| == |rows|
    ensures forall i :: 0 <= i < |rows| ==> r[i] == Render(Lookup(rows[i], "table_name"))
  {
    seq(|rows|, i requires 0 <= i < |rows| => Render(Lookup(rows[i], "table_name")))
  }

  /** The columns a column query reported, one per row. */
  function ColumnsOf(rows: seq<Row>): seq<Column>
  {
    if rows == [] then []
    else [Column(Render(Lookup(rows[0], "column_name")), Render(Lookup(rows[0], "data_type")))]
         + ColumnsOf(rows[1..])
  }

  /** `t` is what the database reported for its table: the column query for
      `t.name` succeeded with rows, and they are `t.columns`. */
  predicate ColumnsFetched(run: QueryFn, db: Database, t: TableInfo) {
    var reply := run(db, ColumnsQuery(t.name));
    reply.Success? && reply.value.Rows? && t.columns == ColumnsOf(reply.value.rows)
  }

  /** `tables` is exactly what the database reported: one entry per row of
      the table query, in its order, each with the columns its own query gave. */
  predicate Fetched(run: QueryFn, db: Database, tables: seq<TableInfo>) {
    var reply := run(db, TablesQuery);
    && reply.Success? && reply.value.Rows?
    && |tables| == |reply.value.rows|
    && (forall i :: 0 <= i < |tables| ==>
          tables[i].name == Render(Lookup(reply.value.rows[i], "table_name")))
    && (forall i :: 0 <= i < |tables| ==> ColumnsFetched(run, db, tables[i]))
  }

  /** The database answered `query` with a row array. */
  predicate Answers(run: QueryFn, db: Database, query: string) {
    run(db, query).Success? && run(db, query).value.Rows?
  }

  /** The column lists of the named tables, in order; fails on the first
      column query that throws or yields no row array. */
  function FetchColumns(run: QueryFn, db: Database, names: seq<string>): (r: Result<seq<TableInfo>, string>)
    ensures r.Success? <==> forall i :: 0 <= i < |names| ==> Answers(run, db, ColumnsQuery(names[i]))
    ensures r.Success? ==> |r.value| == |names|
    ensures r.Success? ==> forall i :: 0 <= i < |names| ==>
                             r.value[i].name == names[i] && ColumnsFetched(run, db, r.value[i])
  {
    if names == [] then Success([])
    else
      var reply := run(db, ColumnsQuery(names[0]));
      if reply.Failure? then Failure(reply.error)
      else if reply.value.NoRows? then Failure(NotIterable)
      else
        var rest := FetchColumns(run, db, names[1..]);
        assert forall i :: 1 <= i < |names| ==> names[1..][i - 1] == names[i];
        if rest.Failure? then Failure(rest.error)
        else
          var first := TableInfo(names[0], ColumnsOf(reply.value.rows));
          assert ColumnsFetched(run, db, first);
          Success([first] + rest.value)
  }

  /** Whatever the database reported, the fetched lists follow it: when a
      column query fails there are no lists `Fetched` could describe. */
  lemma FetchColumnsComplete(run: QueryFn, db: Database, rs: seq<Row>, tables: seq<TableInfo>)
    requires run(db, TablesQuery) == Success(Rows(rs))
    requires Fetched(run, db, tables)
    ensures FetchColumns(run, db, TableNames(rs)).Success?
  {
    var names := TableNames(rs);
    forall i | 0 <= i < |names|
      ensures Answers(run, db, ColumnsQuery(names[i]))
    {
      assert ColumnsFetched(run, db, tables[i]);
    }
  }

  /** Fetched lists are the ones the database reported. */
  lemma FetchColumnsSound(run: QueryFn, db: Database, rs: seq<Row>)
    requires run(db, TablesQuery) == Success(Rows(rs))
    ensures var r := FetchColumns(run, db, TableNames(rs));
            r.Success? ==> Fetched(run, db, r.value)
  {
  }

  /** The table and column lists behind the schema description; fails as
      soon as one query throws or yields no row array. */
  function FetchSchema(run: QueryFn, db: Database): (r: Result<seq<TableInfo>, string>)
    ensures r.Success? ==> Fetched(run, db, r.value)
    ensures r.Failure? ==> forall tables :: !Fetched(run, db, tables)
  {
    var reply := run(db, TablesQuery);
    if reply.Failure? then Failure(reply.error)
    else if reply.value.NoRows? then Failure(UndefinedMap)
    else
      var rs := reply.value.rows;
      var r := FetchColumns(run, db, TableNames(rs));
      if r.Failure? then
        assert forall tables :: !Fetched(run, db, tables) by {
          forall tables | Fetched(run, db, tables)
            ensures r.Success?
          {
            FetchColumnsComplete(run, db, rs, tables);
          }
        }
        r
      else
        FetchColumnsSound(run, db, rs);
        r
  }

  /** `getDatabaseSchema(db)`: the description of the fetched lists. */
  function GetDatabaseSchema(run: QueryFn, db: Database): (r: Result<string, string>)
    ensures r.Success? ==> exists tables :: Fetched(run, db, tables) && r.value == SchemaText(tables)
    ensures r.Failure? ==> forall tables :: !Fetched(run, db, tables)
    ensures run(db, TablesQuery).Failure? ==> r == Failure(run(db, TablesQuery).error)
    ensures run(db, TablesQuery) == Success(NoRows) ==> r == Failure(UndefinedMap)
  {
    var tables :- FetchSchema(run, db);
    Success(SchemaText(tables))
  }
}
