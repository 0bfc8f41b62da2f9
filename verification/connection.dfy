/** The connection record kept in the in-memory registry, the `Database`
    wrapper around a driver pool, and the values a query can return. The
    drivers themselves are abstract: a query is a function supplied by the
    caller. */
module Connection {
  import opened Wrappers
  import opened Strings

  /** A value in a result row, as JavaScript sees it. */
  datatype Value = Str(s: string) | Int(i: int) | Bool(b: bool) | Null | Undefined

  /** A result row: its properties in `Object.entries` order. */
  type Row = seq<(string, Value)>

  /** What `executeQuery` resolves to: the driver's row array, or `undefined`
      when the driver hands back no row array (several statements in one
      PostgreSQL query). */
  datatype Reply = Rows(rows: seq<Row>) | NoRows

  /** `row.key`: the first property named `key`, `undefined` when there is none. */
  function Lookup(row: Row, key: string): (v: Value)
    ensures v != Undefined ==> exists i :: 0 <= i < |row| && row[i] == (key, v)
    ensures (forall i :: 0 <= i < |row| ==> row[i].0 != key) ==> v == Undefined
    ensures forall i :: 0 <= i < |row| && row[i].0 == key && (forall j :: 0 <= j < i ==> row[j].0 != key) ==>
              v == row[i].1
  {
    if row == [] then Undefined
    else if row[0].0 == key then row[0].1
    else
      var v := Lookup(row[1..], key);
      assert forall i :: 0 < i < |row| && row[i].0 == key && (forall j :: 0 <= j < i ==> row[j].0 != key) ==>
               v == row[i].1 by {
        forall i | 0 < i < |row| && row[i].0 == key && (forall j :: 0 <= j < i ==> row[j].0 != key)
          ensures v == row[i].1
        {
          assert row[1..][i - 1] == row[i];
          forall j | 0 <= j < i - 1 ensures row[1..][j].0 != key {
            assert row[1..][j] == row[j + 1];
          }
        }
      }
      v
  }

  /** `${v}` in a template literal. A string renders as itself, and an
      integer as a decimal numeral, signed when negative, that reads back
      as the integer. */
  function Render(v: Value): (r: string)
    ensures v.Str? ==> r == v.s
    ensures v.Int? && v.i >= 0 ==> AllDigits(r) && ParseDecimal(r) == v.i
    ensures v.Int? && v.i < 0 ==> |r| > 1 && r[0] == '-' && AllDigits(r[1..]) && ParseDecimal(r[1..]) == -v.i
    ensures v.Bool? ==> (r == "true" <==> v.b)
  {
    match v
    case Str(s) => s
    case Int(i) =>
      DecimalRoundTrip(if i < 0 then -i else i);
      if i < 0 then "-" + NatToDecimal(-i) else NatToDecimal(i)
    case Bool(b) => if b then "true" else "false"
    case Null => "null"
    case Undefined => "undefined"
  }

  /** Only a string value can put a comma into its rendering. */
  lemma RenderCommaFree(v: Value)
    requires !v.Str? || ',' !in v.s
    ensures ',' !in Render(v)
  {
    if v.Int? {
      var d := NatToDecimal(if v.i < 0 then -v.i else v.i);
      assert forall k :: 0 <= k < |d| ==> IsDigit(d[k]);
    }
  }

  /** One entry of the registry: the seven fields the client supplies, the
      numeric port, the generated id and the table names found when the
      connection was saved. */
  datatype DatabaseConnection = DatabaseConnection(
    connectionName: string,
    databaseType: string,
    host: string,
    port: JsNumber,
    databaseName: string,
    username: string,
    password: string,
    id: string,
    tables: seq<Value>)

  /** The two drivers a `Database` can hold. */
  datatype Engine = PostgreSql | MySql

  /** A `Database`: the configuration it was built from and the pool it opened. */
  datatype Database = Database(config: DatabaseConnection, engine: Engine)

  const Unsupported := "Unsupported database type"

  /** `new Database(config)`: a PostgreSQL pool, a MySQL pool, or a throw for
      any other type name. */
  function NewDatabase(config: DatabaseConnection): (r: Result<Database, string>)
    ensures r.Success? <==> config.databaseType == "PostgreSQL" || config.databaseType == "MySQL"
    ensures r.Success? ==> r.value.config == config
    ensures r.Success? ==> (r.value.engine == PostgreSql <==> config.databaseType == "PostgreSQL")
    ensures r.Failure? ==> r.error == Unsupported
  {
    if config.databaseType == "PostgreSQL" then Success(Database(config, PostgreSql))
    else if config.databaseType == "MySQL" then Success(Database(config, MySql))
    else Failure(Unsupported)
  }

  /** `db.executeQuery(text)`: rows, or a thrown driver error. */
  type QueryFn = (Database, string) -> Result<Reply, string>

  /** `db.testConnection()`: whether `SELECT 1` succeeded. */
  type ProbeFn = Database -> bool

  /** `connections.find(c => c.id === id)`. */
  function FindById(registry: seq<DatabaseConnection>, id: string): (r: Option<DatabaseConnection>)
    ensures r.None? <==> forall i :: 0 <= i < |registry| ==> registry[i].id != id
    ensures r.Some? ==> exists i :: 0 <= i < |registry| && registry[i] == r.value
                                    && r.value.id == id
                                    && forall j :: 0 <= j < i ==> registry[j].id != id
  {
    if registry == [] then None
    else if registry[0].id == id then Some(registry[0])
    else
      var r := FindById(registry[1..], id);
      assert r.Some? ==> exists i :: 1 <= i < |registry| && registry[i] == r.value
                                     && r.value.id == id
                                     && forall j :: 1 <= j < i ==> registry[j].id != id;
      r
  }

  /** Ids are pairwise distinct. */
  predicate UniqueIds(registry: seq<DatabaseConnection>) {
    forall i, j :: 0 <= i < j < |registry| ==> registry[i].id != registry[j].id
  }

  /** In a registry with distinct ids, looking up the id of any entry finds
      that entry. */
  lemma {:induction false} FindEntry(registry: seq<DatabaseConnection>, k: nat)
    requires UniqueIds(registry)
    requires k < |registry|
    ensures FindById(registry, registry[k].id) == Some(registry[k])
  {
    var r := FindById(registry, registry[k].id);
    var i :| 0 <= i < |registry| && registry[i] == r.value && r.value.id == registry[k].id
             && forall j :: 0 <= j < i ==> registry[j].id != registry[k].id;
    assert i == k;
  }
}
