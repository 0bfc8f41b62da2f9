/** The HTTP handlers under `/db`: listing, saving and probing connections,
    asking the question-answering graph, resuming a thread, and sampling a
    table. A handler is a function from the request's fields and the
    in-memory registry to the response it sends (and, for saving, the new
    registry). Fresh ids, the drivers and the language model are parameters. */
module Routes {
  import opened Wrappers
  import opened Strings
  import opened Connection
  import opened PipelineState
  import opened Steps
  import opened Runner
  import opened Runs

  const AllFieldsRequired := "All fields are required."
  const TestFailed := "Connection test failed."
  const NotFound := "Connection not found."
  const SavedMessage := "Connection saved successfully."
  const TestedMessage := "Connection tested successfully."

  /** The table listing run when a connection is saved (base tables of the
      `public` schema; it differs from the one the graph runs). */
  const CreateTablesQuery := "\n      SELECT table_name\n      FROM information_schema.tables\n      WHERE table_schema = 'public'\n      AND table_type = 'BASE TABLE';\n  "

  const TableNameKey := "table_name"

  /** The graph runtime's default bound on node runs per invocation. */
  const RecursionLimit := 25

  /** The error the runtime throws when an invocation uses up its bound. */
  const RecursionError := "Recursion limit reached without hitting a stop condition"

  /** A JavaScript value as it sits in a response object before it is
      serialised. */
  datatype JsValue =
    | JsNull
    | JsString(s: string)
    | JsArray(items: seq<JsValue>)
    | JsDatabase(db: Database)

  /** An object: its properties in insertion order. */
  type JsObject = seq<(string, JsValue)>

  /** What a handler sends: a status and a body, or nothing at all because
      its promise rejected with an error. */
  datatype Response =
    | Sent(status: nat, body: Body)
    | Rejected(error: string)

  /** The JSON bodies the handlers send: `{error}`, `{message, connection}`,
      `{message, result}`, or `{data}` holding the registry, a state object
      or a query's rows. */
  datatype Body =
    | Failed(error: string)
    | Listing(entries: seq<DatabaseConnection>)
    | Saved(message: string, connection: DatabaseConnection)
    | Tested(message: string, result: bool)
    | Answered(state: JsObject)
    | Sampled(rows: Reply)

  // ---------------------------------------------------------------------
  // Objects: reading, deleting and assigning a property.

  /** `obj[key]`, `None` when the property is absent. */
  function Get(obj: JsObject, key: string): (v: Option<JsValue>)
    ensures v.Some? ==> (key, v.value) in obj
    ensures v.None? <==> forall i :: 0 <= i < |obj| ==> obj[i].0 != key
  {
    if obj == [] then None
    else if obj[0].0 == key then Some(obj[0].1)
    else Get(obj[1..], key)
  }

  /** `delete obj[key]`. */
  function Delete(obj: JsObject, key: string): (r: JsObject)
    ensures Get(r, key).None?
    ensures forall k :: k != key ==> Get(r, k) == Get(obj, k)
    ensures forall i :: 0 <= i < |r| ==> r[i] in obj
  {
    if obj == [] then []
    else
      var rest := Delete(obj[1..], key);
      if obj[0].0 == key then rest
      else
        assert ([obj[0]] + rest)[1..] == rest;
        [obj[0]] + rest
  }

  /** `obj[key] = v`: overwrite in place, or append a new property. */
  function Assign(obj: JsObject, key: string, v: JsValue): (r: JsObject)
    ensures Get(r, key) == Some(v)
    ensures forall k :: k != key ==> Get(r, k) == Get(obj, k)
    ensures Get(obj, key).None? ==> r == obj + [(key, v)]
    ensures forall i :: 0 <= i < |r| ==> r[i] in obj || r[i] == (key, v)
  {
    if obj == [] then [(key, v)]
    else if obj[0].0 == key then [(key, v)] + obj[1..]
    else
      var rest := Assign(obj[1..], key, v);
      assert ([obj[0]] + rest)[1..] == rest;
      assert Get(obj, key).None? ==> [obj[0]] + (obj[1..] + [(key, v)]) == obj + [(key, v)];
      [obj[0]] + rest
  }

  // ---------------------------------------------------------------------
  // The graph's final state as an object, and its redaction.

  const DbKey := "db"
  const SchemaKey := "schema"
  const ThreadIdKey := "threadId"
  const RelevantKey := "relevant"
  const LogsKey := "logs"
  const QuestionKey := "question"
  const QueryKey := "query"
  const ResultKey := "result"
  const QueryResultKey := "query_result"
  const ConnectionIdKey := "connection_id"
  const ResponseKey := "human_readable_response"

  function Nullable(o: Option<string>): (v: JsValue)
    ensures v == JsNull <==> o.None?
    ensures o.Some? ==> v == JsString(o.value)
  {
    if o.None? then JsNull else JsString(o.value)
  }

  /** A string array. */
  function Lines(lines: seq<string>): (v: JsValue)
    ensures v.JsArray? && |v.items| == |lines|
    ensures forall i :: 0 <= i < |lines| ==> v.items[i] == JsString(lines[i])
  {
    JsArray(seq(|lines|, i requires 0 <= i < |lines| => JsString(lines[i])))
  }

  /** The object `graph.invoke` resolves to: one property per channel, in
      the order the channels are declared. Only the `db` property can hold
      a database handle, and it holds one exactly when the state has one. */
  function StateObject(s: State): (r: JsObject)
    ensures |r| == 10
    ensures forall i :: 0 <= i < |r| && r[i].1.JsDatabase? ==> r[i].0 == DbKey
    ensures (exists i :: 0 <= i < |r| && r[i].1.JsDatabase?) <==> s.db.Some?
  {
    var r :=
    [(QuestionKey, Nullable(s.question)),
     (SchemaKey, Nullable(s.schema)),
     (QueryKey, Nullable(s.query)),
     (RelevantKey, Nullable(s.relevant)),
     (ResultKey, Nullable(s.result)),
     (QueryResultKey, Nullable(s.queryResult)),
     (ConnectionIdKey, Nullable(s.connectionId)),
     (ResponseKey, Nullable(s.humanReadableResponse)),
     (DbKey, if s.db.None? then JsNull else JsDatabase(s.db.value)),
     (LogsKey, Lines(s.logs))];
    assert s.db.Some? ==> r[8].1.JsDatabase?;
    r
  }

  /** No property holds a database handle (nor, with it, the credentials in
      its configuration). */
  predicate NoDatabase(obj: JsObject) {
    forall i :: 0 <= i < |obj| ==> !obj[i].1.JsDatabase?
  }

  /** `delete response.db; delete response.schema`. */
  function Redact(obj: JsObject): (r: JsObject)
    ensures Get(r, DbKey).None? && Get(r, SchemaKey).None?
    ensures forall k :: k != DbKey && k != SchemaKey ==> Get(r, k) == Get(obj, k)
  {
    Delete(Delete(obj, DbKey), SchemaKey)
  }

  /** Redacting the final state leaves no database handle anywhere in it:
      the only channel that can hold one is `db`. */
  lemma RedactedHasNoDatabase(s: State)
    ensures NoDatabase(Redact(StateObject(s)))
  {
    var obj := StateObject(s);
    var once := Delete(obj, DbKey);
    var twice := Delete(once, SchemaKey);
    forall i | 0 <= i < |once| ensures !once[i].1.JsDatabase? {
      assert once[i] in obj;
    }
    forall i | 0 <= i < |twice| ensures !twice[i].1.JsDatabase? {
      assert twice[i] in once;
    }
  }

  /** The `data` of an `/execute` response: the redacted state with the
      thread id attached last. */
  function Publish(s: State, threadId: string): (r: JsObject)
    ensures Get(r, DbKey).None? && Get(r, SchemaKey).None?
    ensures Get(r, ThreadIdKey) == Some(JsString(threadId))
    ensures forall k :: k != DbKey && k != SchemaKey && k != ThreadIdKey ==>
              Get(r, k) == Get(StateObject(s), k)
  {
    Assign(Redact(StateObject(s)), ThreadIdKey, JsString(threadId))
  }

  // ---------------------------------------------------------------------
  // The registry.

  /** The request body of `POST /connection`: each field absent or a string. */
  datatype ConnectionForm = ConnectionForm(
    connectionName: Option<string>,
    databaseType: Option<string>,
    host: Option<string>,
    port: Option<string>,
    databaseName: Option<string>,
    username: Option<string>,
    password: Option<string>)

  /** All seven fields are present and non-empty. */
  predicate Complete(f: ConnectionForm) {
    && Truthy(f.connectionName) && Truthy(f.databaseType) && Truthy(f.host) && Truthy(f.port)
    && Truthy(f.databaseName) && Truthy(f.username) && Truthy(f.password)
  }

  /** The record built from a complete form before probing: the numeric
      port, the fresh id and no tables yet. */
  function Record(f: ConnectionForm, id: string): (c: DatabaseConnection)
    requires Complete(f)
    ensures Filled(c) && c.id == id && c.tables == []
    ensures Supported(c) <==> f.databaseType.value in {"PostgreSQL", "MySQL"}
    ensures AllDigits(f.port.value) ==> c.port == Finite(ParseDecimal(f.port.value))
  {
    DatabaseConnection(f.connectionName.value, f.databaseType.value, f.host.value,
                       ToNumber(f.port.value), f.databaseName.value, f.username.value,
                       f.password.value, id, [])
  }

  /** The type name is one `new Database` accepts. */
  predicate Supported(c: DatabaseConnection) {
    c.databaseType == "PostgreSQL" || c.databaseType == "MySQL"
  }

  /** Every text field the client supplied is non-empty. */
  predicate Filled(c: DatabaseConnection) {
    && c.connectionName != "" && c.databaseType != "" && c.host != ""
    && c.databaseName != "" && c.username != "" && c.password != ""
  }

  /** What every registry built by the handlers satisfies: distinct ids,
      supported types and filled fields. */
  predicate ValidRegistry(registry: seq<DatabaseConnection>) {
    && UniqueIds(registry)
    && forall i :: 0 <= i < |registry| ==> Supported(registry[i]) && Filled(registry[i])
  }

  /** `id` names no entry of the registry. */
  predicate Fresh(registry: seq<DatabaseConnection>, id: string) {
    forall i :: 0 <= i < |registry| ==> registry[i].id != id
  }

  /** The saved `tables`: the `table_name` of each row, or none when the
      query handed back no row array. */
  function SavedTables(reply: Reply): (tables: seq<Value>)
    ensures reply.NoRows? ==> tables == []
    ensures reply.Rows? ==>
              && |tables| == |reply.rows|
              && forall i :: 0 <= i < |tables| ==> tables[i] == Lookup(reply.rows[i], TableNameKey)
  {
    match reply
    case NoRows => []
    case Rows(rows) => seq(|rows|, i requires 0 <= i < |rows| => Lookup(rows[i], TableNameKey))
  }

  /** A response that reports a saved connection. */
  predicate Saves(r: Response) {
    r.Sent? && r.status == 201 && r.body.Saved?
  }

  /** A response and the registry after the request. */
  datatype Handled = Handled(response: Response, registry: seq<DatabaseConnection>)

  /** `GET /`: the whole registry, in the order the entries were saved. */
  function ListRoute(registry: seq<DatabaseConnection>): (r: Response)
    ensures r.Sent? && r.status == 200 && r.body.Listing?
    ensures |r.body.entries| == |registry| && forall i :: 0 <= i < |registry| ==> r.body.entries[i] == registry[i]
  {
    Sent(200, Listing(registry))
  }

  /** `POST /connection`: validate, build the record with the fresh `id`,
      probe it, list its tables and append it. The registry changes only
      when the response reports the saved record, and then by exactly that
      record. A type `new Database` rejects and a table query that throws
      both reject the handler's promise. */
  function CreateRoute(registry: seq<DatabaseConnection>, form: ConnectionForm, id: string,
                       probe: ProbeFn, run: QueryFn): (h: Handled)
    ensures !Complete(form) ==> h == Handled(Sent(400, Failed(AllFieldsRequired)), registry)
    ensures h.registry == if Saves(h.response) then registry + [h.response.body.connection] else registry
    ensures Saves(h.response) <==>
              && Complete(form) && NewDatabase(Record(form, id)).Success?
              && probe(NewDatabase(Record(form, id)).value)
              && run(NewDatabase(Record(form, id)).value, CreateTablesQuery).Success?
    ensures Complete(form) && NewDatabase(Record(form, id)).Failure? ==>
              h == Handled(Rejected(Unsupported), registry)
    ensures Complete(form) && NewDatabase(Record(form, id)).Success? && !probe(NewDatabase(Record(form, id)).value) ==>
              h == Handled(Sent(500, Failed(TestFailed)), registry)
    ensures Saves(h.response) ==>
              var c := h.response.body.connection;
              && h.response.body.message == SavedMessage
              && c == Record(form, id).(tables := c.tables)
              && c.tables == SavedTables(run(NewDatabase(Record(form, id)).value, CreateTablesQuery).value)
  {
    if !Complete(form) then Handled(Sent(400, Failed(AllFieldsRequired)), registry)
    else
      var record := Record(form, id);
      match NewDatabase(record)
      case Failure(e) => Handled(Rejected(e), registry)
      case Success(db) =>
        if !probe(db) then Handled(Sent(500, Failed(TestFailed)), registry)
        else
          match run(db, CreateTablesQuery)
          case Failure(e) => Handled(Rejected(e), registry)
          case Success(reply) =>
            var saved := record.(tables := SavedTables(reply));
            Handled(Sent(201, Saved(SavedMessage, saved)), registry + [saved])
  }

  /** Appending an entry leaves every earlier lookup as it was; a lookup
      that found nothing before finds the new entry exactly when the ids
      are equal. */
  lemma {:induction false} FindAppend(registry: seq<DatabaseConnection>, c: DatabaseConnection, id: string)
    ensures FindById(registry + [c], id) ==
            if FindById(registry, id).Some? then FindById(registry, id)
            else if c.id == id then Some(c) else None
  {
    if registry == [] {
      assert [c][1..] == [];
    } else {
      assert (registry + [c])[1..] == registry[1..] + [c];
      FindAppend(registry[1..], c, id);
    }
  }

  /** Appending a supported, filled entry under a fresh id keeps the
      registry valid, finds the entry under its id, and changes no other
      lookup. */
  lemma AppendKeepsRegistry(registry: seq<DatabaseConnection>, c: DatabaseConnection)
    requires ValidRegistry(registry) && Fresh(registry, c.id)
    requires Supported(c) && Filled(c)
    ensures ValidRegistry(registry + [c])
    ensures FindById(registry + [c], c.id) == Some(c)
    ensures forall k :: k != c.id ==> FindById(registry + [c], k) == FindById(registry, k)
  {
    forall k ensures FindById(registry + [c], k) == if k == c.id then Some(c) else FindById(registry, k) {
      FindAppend(registry, c, k);
    }
  }

  /** Saving with a fresh id keeps the registry valid, finds the saved
      record under its id, and changes no other lookup. */
  lemma CreateKeepsRegistry(registry: seq<DatabaseConnection>, form: ConnectionForm, id: string,
                            probe: ProbeFn, run: QueryFn)
    requires ValidRegistry(registry) && Fresh(registry, id)
    ensures var h := CreateRoute(registry, form, id, probe, run);
            ValidRegistry(h.registry)
    ensures var h := CreateRoute(registry, form, id, probe, run);
            forall k :: k != id ==> FindById(h.registry, k) == FindById(registry, k)
    ensures var h := CreateRoute(registry, form, id, probe, run);
            Saves(h.response) ==> FindById(h.registry, id) == Some(h.response.body.connection)
  {
    var h := CreateRoute(registry, form, id, probe, run);
    if Saves(h.response) {
      var c := h.response.body.connection;
      assert c.id == id && Supported(c) && Filled(c);
      AppendKeepsRegistry(registry, c);
    }
  }

  /** A saved connection shows up last in the next listing. */
  lemma ListingShowsSaved(registry: seq<DatabaseConnection>, form: ConnectionForm, id: string,
                          probe: ProbeFn, run: QueryFn)
    ensures var h := CreateRoute(registry, form, id, probe, run);
            var listed := ListRoute(h.registry).body.entries;
            Saves(h.response) ==>
              |listed| == |registry| + 1 && listed[|registry|] == h.response.body.connection
              && listed[..|registry|] == registry
  {
  }

  /** `POST /connection/test`: 404 for an id no entry has (an absent id
      included), else probe the entry: 200 when it answers, 500 when not. */
  function TestRoute(registry: seq<DatabaseConnection>, id: Option<string>, probe: ProbeFn): (r: Response)
    ensures r == Sent(404, Failed(NotFound)) <==> id.None? || FindById(registry, id.value).None?
    ensures r.Sent? && r.status == 200 <==>
              && id.Some? && FindById(registry, id.value).Some?
              && NewDatabase(FindById(registry, id.value).value).Success?
              && probe(NewDatabase(FindById(registry, id.value).value).value)
    ensures r.Sent? && r.status == 200 ==> r.body == Tested(TestedMessage, true)
    ensures r.Sent? ==> r.status in {200, 404, 500}
    ensures ValidRegistry(registry) ==> r.Sent?
  {
    if id.None? then Sent(404, Failed(NotFound))
    else
      match FindById(registry, id.value)
      case None => Sent(404, Failed(NotFound))
      case Some(c) =>
        match NewDatabase(c)
        case Failure(e) => Rejected(e)
        case Success(db) =>
          if probe(db) then Sent(200, Tested(TestedMessage, true))
          else Sent(500, Failed(TestFailed))
  }

  // ---------------------------------------------------------------------
  // Asking and resuming.

  /** `POST /execute/:id`: run the graph on the question and the path's
      connection id under the runtime's bound, then send the final state
      without `db` and `schema` and with the request's fresh thread id. */
  function ExecuteRoute(env: Env, question: Option<string>, id: string, threadId: string): (r: Response)
    ensures var o := Invoke(env, Initial(question, Some(id)), RecursionLimit);
            r.Sent? <==> o.Completed?
    ensures var o := Invoke(env, Initial(question, Some(id)), RecursionLimit);
            o.Crashed? ==> r == Rejected(o.error)
    ensures var o := Invoke(env, Initial(question, Some(id)), RecursionLimit);
            r.Sent? ==> r.status == 200 && r.body == Answered(Publish(o.final, threadId))
  {
    match Invoke(env, Initial(question, Some(id)), RecursionLimit)
    case Completed(final, _) => Sent(200, Answered(Publish(final, threadId)))
    case Crashed(e, _) => Rejected(e)
    case Exhausted(_) => Rejected(RecursionError)
  }

  /** The bound is never what ends a request: every rejection is a node's
      own error. */
  lemma ExecuteNeverHitsLimit(env: Env, question: Option<string>, id: string, threadId: string)
    ensures var o := Invoke(env, Initial(question, Some(id)), RecursionLimit);
            ExecuteRoute(env, question, id, threadId).Rejected? ==> o.Crashed?
  {
    InvokeBounded(env, Initial(question, Some(id)), RecursionLimit);
  }

  /** The log lines of an answered question. */
  const AnswerLines: seq<string> := [CheckRelevanceLog, VerdictLine("relevant"), ConvertingLog, ExecutingLog, SummaryLog]

  /** A property is read from its first occurrence. */
  lemma {:induction false} GetFirst(obj: JsObject, key: string, i: nat)
    requires i < |obj| && obj[i].0 == key
    requires forall j :: 0 <= j < i ==> obj[j].0 != key
    ensures Get(obj, key) == Some(obj[i].1)
  {
    if i > 0 {
      GetFirst(obj[1..], key, i - 1);
    }
  }

  /** The state object holds the verdict under `relevant`. */
  lemma StateObjectRelevant(s: State)
    ensures Get(StateObject(s), RelevantKey) == Some(Nullable(s.relevant))
  {
    var obj := StateObject(s);
    forall j | 0 <= j < 3 ensures obj[j].0 != RelevantKey {
      assert obj[j].0[0] != RelevantKey[0];
    }
    GetFirst(obj, RelevantKey, 3);
  }

  /** The state object holds the log under `logs`. */
  lemma StateObjectLogs(s: State)
    ensures Get(StateObject(s), LogsKey) == Some(Lines(s.logs))
  {
    var obj := StateObject(s);
    forall j | 0 <= j < 9 ensures obj[j].0 != LogsKey {
      assert obj[j].0[0] != LogsKey[0];
    }
    GetFirst(obj, LogsKey, 9);
  }

  /** The state object holds every other channel under its own name, and
      the database handle under `db`. */
  lemma StateObjectChannels(s: State)
    ensures Get(StateObject(s), QuestionKey) == Some(Nullable(s.question))
    ensures Get(StateObject(s), SchemaKey) == Some(Nullable(s.schema))
    ensures Get(StateObject(s), QueryKey) == Some(Nullable(s.query))
    ensures Get(StateObject(s), ResultKey) == Some(Nullable(s.result))
    ensures Get(StateObject(s), QueryResultKey) == Some(Nullable(s.queryResult))
    ensures Get(StateObject(s), ConnectionIdKey) == Some(Nullable(s.connectionId))
    ensures Get(StateObject(s), ResponseKey) == Some(Nullable(s.humanReadableResponse))
    ensures Get(StateObject(s), DbKey) == Some(if s.db.None? then JsNull else JsDatabase(s.db.value))
  {
    QuestionChannel(s);
    SchemaChannel(s);
    QueryChannel(s);
    ResultChannel(s);
    QueryResultChannel(s);
    ConnectionIdChannel(s);
    ResponseChannel(s);
    DbChannel(s);
  }

  lemma QuestionChannel(s: State)
    ensures Get(StateObject(s), QuestionKey) == Some(Nullable(s.question))
  {
    GetFirst(StateObject(s), QuestionKey, 0);
  }

  lemma SchemaChannel(s: State)
    ensures Get(StateObject(s), SchemaKey) == Some(Nullable(s.schema))
  {
    assert SchemaKey[0] != QuestionKey[0];
    GetFirst(StateObject(s), SchemaKey, 1);
  }

  lemma QueryChannel(s: State)
    ensures Get(StateObject(s), QueryKey) == Some(Nullable(s.query))
  {
    assert QueryKey[3] != QuestionKey[3] && QueryKey[0] != SchemaKey[0];
    GetFirst(StateObject(s), QueryKey, 2);
  }

  lemma ConnectionIdChannel(s: State)
    ensures Get(StateObject(s), ConnectionIdKey) == Some(Nullable(s.connectionId))
  {
    var obj := StateObject(s);
    forall j | 0 <= j < 6 ensures obj[j].0 != ConnectionIdKey {
      assert obj[j].0[0] != ConnectionIdKey[0];
    }
    GetFirst(obj, ConnectionIdKey, 6);
  }

  lemma ResponseChannel(s: State)
    ensures Get(StateObject(s), ResponseKey) == Some(Nullable(s.humanReadableResponse))
  {
    var obj := StateObject(s);
    forall j | 0 <= j < 7 ensures obj[j].0 != ResponseKey {
      assert obj[j].0[0] != ResponseKey[0];
    }
    GetFirst(obj, ResponseKey, 7);
  }

  lemma DbChannel(s: State)
    ensures Get(StateObject(s), DbKey) == Some(if s.db.None? then JsNull else JsDatabase(s.db.value))
  {
    var obj := StateObject(s);
    forall j | 0 <= j < 8 ensures obj[j].0 != DbKey {
      assert obj[j].0[0] != DbKey[0];
    }
    GetFirst(obj, DbKey, 8);
  }

  lemma ResultChannel(s: State)
    ensures Get(StateObject(s), ResultKey) == Some(Nullable(s.result))
  {
    var obj := StateObject(s);
    assert ResultKey[0] != QuestionKey[0] && ResultKey[0] != SchemaKey[0] && ResultKey[0] != QueryKey[0];
    assert ResultKey[2] != RelevantKey[2];
    GetFirst(obj, ResultKey, 4);
  }

  lemma QueryResultChannel(s: State)
    ensures Get(StateObject(s), QueryResultKey) == Some(Nullable(s.queryResult))
  {
    var obj := StateObject(s);
    assert QueryResultKey[3] != QuestionKey[3] && QueryResultKey[0] != SchemaKey[0];
    assert |QueryResultKey| != |QueryKey|;
    assert QueryResultKey[0] != RelevantKey[0] && QueryResultKey[0] != ResultKey[0];
    GetFirst(obj, QueryResultKey, 5);
  }

  /** The published object carries the final verdict and log as they are. */
  lemma PublishShows(s: State, threadId: string)
    ensures Get(Publish(s, threadId), RelevantKey) == Some(Nullable(s.relevant))
    ensures Get(Publish(s, threadId), LogsKey) == Some(Lines(s.logs))
  {
    StateObjectRelevant(s);
    StateObjectLogs(s);
    assert RelevantKey[0] != DbKey[0] && RelevantKey[0] != SchemaKey[0] && RelevantKey[0] != ThreadIdKey[0];
    assert LogsKey[0] != DbKey[0] && LogsKey[0] != SchemaKey[0] && LogsKey[0] != ThreadIdKey[0];
  }

  /** The published object carries the question, the query, its result and
      the answer, and the connection id, as the final state holds them. */
  lemma PublishChannels(s: State, threadId: string)
    ensures Get(Publish(s, threadId), QuestionKey) == Some(Nullable(s.question))
    ensures Get(Publish(s, threadId), QueryKey) == Some(Nullable(s.query))
    ensures Get(Publish(s, threadId), ResultKey) == Some(Nullable(s.result))
    ensures Get(Publish(s, threadId), QueryResultKey) == Some(Nullable(s.queryResult))
    ensures Get(Publish(s, threadId), ConnectionIdKey) == Some(Nullable(s.connectionId))
    ensures Get(Publish(s, threadId), ResponseKey) == Some(Nullable(s.humanReadableResponse))
  {
    PublishQuestion(s, threadId);
    PublishResults(s, threadId);
    PublishAnswer(s, threadId);
  }

  lemma PublishQuestion(s: State, threadId: string)
    ensures Get(Publish(s, threadId), QuestionKey) == Some(Nullable(s.question))
    ensures Get(Publish(s, threadId), QueryKey) == Some(Nullable(s.query))
  {
    QuestionChannel(s);
    QueryChannel(s);
    assert QuestionKey[0] != DbKey[0] && QuestionKey[0] != SchemaKey[0] && QuestionKey[0] != ThreadIdKey[0];
    assert QueryKey[0] != DbKey[0] && QueryKey[0] != SchemaKey[0] && QueryKey[0] != ThreadIdKey[0];
  }

  lemma PublishResults(s: State, threadId: string)
    ensures Get(Publish(s, threadId), ResultKey) == Some(Nullable(s.result))
    ensures Get(Publish(s, threadId), QueryResultKey) == Some(Nullable(s.queryResult))
  {
    ResultChannel(s);
    QueryResultChannel(s);
    assert ResultKey[0] != DbKey[0] && ResultKey[0] != SchemaKey[0] && ResultKey[0] != ThreadIdKey[0];
    assert QueryResultKey[0] != DbKey[0] && QueryResultKey[0] != SchemaKey[0] && QueryResultKey[0] != ThreadIdKey[0];
  }

  lemma PublishAnswer(s: State, threadId: string)
    ensures Get(Publish(s, threadId), ConnectionIdKey) == Some(Nullable(s.connectionId))
    ensures Get(Publish(s, threadId), ResponseKey) == Some(Nullable(s.humanReadableResponse))
  {
    ConnectionIdChannel(s);
    ResponseChannel(s);
    assert ConnectionIdKey[0] != DbKey[0] && ConnectionIdKey[0] != SchemaKey[0] && ConnectionIdKey[0] != ThreadIdKey[0];
    assert ResponseKey[0] != DbKey[0] && ResponseKey[0] != SchemaKey[0] && ResponseKey[0] != ThreadIdKey[0];
  }

  /** The published object holds no database handle. */
  lemma PublishHidesDatabase(s: State, threadId: string)
    ensures NoDatabase(Publish(s, threadId))
  {
    var r := Publish(s, threadId);
    var redacted := Redact(StateObject(s));
    RedactedHasNoDatabase(s);
    forall i | 0 <= i < |r| ensures !r[i].1.JsDatabase? {
      assert r[i] in redacted || r[i] == (ThreadIdKey, JsString(threadId));
    }
  }

  /** An `/execute` response says "relevant" exactly when its log records
      the SQL steps; without a question it always declines with the two
      fixed lines. Neither the handle nor the schema is in it. */
  lemma ExecuteResponse(env: Env, question: Option<string>, id: string, threadId: string)
    ensures var r := ExecuteRoute(env, question, id, threadId);
            r.Sent? ==>
              (Get(r.body.state, RelevantKey) == Some(JsString("relevant"))
               <==> Get(r.body.state, LogsKey) == Some(Lines(AnswerLines)))
    ensures var r := ExecuteRoute(env, question, id, threadId);
            r.Sent? && !Truthy(question) ==>
              Get(r.body.state, RelevantKey) != Some(JsString("relevant"))
              && Get(r.body.state, LogsKey) == Some(Lines([CheckRelevanceLog, FunnyLog]))
    ensures var r := ExecuteRoute(env, question, id, threadId);
            r.Sent? ==> NoDatabase(r.body.state) && Get(r.body.state, SchemaKey).None?
  {
    var input := Initial(question, Some(id));
    var o := Invoke(env, input, RecursionLimit);
    if o.Completed? {
      assert ExecuteRoute(env, question, id, threadId).body.state == Publish(o.final, threadId);
      PublishShows(o.final, threadId);
      PublishHidesDatabase(o.final, threadId);
      CompletedRoutes(env, input, RecursionLimit);
      CompletedLogs(env, question, Some(id), RecursionLimit);
    }
  }

  /** What the runtime does with `graph.invoke(null, {thread_id})`: the
      state it resolves to, or the error it throws. */
  type ResumeFn = Option<string> -> Result<State, string>

  /** `POST /approve/:id`: resume the caller's thread and send the state
      without `db` and `schema`; no thread id is attached. */
  function ApproveRoute(resume: ResumeFn, threadId: Option<string>): (r: Response)
    ensures r.Sent? <==> resume(threadId).Success?
    ensures r.Rejected? ==> r.error == resume(threadId).error
    ensures r.Sent? ==> r.status == 200 && r.body.Answered?
    ensures r.Sent? ==> Get(r.body.state, DbKey).None? && Get(r.body.state, SchemaKey).None?
    ensures r.Sent? ==> forall k :: k != DbKey && k != SchemaKey ==>
                          Get(r.body.state, k) == Get(StateObject(resume(threadId).value), k)
  {
    match resume(threadId)
    case Failure(e) => Rejected(e)
    case Success(s) => Sent(200, Answered(Redact(StateObject(s))))
  }

  /** No channel of the state is called `threadId`. */
  lemma StateObjectNoThreadId(s: State)
    ensures Get(StateObject(s), ThreadIdKey).None?
  {
    var obj := StateObject(s);
    var keys := [QuestionKey, SchemaKey, QueryKey, RelevantKey, ResultKey, QueryResultKey,
                 ConnectionIdKey, ResponseKey, DbKey, LogsKey];
    assert forall j :: 0 <= j < 10 ==> obj[j].0 == keys[j];
    forall j | 0 <= j < 10 ensures keys[j][0] != 't' { }
  }

  /** The graph's state has no `threadId` channel, so `/approve` sends none. */
  lemma ApproveAddsNoThreadId(resume: ResumeFn, threadId: Option<string>)
    ensures var r := ApproveRoute(resume, threadId);
            r.Sent? ==> Get(r.body.state, ThreadIdKey).None?
  {
    if resume(threadId).Success? {
      StateObjectNoThreadId(resume(threadId).value);
      assert ThreadIdKey[0] != DbKey[0] && ThreadIdKey[0] != SchemaKey[0];
    }
  }

  // ---------------------------------------------------------------------
  // Sampling a table.

  const SampleHead := "SELECT * FROM \""
  const SampleTail := "\" LIMIT 3"

  /** The text `${tableName}` gives for the query parameter. */
  function TableText(table: Option<string>): string {
    if table.None? then "undefined" else table.value
  }

  /** The sample query: the table name, unescaped, in a quoted identifier. */
  function SampleQuery(table: string): (q: string)
    ensures |q| == |SampleHead| + |table| + |SampleTail|
  {
    SampleHead + table + SampleTail
  }

  /** The table name a sample query names, read back. */
  function SampledTable(q: string): Option<string>
  {
    if |q| >= |SampleHead| + |SampleTail| && q[..|SampleHead|] == SampleHead
       && q[|q| - |SampleTail|..] == SampleTail
    then Some(q[|SampleHead|..|q| - |SampleTail|])
    else None
  }

  /** The table name can be read back from the query, so distinct names
      give distinct queries. */
  lemma SampleQueryRoundTrip(table: string)
    ensures SampledTable(SampleQuery(table)) == Some(table)
    ensures forall other :: SampleQuery(other) == SampleQuery(table) ==> other == table
  {
    var q := SampleQuery(table);
    assert q[..|SampleHead|] == SampleHead;
    assert q[|q| - |SampleTail|..] == SampleTail;
    assert q[|SampleHead|..|q| - |SampleTail|] == table;
    forall other | SampleQuery(other) == q ensures other == table {
      var p := SampleQuery(other);
      assert p[|SampleHead|..|p| - |SampleTail|] == other;
    }
  }

  /** The query's only double quotes are the two around the name exactly
      when the name has none: a name with a double quote closes the quoted
      identifier early. */
  lemma SampleQuoting(table: string)
    ensures var q := SampleQuery(table);
            (forall i :: 0 <= i < |q| && q[i] == '"' ==> i == |SampleHead| - 1 || i == |q| - |SampleTail|)
            <==> '"' !in table
  {
    var q := SampleQuery(table);
    var h := |SampleHead|;
    assert forall j :: 0 <= j < |table| ==> q[h + j] == table[j];
    assert forall j :: 0 <= j < h - 1 ==> q[j] != '"';
    assert forall j :: h + |table| < j < |q| ==> q[j] != '"';
    if '"' in table {
      var j :| 0 <= j < |table| && table[j] == '"';
      assert q[h + j] == '"';
    }
  }

  /** `GET /sample/:id?table=`: 404 for an unknown id, else the first three
      rows of the named table, or a rejection when the query throws. */
  function SampleRoute(registry: seq<DatabaseConnection>, id: string, table: Option<string>,
                       run: QueryFn): (r: Response)
    ensures r == Sent(404, Failed(NotFound)) <==> FindById(registry, id).None?
    ensures FindById(registry, id).Some? && NewDatabase(FindById(registry, id).value).Success? ==>
              var reply := run(NewDatabase(FindById(registry, id).value).value, SampleQuery(TableText(table)));
              && (reply.Success? ==> r == Sent(200, Sampled(reply.value)))
              && (reply.Failure? ==> r == Rejected(reply.error))
    ensures ValidRegistry(registry) && FindById(registry, id).Some? ==>
              NewDatabase(FindById(registry, id).value).Success?
  {
    match FindById(registry, id)
    case None => Sent(404, Failed(NotFound))
    case Some(c) =>
      match NewDatabase(c)
      case Failure(e) => Rejected(e)
      case Success(db) =>
        match run(db, SampleQuery(TableText(table)))
        case Failure(e) => Rejected(e)
        case Success(reply) => Sent(200, Sampled(reply))
  }
}
