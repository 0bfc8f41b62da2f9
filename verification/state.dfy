/** The record threaded through the question-answering graph and the way a
    node's returned object is merged into it. Every scalar channel keeps the
    last value written; `logs` is declared with a reducer that replaces the
    old array by the new one, but each node pushes onto the array it was
    handed, which is the very array the channel holds. */
module PipelineState {
  import opened Wrappers
  import opened Connection

  /** The graph state. `null` and a key that was never written are both `None`. */
  datatype State = State(
    question: Option<string>,
    schema: Option<string>,
    query: Option<string>,
    relevant: Option<string>,
    result: Option<string>,
    logs: seq<string>,
    queryResult: Option<string>,
    connectionId: Option<string>,
    humanReadableResponse: Option<string>,
    db: Option<Database>)

  /** JavaScript truthiness of a nullable string: present and non-empty. */
  predicate Truthy(o: Option<string>) {
    o.Some? && o.value != ""
  }

  /** The state `graph.invoke({question, connection_id})` starts from: the
      two inputs, every other channel empty and `logs` at its default `[]`. */
  function Initial(question: Option<string>, connectionId: Option<string>): (s: State)
    ensures s.logs == [] && s.question == question && s.connectionId == connectionId
    ensures s.db.None? && s.schema.None? && s.query.None? && s.relevant.None?
    ensures s.result.None? && s.queryResult.None? && s.humanReadableResponse.None?
  {
    State(question, None, None, None, None, [], None, connectionId, None, None)
  }

  /** One key of a returned object: absent, or present with a value. */
  datatype Write<T> = Keep | Put(value: T)

  /** The object a node returns, key by key. */
  datatype Update = Update(
    question: Write<Option<string>>,
    schema: Write<Option<string>>,
    query: Write<Option<string>>,
    relevant: Write<Option<string>>,
    result: Write<Option<string>>,
    logs: Write<seq<string>>,
    queryResult: Write<Option<string>>,
    connectionId: Write<Option<string>>,
    humanReadableResponse: Write<Option<string>>,
    db: Write<Option<Database>>)

  /** What running a node did to the state: the lines it pushed onto the
      shared `logs` array, and the object it returned. */
  datatype Effect = Effect(pushed: seq<string>, update: Update)

  /** The object with no keys. */
  const Nothing := Update(Keep, Keep, Keep, Keep, Keep, Keep, Keep, Keep, Keep, Keep)

  /** `{ ...state }`: every channel written back with the value the node read.
      `logs` is the array the node was handed, after its own pushes. */
  function Spread(s: State, pushed: seq<string>): Update
  {
    Update(Put(s.question), Put(s.schema), Put(s.query), Put(s.relevant), Put(s.result),
           Put(s.logs + pushed), Put(s.queryResult), Put(s.connectionId),
           Put(s.humanReadableResponse), Put(s.db))
  }

  /** The reducer declared for `logs`: `(x, y) => y`. */
  function ReplaceLogs(x: seq<string>, y: seq<string>): seq<string>
  {
    y
  }

  /** Last-value channel merge. */
  function Merge<T>(prior: T, w: Write<T>): T
  {
    match w
    case Keep => prior
    case Put(v) => v
  }

  /** A returned `logs` key can only be the array the node was handed. */
  predicate Aliased(s: State, e: Effect) {
    e.update.logs.Keep? || e.update.logs.value == s.logs + e.pushed
  }

  /** The state after a node ran: its pushes land in the channel's own array,
      then each returned key overwrites its channel (for `logs`, through the
      replacing reducer). Under aliasing the net effect on `logs` is an append. */
  function Apply(s: State, e: Effect): (r: State)
    ensures Aliased(s, e) ==> r.logs == s.logs + e.pushed
  {
    var channel := s.logs + e.pushed;
    State(
      Merge(s.question, e.update.question),
      Merge(s.schema, e.update.schema),
      Merge(s.query, e.update.query),
      Merge(s.relevant, e.update.relevant),
      Merge(s.result, e.update.result),
      match e.update.logs { case Keep => channel case Put(y) => ReplaceLogs(channel, y) },
      Merge(s.queryResult, e.update.queryResult),
      Merge(s.connectionId, e.update.connectionId),
      Merge(s.humanReadableResponse, e.update.humanReadableResponse),
      Merge(s.db, e.update.db))
  }

  /** Returning `{ ...state }` after pushing `pushed` changes nothing but the
      log, which grows by exactly the pushed lines. */
  lemma SpreadKeepsState(s: State, pushed: seq<string>)
    ensures Apply(s, Effect(pushed, Spread(s, pushed))) == s.(logs := s.logs + pushed)
  {
  }

  /** The channels of the state, for stating which ones a node may write. */
  datatype Field =
    | QuestionField | SchemaField | QueryField | RelevantField | ResultField
    | LogsField | QueryResultField | ConnectionIdField | HumanReadableResponseField | DbField

  /** `s` and `t` hold the same value in channel `f`. */
  predicate Agree(s: State, t: State, f: Field) {
    match f
    case QuestionField => s.question == t.question
    case SchemaField => s.schema == t.schema
    case QueryField => s.query == t.query
    case RelevantField => s.relevant == t.relevant
    case ResultField => s.result == t.result
    case LogsField => s.logs == t.logs
    case QueryResultField => s.queryResult == t.queryResult
    case ConnectionIdField => s.connectionId == t.connectionId
    case HumanReadableResponseField => s.humanReadableResponse == t.humanReadableResponse
    case DbField => s.db == t.db
  }

  /** `t` differs from `s` at most in the channels of `written`. */
  predicate OnlyWrites(s: State, t: State, written: set<Field>) {
    forall f :: f !in written ==> Agree(s, t, f)
  }
}
