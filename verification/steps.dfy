/** The seven node functions of the question-answering graph. The language
    model and the database are oracles held in an `Env`: the model maps a
    prompt to an answer or a thrown error, the database maps a query to rows
    or a thrown error. Each node yields the `Effect` it has on the state, or
    the error it throws. */
module Steps {
  import opened Wrappers
  import opened Strings
  import opened Connection
  import opened Format
  import opened PipelineState
  import opened Workflow

  /** What a node asks the language model, with the values its prompt splices in. */
  datatype Prompt =
    | Relevance(schema: Option<string>, asked: string)
    | ToSql(schema: Option<string>, question: Option<string>)
    | Summary(question: Option<string>, queryResult: Option<string>)
    | Playful

  /** The collaborators the nodes call: the connection registry, the
      language model and the database. */
  datatype Env = Env(
    registry: seq<DatabaseConnection>,
    llm: Prompt -> Result<string, string>,
    run: QueryFn)

  const NotRelevant := "not_relevant"
  const SchemaNotFound := "Schema not found"
  const QueryErrorPrefix := "Error executing query : "

  const CheckRelevanceLog := "CHECK RELEVANCE"
  const ConvertingLog := "CONVERTING TO SQL "
  const ExecutingLog := "EXECUTING SQL QUERY"
  const SummaryLog := "GENERATE HUMAN READABLE RESPONSE"
  const FunnyLog := "GENERATING FUNNY RESPONSE"

  /** The line logging a relevance verdict. */
  function VerdictLine(v: string): string
  {
    "Relevance : " + v
  }

  /** The relevance verdict made of a model answer: the answer in lower case,
      or "not_relevant" when that is empty. */
  function Verdict(answer: string): (v: string)
    ensures v != ""
    ensures Lower(v) == v
    ensures v == "relevant" <==> Lower(answer) == "relevant"
    ensures Lower(answer) != "" ==> v == Lower(answer)
    ensures Lower(answer) == "" ==> v == NotRelevant
  {
    LowerIdempotent(answer);
    NotRelevantIsLower();
    if Lower(answer) == "" then NotRelevant else Lower(answer)
  }

  lemma NotRelevantIsLower()
    ensures Lower(NotRelevant) == NotRelevant && NotRelevant != "relevant"
  {
    LowerFixed(NotRelevant);
  }

  /** `connect`: look the connection id up in the registry and open a
      `Database` on the entry found. */
  function ConnectNode(env: Env, s: State): (r: Result<Effect, string>)
    ensures !Truthy(s.connectionId) ==> r == Failure("Invalid connection id")
    ensures Truthy(s.connectionId) && FindById(env.registry, s.connectionId.value).None? ==>
              r == Failure("Invalid connection")
    ensures r.Success? <==>
              Truthy(s.connectionId) && FindById(env.registry, s.connectionId.value).Some?
              && NewDatabase(FindById(env.registry, s.connectionId.value).value).Success?
    ensures r.Success? ==>
              Apply(s, r.value) == s.(db := Some(NewDatabase(FindById(env.registry, s.connectionId.value).value).value))
  {
    if !Truthy(s.connectionId) then Failure("Invalid connection id")
    else
      match FindById(env.registry, s.connectionId.value)
      case None => Failure("Invalid connection")
      case Some(entry) =>
        match NewDatabase(entry)
        case Failure(e) => Failure(e)
        case Success(d) => Success(Effect([], Spread(s, []).(db := Put(Some(d)))))
  }

  /** `getSchema`: without a question, mark it irrelevant and the schema as
      not found; otherwise describe the database, "Schema not found" standing
      for an empty description. */
  function GetSchemaNode(env: Env, s: State): (r: Result<Effect, string>)
    requires Truthy(s.question) ==> s.db.Some?
    ensures !Truthy(s.question) ==>
              r.Success? && Apply(s, r.value) == s.(relevant := Some(NotRelevant), schema := Some(SchemaNotFound))
    ensures Truthy(s.question) ==> (r.Success? <==> FetchSchema(env.run, s.db.value).Success?)
    ensures Truthy(s.question) && r.Success? ==>
              var tables := FetchSchema(env.run, s.db.value).value;
              Apply(s, r.value) == s.(schema := Some(if tables == [] then SchemaNotFound else SchemaText(tables)))
  {
    if !Truthy(s.question) then
      Success(Effect([], Spread(s, []).(relevant := Put(Some(NotRelevant)), schema := Put(Some(SchemaNotFound)))))
    else
      match GetDatabaseSchema(env.run, s.db.value)
      case Failure(e) => Failure(e)
      case Success(text) =>
        Success(Effect([], Spread(s, []).(schema := Put(Some(if text == "" then SchemaNotFound else text)))))
  }

  /** `isQuestionRelevant`: log the check, then without a question answer
      "not_relevant" at once; otherwise ask the model and log its verdict. */
  function IsRelevantNode(env: Env, s: State): (r: Result<Effect, string>)
    ensures !Truthy(s.question) ==>
              r.Success? &&
              Apply(s, r.value) == s.(relevant := Some(NotRelevant), logs := s.logs + [CheckRelevanceLog])
    ensures Truthy(s.question) ==>
              (r.Success? <==> env.llm(Relevance(s.schema, s.question.value)).Success?)
    ensures Truthy(s.question) && r.Success? ==>
              var v := Verdict(env.llm(Relevance(s.schema, s.question.value)).value);
              Apply(s, r.value) == s.(relevant := Some(v), logs := s.logs + [CheckRelevanceLog, VerdictLine(v)])
  {
    var checked := [CheckRelevanceLog];
    if !Truthy(s.question) then
      Success(Effect(checked, Spread(s, checked).(relevant := Put(Some(NotRelevant)))))
    else
      match env.llm(Relevance(s.schema, s.question.value))
      case Failure(e) => Failure(e)
      case Success(answer) =>
        var v := Verdict(answer);
        var pushed := checked + [VerdictLine(v)];
        Success(Effect(pushed, Spread(s, pushed).(relevant := Put(Some(v)))))
  }

  /** `convertToSQL`: log, then store the model's query. */
  function ConvertToSqlNode(env: Env, s: State): (r: Result<Effect, string>)
    ensures r.Success? <==> env.llm(ToSql(s.schema, s.question)).Success?
    ensures r.Success? ==>
              Apply(s, r.value)
              == s.(query := Some(env.llm(ToSql(s.schema, s.question)).value), logs := s.logs + [ConvertingLog])
  {
    var pushed := [ConvertingLog];
    match env.llm(ToSql(s.schema, s.question))
    case Failure(e) => Failure(e)
    case Success(sql) => Success(Effect(pushed, Spread(s, pushed).(query := Put(Some(sql)))))
  }

  /** `executeSql`: log, run the query and store its rows as prose. A thrown
      error, including the one raised on rows that are not an array, is
      caught and stored as the result text, so the node never fails. On
      success only `query_result` is returned; the log line lands through the
      shared array all the same. */
  function ExecuteSqlNode(env: Env, s: State): (r: Result<Effect, string>)
    requires s.db.Some? && s.query.Some?
    ensures r.Success?
    ensures Apply(s, r.value).logs == s.logs + [ExecutingLog]
    ensures env.run(s.db.value, s.query.value).Success? && env.run(s.db.value, s.query.value).value.Rows? ==>
              r.value.update == Nothing.(queryResult := Put(Some(HumanReadableArray(env.run(s.db.value, s.query.value).value.rows))))
    ensures env.run(s.db.value, s.query.value).Failure? ==>
              Apply(s, r.value)
              == s.(queryResult := Some(QueryErrorPrefix + env.run(s.db.value, s.query.value).error),
                    logs := s.logs + [ExecutingLog])
    ensures env.run(s.db.value, s.query.value) == Success(NoRows) ==>
              Apply(s, r.value)
              == s.(queryResult := Some(QueryErrorPrefix + UndefinedMap), logs := s.logs + [ExecutingLog])
  {
    var pushed := [ExecutingLog];
    match env.run(s.db.value, s.query.value)
    case Success(Rows(rows)) =>
      Success(Effect(pushed, Nothing.(queryResult := Put(Some(HumanReadableArray(rows))))))
    case Success(NoRows) =>
      Success(Effect(pushed, Spread(s, pushed).(queryResult := Put(Some(QueryErrorPrefix + UndefinedMap)))))
    case Failure(e) =>
      Success(Effect(pushed, Spread(s, pushed).(queryResult := Put(Some(QueryErrorPrefix + e)))))
  }

  /** `generateHumarReadableResponse`: log, then store the model's summary of
      the question and the result text. */
  function SummaryNode(env: Env, s: State): (r: Result<Effect, string>)
    ensures r.Success? <==> env.llm(Summary(s.question, s.queryResult)).Success?
    ensures r.Success? ==>
              Apply(s, r.value)
              == s.(humanReadableResponse := Some(env.llm(Summary(s.question, s.queryResult)).value),
                    logs := s.logs + [SummaryLog])
  {
    var pushed := [SummaryLog];
    match env.llm(Summary(s.question, s.queryResult))
    case Failure(e) => Failure(e)
    case Success(text) => Success(Effect(pushed, Spread(s, pushed).(humanReadableResponse := Put(Some(text)))))
  }

  /** `generateFunnyResponse`: log, then store the model's playful decline. */
  function FunnyNode(env: Env, s: State): (r: Result<Effect, string>)
    ensures r.Success? <==> env.llm(Playful).Success?
    ensures r.Success? ==>
              Apply(s, r.value) == s.(result := Some(env.llm(Playful).value), logs := s.logs + [FunnyLog])
  {
    var pushed := [FunnyLog];
    match env.llm(Playful)
    case Failure(e) => Failure(e)
    case Success(text) => Success(Effect(pushed, Spread(s, pushed).(result := Put(Some(text)))))
  }

  /** The channels a node must find filled: every node after `connect` uses
      the database handle, and `executeSql` the query (both are cast without
      a check in the node). */
  predicate Ready(n: Node, s: State) {
    && (n != Start && n != Connect && n != End ==> s.db.Some?)
    && (n == ExecuteSql ==> s.query.Some?)
  }

  /** The effect of running node `n`. */
  function NodeEffect(env: Env, n: Node, s: State): Result<Effect, string>
    requires IsStep(n) && Ready(n, s)
  {
    match n
    case Connect => ConnectNode(env, s)
    case GetSchema => GetSchemaNode(env, s)
    case IsRelevant => IsRelevantNode(env, s)
    case ConvertToSql => ConvertToSqlNode(env, s)
    case ExecuteSql => ExecuteSqlNode(env, s)
    case GenerateHumarReadableResponse => SummaryNode(env, s)
    case GenerateFunnyResponse => FunnyNode(env, s)
  }

  /** Run node `n` on `s`: the merged state, or the error it threw (in which
      case nothing is merged). */
  function Execute(env: Env, n: Node, s: State): Result<State, string>
    requires IsStep(n) && Ready(n, s)
  {
    match NodeEffect(env, n, s)
    case Failure(e) => Failure(e)
    case Success(eff) => Success(Apply(s, eff))
  }

  /** The channels each node may change, `logs` included for those that log. */
  function Writes(n: Node): set<Field>
  {
    match n
    case Connect => {DbField}
    case GetSchema => {SchemaField, RelevantField}
    case IsRelevant => {RelevantField, LogsField}
    case ConvertToSql => {QueryField, LogsField}
    case ExecuteSql => {QueryResultField, LogsField}
    case GenerateHumarReadableResponse => {HumanReadableResponseField, LogsField}
    case GenerateFunnyResponse => {ResultField, LogsField}
    case _ => {}
  }

  /** The fixed line a node logs first, if it logs. */
  function LogLabel(n: Node): Option<string>
  {
    match n
    case IsRelevant => Some(CheckRelevanceLog)
    case ConvertToSql => Some(ConvertingLog)
    case ExecuteSql => Some(ExecutingLog)
    case GenerateHumarReadableResponse => Some(SummaryLog)
    case GenerateFunnyResponse => Some(FunnyLog)
    case _ => None
  }

  /** A node changes no channel outside its write set, and the log only
      grows: by nothing for the nodes that do not log, and otherwise by the
      node's fixed label followed by at most one more line. */
  lemma StepFrame(env: Env, n: Node, s: State)
    requires IsStep(n) && Ready(n, s)
    requires Execute(env, n, s).Success?
    ensures OnlyWrites(s, Execute(env, n, s).value, Writes(n))
    ensures var t := Execute(env, n, s).value;
            |s.logs| <= |t.logs| <= |s.logs| + 2 && t.logs[..|s.logs|] == s.logs
    ensures var t := Execute(env, n, s).value;
            LogLabel(n).None? ==> t.logs == s.logs
    ensures var t := Execute(env, n, s).value;
            LogLabel(n).Some? ==> |t.logs| > |s.logs| && t.logs[|s.logs|] == LogLabel(n).value
  {
    var t := Execute(env, n, s).value;
    match n
    case Connect =>
    case GetSchema =>
    case IsRelevant =>
    case ConvertToSql =>
    case ExecuteSql =>
      var reply := env.run(s.db.value, s.query.value);
      if reply.Success? && reply.value.Rows? {
        assert t == s.(queryResult := Some(HumanReadableArray(reply.value.rows)), logs := s.logs + [ExecutingLog]);
      }
    case GenerateHumarReadableResponse =>
    case GenerateFunnyResponse =>
  }

  /** Whichever node follows, it finds the channels it needs filled. */
  lemma StepKeepsReady(env: Env, n: Node, s: State)
    requires IsStep(n) && Ready(n, s)
    requires Execute(env, n, s).Success?
    requires Next(n, Execute(env, n, s).value).Some?
    ensures Ready(Next(n, Execute(env, n, s).value).value, Execute(env, n, s).value)
  {
    ExecuteKeepsHandle(env, n, s);
    SuccessorReady(n, Execute(env, n, s).value);
  }

  /** A node hands on the database handle, and convertToSQL a query. */
  lemma ExecuteKeepsHandle(env: Env, n: Node, s: State)
    requires IsStep(n) && Ready(n, s)
    requires Execute(env, n, s).Success?
    ensures Execute(env, n, s).value.db.Some?
    ensures n == ConvertToSql ==> Execute(env, n, s).value.query.Some?
  {
    var t := Execute(env, n, s).value;
    StepFrame(env, n, s);
    if n != Connect {
      assert DbField !in Writes(n);
      assert Agree(s, t, DbField);
    }
  }

  /** Every successor needs at most the database handle, and executeSql,
      which only follows convertToSQL, the query too. */
  lemma SuccessorReady(n: Node, t: State)
    requires IsStep(n) && t.db.Some? && (n == ConvertToSql ==> t.query.Some?)
    ensures Next(n, t).Some? ==> Ready(Next(n, t).value, t)
  {
  }

  /** The lines node `n` logs when it turns `s` into `t`: its fixed label,
      and for isQuestionRelevant with a question, the verdict line too. */
  function Logged(n: Node, s: State, t: State): seq<string>
  {
    match LogLabel(n)
    case None => []
    case Some(tag) =>
      if n == IsRelevant && Truthy(s.question) && t.relevant.Some? then [tag, VerdictLine(t.relevant.value)]
      else [tag]
  }

  /** The log after a node is the log before it followed by exactly the
      lines that node logs. */
  lemma StepLogs(env: Env, n: Node, s: State)
    requires IsStep(n) && Ready(n, s)
    requires Execute(env, n, s).Success?
    ensures Execute(env, n, s).value.logs == s.logs + Logged(n, s, Execute(env, n, s).value)
  {
  }

  /** No node changes the question, and only getSchema and
      isQuestionRelevant change the verdict. */
  lemma StepKeepsQuestion(env: Env, n: Node, s: State)
    requires IsStep(n) && Ready(n, s)
    requires Execute(env, n, s).Success?
    ensures Execute(env, n, s).value.question == s.question
    ensures n != GetSchema && n != IsRelevant ==> Execute(env, n, s).value.relevant == s.relevant
  {
    StepFrame(env, n, s);
    assert QuestionField !in Writes(n);
    assert Agree(s, Execute(env, n, s).value, QuestionField);
    if n != GetSchema && n != IsRelevant {
      assert RelevantField !in Writes(n);
      assert Agree(s, Execute(env, n, s).value, RelevantField);
    }
  }

  /** isQuestionRelevant says "relevant" only when there is a question and
      the model's answer, lower-cased, is "relevant". */
  lemma RelevantNeedsQuestion(env: Env, s: State)
    requires Ready(IsRelevant, s)
    requires Execute(env, IsRelevant, s).Success?
    ensures Execute(env, IsRelevant, s).value.relevant == Some("relevant") <==>
              Truthy(s.question) && Lower(env.llm(Relevance(s.schema, s.question.value)).value) == "relevant"
  {
  }
}
