# DB Whisperer backend — a Dafny model

DB Whisperer answers natural-language questions about a user's database.
The backend keeps an in-memory registry of database connections. It answers
each question by running a small LangGraph pipeline. The pipeline opens the
connection and describes the schema. It asks a language model whether the
question concerns that schema. When it does, the pipeline asks for SQL, runs
it, and has the model summarise the rows. Otherwise it asks for a playful
refusal.

This project models two parts of the backend in Dafny:

- **The pipeline** (`backend/src/controllers/graph.ts`):
  - the state record, and how a node's returned object is merged into it;
  - the seven node functions, with the language model and the database as oracles;
  - the edge list and its one conditional branch;
  - a fuel-bounded runner that follows the edges;
  - the two formatters, `humanReadableArray` and the schema description.
- **The HTTP handlers** (`backend/src/routes/db.routes.ts`):
  - saving, probing and listing connections;
  - asking a question and resuming a thread, with the response redaction;
  - sampling a table.

## Layout

| file | module | contents |
|---|---|---|
| `wrappers.dfy` | `Wrappers` | `Option`, `Result` |
| `strings.dfy` | `Strings` | ASCII case mapping, `join`, decimal rendering and parsing, `Number()` on strings |
| `connection.dfy` | `Connection` | the connection record, the `Database` constructor, query replies, lookup by id |
| `format.dfy` | `Format` | `humanReadableArray`, its last-comma regular expression, the schema text (as a function and as the loops of `getDatabaseSchema`), the schema queries |
| `state.dfy` | `PipelineState` | the state record and the channel merge |
| `workflow.dfy` | `Workflow` | nodes, the edge list, `shouldContinue`, routing, rank, reachability |
| `steps.dfy` | `Steps` | the seven nodes over an environment of oracles, and their frames |
| `runner.dfy` | `Runner` | the runner over any step function; termination and trace shape |
| `runs.dfy` | `Runs` | whole invocations: fail-closed SQL, the two routes, the log contents |
| `routes.dfy` | `Routes` | the handlers under `/db` and the registry invariant |

### How the state is merged

Every channel keeps the last value written to it. The `logs` channel is
declared with a reducer that replaces the old array with the new one. Each
node, however, pushes onto the very array the channel holds. A node's effect
is therefore modelled as two parts: the lines it pushed, and the object it
returned. Under that aliasing, the net effect on `logs` is an append.

`executeSql` returns only `{query_result}` on success. Its log line still
reaches the state, through the shared array.

connect and getSchema log nothing, so a run's log is never longer than the
number of nodes it ran.

### How the graph is compiled

The graph is compiled without a checkpointer or an interrupt, so every
invocation runs to `END` or to a node's error.

The relevance verdict is whatever the model answered, lower-cased, with
"not_relevant" standing for an empty answer. Routing sends every verdict
other than "relevant" down the decline branch.

### How the runner is built

The runner (`Runner.Drive`) is generic over a step function. `Compiled(env)`
builds that function for this graph. Three predicates state what the
trace-level proofs need of a step function:

- `Routed`: edges agree with the successor table.
- `KeepsReady`: a node's inputs are present when it runs.
- `Tracks`: the question is kept, the verdict is written only where
  `graph.ts` writes it, and the log grows by exactly the node's lines.

Each predicate is proved once for `Compiled(env)`.

### Oracles and parameters

- The language model is a function from a prompt to a string or an error.
- A query is a function from a database and a SQL text to rows, no row
  array, or a thrown error.
- A connection probe is a function to a boolean.
- A row is the driver row's `Object.entries`: a list of properties with
  distinct keys, in the order JavaScript enumerates them (integer-like keys
  first). `Connection.Lookup` takes the first match, so it is `row[key]`
  whenever the keys are distinct.
- Fresh uuids are parameters.
- The runtime's recursion limit of 25 node runs is the runner's fuel.
  `Runner.InvokeBounded` shows that any fuel of at least 6 is enough.

## Model

| member | source | states |
|---|---|---|
| PipelineState.Apply | backend/src/controllers/graph.ts:39-42 | when a returned `logs` is the array the node pushed onto, merging appends exactly the pushed lines, despite the replacing reducer |
| PipelineState.SpreadKeepsState | backend/src/controllers/graph.ts:169-173 | returning `{...state}` after pushing lines changes no channel but `logs`, which grows by exactly those lines |
| Strings.Lower | backend/src/controllers/graph.ts:164-171 | `toLowerCase` keeps the length and maps every character through the ASCII lower-case map |
| Strings.LowerIdempotent | backend/src/controllers/graph.ts:164-171 | lower-casing an already lower-cased verdict changes nothing |
| Strings.Upper | backend/src/controllers/graph.ts:50 | `toUpperCase` keeps the length and maps every character through the ASCII upper-case map |
| Strings.ReplaceChar | backend/src/controllers/graph.ts:50 | `replace(/_/g, " ")` keeps the length, substitutes every occurrence and leaves none behind |
| Strings.JoinAvoids | backend/src/controllers/graph.ts:54-59 | a character in no part and not in the separator is not in the joined string |
| Strings.Join | backend/src/controllers/graph.ts:57-59 | no parts give the empty text; otherwise the text is as long as the parts plus one separator per gap, and it starts with the first part |
| Strings.JoinCons | backend/src/controllers/graph.ts:54-59 | read from the front, the joined text is the first part, one separator and the join of the rest; with the definition, which reads from the back, this fixes every part and separator in order |
| Strings.DecimalRoundTrip | backend/src/controllers/graph.ts:56 | parsing the decimal rendering of a number gives the number back |
| Strings.ToNumber | backend/src/routes/db.routes.ts:46 | `Number(port)` on a string of digits is its decimal value; a `NaN` result comes only from a string that is not all digits |
| Strings.NumberOfDecimal | backend/src/routes/db.routes.ts:46 | `Number` of a rendered port gives back the port |
| Connection.Lookup | backend/src/controllers/graph.ts:105 | `row.key` is the value of the first property named `key`; it is `undefined` when no property has the key or that property holds `undefined` |
| Connection.Render | backend/src/controllers/graph.ts:56 | a string renders as itself; an integer as a decimal numeral, with a leading "-" when negative, that parses back to the integer; a boolean as "true" exactly when it is true |
| Connection.RenderCommaFree | backend/src/controllers/graph.ts:56 | only a string value can bring a comma into `${value}` |
| Connection.NewDatabase | backend/src/models/connection.ts:23-47 | `new Database` succeeds exactly for "PostgreSQL" and "MySQL", picks the matching engine and keeps the configuration; any other type throws "Unsupported database type" |
| Connection.FindById | backend/src/controllers/graph.ts:69-74 | `find` by exact id gives nothing exactly when no entry has the id, and otherwise the first entry that has it |
| Connection.FindEntry | backend/src/routes/db.routes.ts:86 | with distinct ids, looking up any entry's id finds that entry |
| Format.FormatKey | backend/src/controllers/graph.ts:50 | the default key formatter turns underscores into spaces and upper-cases the rest, leaving no underscore |
| Format.LastIndexOf | backend/src/controllers/graph.ts:60 | the position of the last comma; none exactly when the text has no comma |
| Format.ReplaceLastComma | backend/src/controllers/graph.ts:60 | a text without a comma is unchanged; otherwise the rewrite happens at the last comma |
| Format.ReplaceLastCommaIsRegex | backend/src/controllers/graph.ts:60 | rewriting at the last comma agrees with the leftmost-match semantics of `replace(/,([^,]*)$/, " and $1")` |
| Format.RowTextCommaFree | backend/src/controllers/graph.ts:54-58 | a row whose keys and string values hold no comma renders without a comma |
| Format.HumanReadableArray | backend/src/controllers/graph.ts:45-61 | the row texts joined by ", ", with `/,([^,]*)$/` replaced by " and $1" under a regular expression's leftmost-match semantics; no rows give the empty text |
| Format.HumanReadableLastSeparator | backend/src/controllers/graph.ts:45-61 | with two or more comma-free rows, the rows are joined by ", " except the last pair, which is joined by " and " followed by a space |
| Format.HumanReadableSingle | backend/src/controllers/graph.ts:45-61 | with at most one comma-free row nothing is rewritten |
| Format.SchemaText | backend/src/controllers/graph.ts:106-121 | the description is empty exactly when there is no table |
| Format.SchemaTextAppend | backend/src/controllers/graph.ts:107-121 | describing two table lists one after the other gives the description of their concatenation |
| Format.BuildColumnsText | backend/src/controllers/graph.ts:115-118 | the inner `rows +=` loop builds exactly the column descriptions, in order |
| Format.BuildSchemaText | backend/src/controllers/graph.ts:106-121 | the outer `schema +=` loop builds exactly the description of the table list |
| Format.FetchColumns | backend/src/controllers/graph.ts:107-118 | the column lists succeed exactly when every column query answers with rows, and each list is what its query reported |
| Format.FetchSchema | backend/src/controllers/graph.ts:95-128 | fetched tables are exactly what the database reported; a failure means no reported list exists (a thrown query, or no row array) |
| Format.GetDatabaseSchema | backend/src/controllers/graph.ts:95-128 | the schema text is the description of the fetched tables; a failing table-list query fails with its own error, and a table-list query with no row array fails with the `.map` TypeError |
| Workflow.ShouldContinue | backend/src/controllers/graph.ts:176-182 | "yes" exactly when the verdict is "relevant", "no" for every other verdict and for none |
| Workflow.LookupBranch | backend/src/controllers/graph.ts:335-338 | a label picks a declared branch; an undeclared label picks none |
| Workflow.Route | backend/src/controllers/graph.ts:332-342 | routing follows the first edge that leaves the node: a direct edge to its target, a conditional edge to the branch the tag names, and nowhere for an undeclared tag; a node that no edge leaves has no successor. LangGraph follows every leaving edge, but each node here has at most one, so following the first loses nothing |
| Workflow.RouteTable | backend/src/controllers/graph.ts:332-342 | under either routing tag, following the eight edges gives the successor table's entry, node by node |
| Workflow.Next | backend/src/controllers/graph.ts:324-342 | the node after `n` is the successor table's entry for `n`, on the "yes" branch exactly when the verdict is "relevant" |
| Workflow.RoutingTotal | backend/src/controllers/graph.ts:335-338 | every node but `END` has a successor for every state |
| Workflow.NextIsEdge | backend/src/controllers/graph.ts:332-342 | every successor the routing picks is an edge of the list |
| Workflow.NextLowersRank | backend/src/controllers/graph.ts:332-342 | every hop strictly lowers the rank, so no run revisits a node |
| Workflow.EdgesLowerRank | backend/src/controllers/graph.ts:332-342 | every edge of the list strictly lowers the rank: the graph is acyclic |
| Workflow.AnswerRouteIsPath | backend/src/controllers/graph.ts:332-342 | START, connect, getSchema, isRelevant, convertToSQL, executeSql, generateHumarReadableResponse, END is a path of the graph |
| Workflow.DeclineRouteIsPath | backend/src/controllers/graph.ts:332-341 | START, connect, getSchema, isRelevant, generateFunnyResponse, END is a path of the graph |
| Workflow.AllReachable | backend/src/controllers/graph.ts:324-342 | every node is reachable from START along edges of the list |
| Steps.Verdict | backend/src/controllers/graph.ts:164-171 | the verdict is the lower-cased answer, "not_relevant" for an empty one; it is "relevant" exactly when the lower-cased answer is |
| Steps.ConnectNode | backend/src/controllers/graph.ts:76-92 | fails on a missing or empty id and on an id no entry has; on success it sets only `db`, to a `Database` on the entry found |
| Steps.GetSchemaNode | backend/src/controllers/graph.ts:184-197 | without a question it sets the verdict to "not_relevant" and the schema to "Schema not found"; otherwise the schema is the description, "Schema not found" standing for an empty one |
| Steps.IsRelevantNode | backend/src/controllers/graph.ts:130-174 | always logs the check; without a question the verdict is "not_relevant" and the model is not asked; otherwise it stores and logs the model's verdict |
| Steps.ConvertToSqlNode | backend/src/controllers/graph.ts:225-261 | logs, then stores the model's query; fails exactly when the model does |
| Steps.ExecuteSqlNode | backend/src/controllers/graph.ts:263-286 | never fails; on rows it returns only `query_result`, the rows in prose; on a thrown error it stores "Error executing query : " and the message; the log gains exactly its one line |
| Steps.SummaryNode | backend/src/controllers/graph.ts:288-322 | logs, then stores the model's summary of the question and result |
| Steps.FunnyNode | backend/src/controllers/graph.ts:199-223 | logs, then stores the model's playful answer |
| Steps.StepFrame | backend/src/controllers/graph.ts:88-91 | a node changes no channel outside its write set; the log only grows, by nothing for connect and getSchema and otherwise by the node's label and at most one more line |
| Steps.StepKeepsReady | backend/src/controllers/graph.ts:192 | the node a run moves on to finds the database handle (and, for executeSql, the query) that `graph.ts` casts without a check |
| Steps.StepKeepsQuestion | backend/src/controllers/graph.ts:130-322 | no node changes the question, and only getSchema and isQuestionRelevant change the verdict |
| Runner.Compiled | backend/src/controllers/graph.ts:324-344 | a step runs only a real node whose inputs are present; it passes on that node's own error, and otherwise gives the node's merged state and the successor table's next node |
| Runner.Drive | backend/src/controllers/graph.ts:324-344 | each node run uses one step of the budget: a run is never longer than the budget, an exhausted run used all of it, and a run that runs anything starts with the given node on the given state |
| Runner.Invoke | backend/src/routes/db.routes.ts:105-115 | an invocation runs no more nodes than its budget, an exhausted one used all of it, and any run starts at connect on the input |
| Runner.DriveFollowsGraph | backend/src/controllers/graph.ts:324-344 | each hop of a run is the node's own result and edge, no visit is to `END`, a completed run's last edge leads to `END`, and a crash is the last node's own error |
| Runner.CompiledRouted | backend/src/controllers/graph.ts:324-342 | the compiled graph runs only real nodes, and its edges agree with the successor table |
| Runner.DriveRanks | backend/src/controllers/graph.ts:324-342 | a run from a node is no longer than its rank, and ranks strictly fall along it |
| Runner.DriveTerminates | backend/src/controllers/graph.ts:324-342 | fuel at least the rank means the run never runs out of steps |
| Runner.CompiledKeepsReady | backend/src/controllers/graph.ts:192 | the compiled graph hands every next node a state it can run on |
| Runner.WalkReady | backend/src/controllers/graph.ts:269-271 | every visit of a walk that starts ready is ready |
| Runner.InvokeBounded | backend/src/controllers/graph.ts:324-344 | with fuel 6 or more, an invocation never exhausts it, runs at most 6 nodes, visits none twice, starts at connect, and crashes only with a node's own error |
| Runner.WalkNodes | backend/src/controllers/graph.ts:324-342 | a walk from connect that never reaches `END` runs only real nodes |
| Runs.CompiledTracks | backend/src/controllers/graph.ts:130-322 | the compiled graph keeps the question, writes the verdict only in getSchema and isQuestionRelevant, and logs exactly each node's lines |
| Runs.QuestionAlongWalk | backend/src/controllers/graph.ts:130-322 | every visit of a walk sees the question of its first visit |
| Runs.ConvertAfterVerdict | backend/src/controllers/graph.ts:335-338 | convertToSQL runs right after isQuestionRelevant, on a "relevant" verdict and a present question |
| Runs.SqlOnlyAfterVerdict | backend/src/controllers/graph.ts:335-340 | along a walk from connect, both SQL nodes see only a "relevant" verdict on the walk's own question |
| Runs.SqlOnlyWhenRelevant | backend/src/controllers/graph.ts:176-182 | fail-closed, for any fuel: convertToSQL and executeSql run only on a "relevant" verdict for the invoked question, and only when that question is present |
| Runs.WalkPrefix | backend/src/controllers/graph.ts:324-342 | a walk from connect follows the answer route or the decline route for as long as it lasts |
| Runs.WalkRoute | backend/src/controllers/graph.ts:324-342 | a walk whose last edge reaches `END` ran one of the two routes in full |
| Runs.RouteMatchesVerdict | backend/src/controllers/graph.ts:335-338 | a completed walk took the answer route exactly when the final verdict is "relevant" |
| Runs.CompletedRoutes | backend/src/controllers/graph.ts:324-342 | a completed invocation ran exactly the answer route or exactly the decline route, the answer route exactly when the final verdict is "relevant" |
| Runs.ExecuteSqlNeverCrashes | backend/src/controllers/graph.ts:279-285 | a crashed invocation did not crash in executeSql, so a failed query still reaches the summary node |
| Runs.HeadLogs | backend/src/controllers/graph.ts:134-136 | connect, getSchema and isQuestionRelevant together log the check line, plus the verdict line when there is a question |
| Runs.AnswerTailLogs | backend/src/controllers/graph.ts:229-230 | the SQL and summary nodes add one line each, in order |
| Runs.AnswerLogs | backend/src/controllers/graph.ts:166-168 | the answer route, begun with an empty log, logs the check, "Relevance : relevant", and the three SQL and summary lines |
| Runs.DeclineLogs | backend/src/controllers/graph.ts:203-205 | the decline route logs the check, the verdict line when there was a question, and the playful-answer line |
| Runs.CompletedLogs | backend/src/controllers/graph.ts:130-322 | the final log of a completed invocation, route by route; without a question the run always declines and logs exactly two lines |
| Routes.Get | backend/src/routes/db.routes.ts:117-119 | reading a property gives a value it holds, and nothing exactly when no property has the key |
| Routes.Delete | backend/src/routes/db.routes.ts:117-118 | `delete` removes the key, leaves every other key's value as it was, and adds no entry |
| Routes.Assign | backend/src/routes/db.routes.ts:119 | assignment sets the key, leaves every other key as it was, and appends a new key at the end |
| Routes.StateObject | backend/src/routes/db.routes.ts:105-119 | the resolved state has ten properties; only `db` can hold a database handle, and it holds one exactly when the state has one |
| Routes.StateObjectChannels | backend/src/routes/db.routes.ts:105-119 | each channel is the property under its own name, with the channel's value or `null`; `db` holds the handle, or `null` when there is none |
| Routes.Redact | backend/src/routes/db.routes.ts:117-118 | after redaction there is no `db` and no `schema`, and every other property is unchanged |
| Routes.RedactedHasNoDatabase | backend/src/routes/db.routes.ts:117-118 | the redacted state holds no database handle anywhere |
| Routes.Publish | backend/src/routes/db.routes.ts:117-119 | the `/execute` data has no `db` or `schema`, has the request's `threadId`, and every other property as the final state has it |
| Routes.PublishShows | backend/src/routes/db.routes.ts:117-123 | the `/execute` data carries the final verdict and log unchanged |
| Routes.PublishHidesDatabase | backend/src/routes/db.routes.ts:117-123 | the `/execute` data holds no database handle |
| Routes.PublishChannels | backend/src/routes/db.routes.ts:117-123 | the `/execute` data carries `question`, `query`, `result`, `query_result`, `connection_id` and `human_readable_response` exactly as the final state holds them |
| Routes.Record | backend/src/routes/db.routes.ts:42-52 | the new record's text fields are all non-empty, it has the fresh id and no tables, its type is supported exactly when the form names "PostgreSQL" or "MySQL", and a port of decimal digits becomes its number |
| Routes.CreateRoute | backend/src/routes/db.routes.ts:18-82 | 400 and no change without all seven fields; the registry grows only on a 201, by exactly the reported record; a save needs a supported type, a passing probe and an answering table query; a failed probe gives 500 and no change; the record has the numeric port, the fresh id and the probed table names |
| Routes.FindAppend | backend/src/routes/db.routes.ts:76 | appending an entry changes no lookup that already succeeded, and a failing lookup finds the new entry exactly when the ids match |
| Routes.AppendKeepsRegistry | backend/src/routes/db.routes.ts:76 | appending a supported, filled entry under a fresh id keeps the registry valid, finds the entry, and changes no other lookup |
| Routes.CreateKeepsRegistry | backend/src/routes/db.routes.ts:42-76 | saving with a fresh id keeps ids distinct, types supported and fields filled; the saved record is found under its id, and every other lookup is unchanged |
| Routes.ListingShowsSaved | backend/src/routes/db.routes.ts:12-16 | after a save, the listing is the old registry with the saved record last |
| Routes.TestRoute | backend/src/routes/db.routes.ts:84-101 | 404 exactly for an absent or unknown id; 200 exactly when the found entry's database answers the probe; on a valid registry a response is always sent |
| Routes.ExecuteRoute | backend/src/routes/db.routes.ts:103-124 | a response is sent exactly when the invocation completes; it is 200 with the published final state and the request's thread id; a node's error rejects the handler |
| Routes.ExecuteNeverHitsLimit | backend/src/routes/db.routes.ts:105-115 | the runtime's recursion limit never ends a request: every rejection is a node's own error |
| Routes.ExecuteResponse | backend/src/routes/db.routes.ts:103-124 | the response says "relevant" exactly when its log records the SQL steps; without a question it declines with two log lines; it holds no handle and no schema |
| Routes.ApproveRoute | backend/src/routes/db.routes.ts:126-140 | resumes the caller's thread id; sends 200 exactly when resuming succeeds, with no `db` or `schema` and every other property of the resumed state |
| Routes.ApproveAddsNoThreadId | backend/src/routes/db.routes.ts:126-140 | `/approve` attaches no `threadId` |
| Routes.SampleQueryRoundTrip | backend/src/routes/db.routes.ts:155-157 | the table name can be read back from the sample query, so distinct names give distinct queries |
| Routes.SampleQuoting | backend/src/routes/db.routes.ts:155-157 | the query's only double quotes are the two around the name exactly when the name has none |
| Routes.SampleRoute | backend/src/routes/db.routes.ts:142-162 | 404 exactly for an unknown id; otherwise `SELECT * FROM "<table>" LIMIT 3` is run and its rows sent with 200, or its error rejects the handler; on a valid registry the `Database` always opens |

## Left out

- The language model, its prompts and chains are oracles. A prompt is identified only by the inputs it embeds.
- The drivers are oracles: the pg and mysql2 pools, and `testConnection` (which catches every error and returns false).
- MySQL replies that are not a row array, such as the result header of a non-`SELECT`, are not modelled. A reply is rows or no row array.
- Express is not modelled: routing, body parsing, JSON serialisation and the unhandled-rejection behaviour. A thrown error in a handler is `Rejected`, and no response is sent.
- `console.log` and `console.error` output, `dotenv`, `readline` and the commented-out `main` loop are left out.
- uuid generation is left out. Fresh ids are parameters, and freshness is a precondition where it matters.
- async scheduling and concurrent requests are left out. Each handler is one atomic step on the registry.
- Checkpointing and resume are left out. The graph is compiled with no checkpointer, so `graph.invoke(null, {thread_id})` is an oracle `ResumeFn`, and no checkpoint store is modelled.
- The recursion limit is modelled as fuel 25 with its own error text. The runtime's exact message and its off-by-one conventions are not modelled.
- Absent and `null` channels are both `None`, and the state object lists every channel, `null` included. The runtime's choice of which unwritten keys to emit is not modelled.
- Body fields of the wrong type are left out. A body field is absent or a string, and a numeric `port` in the JSON body is not modelled.
- A repeated `table` query parameter, which would be an array, is left out.
- Strings.ToNumber: handles white space and decimal digits only. It gives `NaN` for signs, fractions, exponents, hexadecimal and `Infinity`, which `Number()` would accept. It also keeps the exact natural number, where `Number()` rounds a long digit string to the nearest double and gives `Infinity` past about 309 digits.
- Connection.Render: renders integers only. JavaScript's number formatting of fractions and exponents, dates and nested objects is not modelled.
- Strings.Lower: maps ASCII only. Non-ASCII case mapping is left out.
- Strings.Upper: maps ASCII only.
- The React UI and its fetch wrappers are outside the backend core.
