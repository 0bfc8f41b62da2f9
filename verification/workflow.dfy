/** The shape of the question-answering graph: its seven named nodes, the
    edge list handed to the graph builder, and the routing function on the
    one conditional edge. */
module Workflow {
  import opened Wrappers
  import opened PipelineState

  /** The nodes, with the builder's two markers `START` and `END`. */
  datatype Node =
    | Start
    | Connect
    | GetSchema
    | IsRelevant
    | ConvertToSql
    | GenerateFunnyResponse
    | ExecuteSql
    | GenerateHumarReadableResponse
    | End

  /** A node that runs a step (every node but the two markers). */
  predicate IsStep(n: Node) {
    !n.Start? && !n.End?
  }

  /** An edge as given to the builder: unconditional, or routed by tag. */
  datatype Edge =
    | Direct(from: Node, to: Node)
    | Conditional(from: Node, branches: seq<(string, Node)>)

  /** The edges, in the order they are added to the builder. */
  const Edges: seq<Edge> := [
    Direct(Start, Connect),
    Direct(Connect, GetSchema),
    Direct(GetSchema, IsRelevant),
    Conditional(IsRelevant, [("yes", ConvertToSql), ("no", GenerateFunnyResponse)]),
    Direct(ConvertToSql, ExecuteSql),
    Direct(ExecuteSql, GenerateHumarReadableResponse),
    Direct(GenerateFunnyResponse, End),
    Direct(GenerateHumarReadableResponse, End)
  ]

  /** `shouldContinue`: "yes" exactly when the verdict is "relevant"; every
      other verdict, a missing one included, gives "no". */
  function ShouldContinue(s: State): (verdict: string)
    ensures verdict == "yes" <==> s.relevant == Some("relevant")
    ensures verdict == "yes" || verdict == "no"
  {
    if s.relevant == Some("relevant") then "yes" else "no"
  }

  /** The destination a tag names among `branches`, if any. */
  function LookupBranch(branches: seq<(string, Node)>, tag: string): (r: Option<Node>)
    ensures r.Some? ==> (tag, r.value) in branches
    ensures r.None? ==> forall i :: 0 <= i < |branches| ==> branches[i].0 != tag
  {
    if branches == [] then None
    else if branches[0].0 == tag then Some(branches[0].1)
    else LookupBranch(branches[1..], tag)
  }

  /** Edge `e` leads to `m` under routing tag `tag`. */
  predicate Leads(e: Edge, tag: string, m: Node) {
    match e
    case Direct(_, to) => to == m
    case Conditional(_, branches) => LookupBranch(branches, tag) == Some(m)
  }

  /** Where the first edge leaving `n` leads, given the routing tag; `None`
      when no edge leaves `n` or the tag is not declared. */
  function Route(edges: seq<Edge>, n: Node, tag: string): (r: Option<Node>)
    ensures r.Some? ==> exists i :: 0 <= i < |edges| && edges[i].from == n && Leads(edges[i], tag, r.value)
                                    && forall j :: 0 <= j < i ==> edges[j].from != n
    ensures (forall i :: 0 <= i < |edges| ==> edges[i].from != n) ==> r.None?
    ensures forall i :: 0 <= i < |edges| && edges[i].from == n && (forall j :: 0 <= j < i ==> edges[j].from != n) ==>
              && (edges[i].Direct? ==> r == Some(edges[i].to))
              && (edges[i].Conditional? ==> r == LookupBranch(edges[i].branches, tag))
  {
    if edges == [] then None
    else if edges[0].from == n then
      match edges[0]
      case Direct(_, to) => Some(to)
      case Conditional(_, branches) => LookupBranch(branches, tag)
    else
      var r := Route(edges[1..], n, tag);
      assert r.Some? ==> exists i :: 0 <= i < |edges| && edges[i].from == n && Leads(edges[i], tag, r.value)
                                     && forall j :: 0 <= j < i ==> edges[j].from != n by {
        if r.Some? {
          var i :| 0 <= i < |edges[1..]| && edges[1..][i].from == n && Leads(edges[1..][i], tag, r.value)
                   && forall j :: 0 <= j < i ==> edges[1..][j].from != n;
          assert edges[i + 1] == edges[1..][i];
          forall j | 0 <= j < i + 1 ensures edges[j].from != n {
            if j > 0 { assert edges[j] == edges[1..][j - 1]; }
          }
        }
      }
      forall i | 0 < i < |edges| && edges[i].from == n && (forall j :: 0 <= j < i ==> edges[j].from != n)
        ensures && (edges[i].Direct? ==> r == Some(edges[i].to))
                && (edges[i].Conditional? ==> r == LookupBranch(edges[i].branches, tag))
      {
        assert edges[1..][i - 1] == edges[i];
        forall j | 0 <= j < i - 1 ensures edges[1..][j].from != n {
          assert edges[1..][j] == edges[j + 1];
        }
      }
      r
  }

  /** The node after `n` once `n` has produced state `s`: the successor
      table's entry, on the "yes" branch exactly for a "relevant" verdict. */
  function Next(n: Node, s: State): (r: Option<Node>)
    ensures r == Successor(n, s.relevant == Some("relevant"))
  {
    RouteTable(n, ShouldContinue(s));
    Route(Edges, n, ShouldContinue(s))
  }

  /** `b` directly follows `a` in the edge list, for some tag. */
  predicate IsEdge(a: Node, b: Node) {
    exists i :: 0 <= i < |Edges| && Edges[i].from == a &&
      (match Edges[i]
       case Direct(_, to) => to == b
       case Conditional(_, branches) => exists j :: 0 <= j < |branches| && branches[j].1 == b)
  }

  /** The successor table, written out node by node: the straight chain
      START, connect, getSchema, isRelevant; "yes" on to convertToSQL,
      executeSql, generateHumarReadableResponse and END; "no" on to
      generateFunnyResponse and END. */
  function Successor(n: Node, relevant: bool): Option<Node>
  {
    match n
    case Start => Some(Connect)
    case Connect => Some(GetSchema)
    case GetSchema => Some(IsRelevant)
    case IsRelevant => Some(if relevant then ConvertToSql else GenerateFunnyResponse)
    case ConvertToSql => Some(ExecuteSql)
    case ExecuteSql => Some(GenerateHumarReadableResponse)
    case GenerateFunnyResponse => Some(End)
    case GenerateHumarReadableResponse => Some(End)
    case End => None
  }

  /** Following the edge list under either routing tag agrees with the
      successor table. */
  lemma RouteTable(n: Node, tag: string)
    requires tag == "yes" || tag == "no"
    ensures Route(Edges, n, tag) == Successor(n, tag == "yes")
  {
    if n == End {
      NoEdgeLeavesEnd();
    } else {
      RouteLeaving(n, tag);
    }
  }

  /** The nodes the edges leave, in order. */
  const Sources: seq<Node> := [Start, Connect, GetSchema, IsRelevant, ConvertToSql, ExecuteSql,
                               GenerateFunnyResponse, GenerateHumarReadableResponse]

  /** A node other than `END` follows its one leaving edge. */
  lemma RouteLeaving(n: Node, tag: string)
    requires n != End
    ensures Edges[FirstLeaving(n)].Direct? ==> Route(Edges, n, tag) == Some(Edges[FirstLeaving(n)].to)
    ensures Edges[FirstLeaving(n)].Conditional? ==>
              Route(Edges, n, tag) == LookupBranch(Edges[FirstLeaving(n)].branches, tag)
  {
    var k := FirstLeaving(n);
    FirstLeavingFirst(n, k);
    RouteFirst(Edges, n, tag, k);
  }

  /** `END` is no edge's source. */
  lemma NoEdgeLeavesEnd()
    ensures forall i :: 0 <= i < |Edges| ==> Edges[i].from != End
  {
    forall i | 0 <= i < |Edges| ensures Edges[i].from != End {
      assert Edges[i].from == Sources[i];
    }
  }

  /** The index of the one edge leaving `n`; `END` has none. */
  function FirstLeaving(n: Node): (k: nat)
    requires n != End
    ensures k < |Edges| && Edges[k].from == n
  {
    match n
    case Start => 0
    case Connect => 1
    case GetSchema => 2
    case IsRelevant => 3
    case ConvertToSql => 4
    case ExecuteSql => 5
    case GenerateFunnyResponse => 6
    case GenerateHumarReadableResponse => 7
  }

  /** No edge before `FirstLeaving(n)` leaves `n`. */
  lemma FirstLeavingFirst(n: Node, k: nat)
    requires n != End && k == FirstLeaving(n)
    ensures forall j :: 0 <= j < k ==> Edges[j].from != n
  {
    forall j | 0 <= j < k ensures Edges[j].from != n {
      assert Edges[j].from == Sources[j];
    }
  }

  /** Routing follows the first edge leaving `n`, whatever the list. */
  lemma RouteFirst(edges: seq<Edge>, n: Node, tag: string, k: nat)
    requires k < |edges| && edges[k].from == n
    requires forall j :: 0 <= j < k ==> edges[j].from != n
    ensures edges[k].Direct? ==> Route(edges, n, tag) == Some(edges[k].to)
    ensures edges[k].Conditional? ==> Route(edges, n, tag) == LookupBranch(edges[k].branches, tag)
  {
  }

  /** Routing never fails: every node but `END` has a successor for every
      state, and the routing function's labels are all declared. */
  lemma RoutingTotal(n: Node, s: State)
    requires n != End
    ensures Next(n, s).Some?
  {
  }

  /** Every successor `Next` picks is an edge of the list. */
  lemma NextIsEdge(n: Node, s: State)
    requires Next(n, s).Some?
    ensures IsEdge(n, Next(n, s).value)
  {
    SuccessorIsEdge(n, s.relevant == Some("relevant"));
  }

  /** Every entry of the successor table is an edge of the list. */
  lemma SuccessorIsEdge(n: Node, relevant: bool)
    requires Successor(n, relevant).Some?
    ensures IsEdge(n, Successor(n, relevant).value)
  {
    var e := Edges;
    match n
    case Start => assert e[0].from == Start;
    case Connect => assert e[1].from == Connect;
    case GetSchema => assert e[2].from == GetSchema;
    case IsRelevant =>
      assert e[3].from == IsRelevant;
      if relevant {
        assert e[3].branches[0].1 == ConvertToSql;
      } else {
        assert e[3].branches[1].1 == GenerateFunnyResponse;
      }
    case ConvertToSql => assert e[4].from == ConvertToSql;
    case ExecuteSql => assert e[5].from == ExecuteSql;
    case GenerateFunnyResponse => assert e[6].from == GenerateFunnyResponse;
    case GenerateHumarReadableResponse => assert e[7].from == GenerateHumarReadableResponse;
  }

  /** The longest number of steps left from each node to `END`. */
  function Rank(n: Node): (r: nat)
    ensures n == End <==> r == 0
  {
    match n
    case Start => 7
    case Connect => 6
    case GetSchema => 5
    case IsRelevant => 4
    case ConvertToSql => 3
    case ExecuteSql => 2
    case GenerateFunnyResponse => 1
    case GenerateHumarReadableResponse => 1
    case End => 0
  }

  /** Every edge taken strictly lowers the rank, so the graph has no cycle. */
  lemma NextLowersRank(n: Node, s: State)
    requires Next(n, s).Some?
    ensures Rank(Next(n, s).value) < Rank(n)
  {
  }

  /** Every edge in the list strictly lowers the rank. */
  lemma EdgesLowerRank(a: Node, b: Node)
    requires IsEdge(a, b)
    ensures Rank(b) < Rank(a)
  {
    var i :| 0 <= i < |Edges| && Edges[i].from == a &&
      (match Edges[i]
       case Direct(_, to) => to == b
       case Conditional(_, branches) => exists j :: 0 <= j < |branches| && branches[j].1 == b);
    if Edges[i].Conditional? {
      var j :| 0 <= j < |Edges[i].branches| && Edges[i].branches[j].1 == b;
    }
  }

  /** Consecutive nodes of `p` are joined by edges of the list. */
  predicate IsPath(p: seq<Node>) {
    forall i :: 0 <= i < |p| - 1 ==> IsEdge(p[i], p[i + 1])
  }

  /** The run for a relevant question, markers included. */
  const AnswerRoute: seq<Node> :=
    [Start, Connect, GetSchema, IsRelevant, ConvertToSql, ExecuteSql, GenerateHumarReadableResponse, End]

  /** The run for any other verdict, markers included. */
  const DeclineRoute: seq<Node> :=
    [Start, Connect, GetSchema, IsRelevant, GenerateFunnyResponse, End]

  lemma AnswerRouteIsPath()
    ensures IsPath(AnswerRoute)
  {
    forall i | 0 <= i < |AnswerRoute| - 1 ensures IsEdge(AnswerRoute[i], AnswerRoute[i + 1]) {
      assert Successor(AnswerRoute[i], true) == Some(AnswerRoute[i + 1]);
      SuccessorIsEdge(AnswerRoute[i], true);
    }
  }

  lemma DeclineRouteIsPath()
    ensures IsPath(DeclineRoute)
  {
    forall i | 0 <= i < |DeclineRoute| - 1 ensures IsEdge(DeclineRoute[i], DeclineRoute[i + 1]) {
      assert Successor(DeclineRoute[i], false) == Some(DeclineRoute[i + 1]);
      SuccessorIsEdge(DeclineRoute[i], false);
    }
  }

  /** Every node is reached from `START` along edges of the list. */
  lemma AllReachable(n: Node)
    ensures exists p :: |p| > 0 && p[0] == Start && p[|p| - 1] == n && IsPath(p)
  {
    AnswerRouteIsPath();
    DeclineRouteIsPath();
    var p :=
      match n
      case Start => AnswerRoute[..1]
      case Connect => AnswerRoute[..2]
      case GetSchema => AnswerRoute[..3]
      case IsRelevant => AnswerRoute[..4]
      case ConvertToSql => AnswerRoute[..5]
      case ExecuteSql => AnswerRoute[..6]
      case GenerateHumarReadableResponse => AnswerRoute[..7]
      case End => AnswerRoute
      case GenerateFunnyResponse => DeclineRoute[..5];
    assert IsPath(p);
  }
}
