/** Running a compiled graph: from the node after `START`, run a node, merge
    its effect, follow the edges to the next node, until `END`, a thrown
    error, or the step budget runs out. The runner sees the graph only as a
    step function; `Compiled` builds that function for the question-answering
    graph and the `Compiled...` lemmas state what the runner may rely on. */
module Runner {
  import opened Wrappers
  import opened PipelineState
  import opened Workflow
  import opened Steps

  /** One node run: the node and the state it was handed. */
  datatype Visit = Visit(node: Node, input: State)

  /** How a run ends: at `END` with the final state, with the error a node
      threw, or out of steps. Each carries the nodes run, in order. */
  datatype Outcome =
    | Completed(final: State, trace: seq<Visit>)
    | Crashed(error: string, trace: seq<Visit>)
    | Exhausted(trace: seq<Visit>)

  /** A graph as the runner sees it: run node `n` on `s`, giving the error it
      threw, or the merged state and where the edges lead (`None` when no
      edge leaves `n` for the routing label). */
  type Stepper = (Node, State) -> Result<(State, Option<Node>), string>

  /** The error raised when a routing label names no declared branch. */
  const InvalidRoute := "Invalid route label"

  /** The error raised when asked to run a marker or a node whose inputs
      are missing; `InvokeBounded` shows it is never raised. */
  const NotRunnable := "Node cannot run on this state"

  /** The question-answering graph, compiled: its node functions and its
      edge list. A step runs only a real node whose inputs are present; it
      gives that node's own error, or the node's merged state and the
      successor the edge list picks for it. */
  function Compiled(env: Env): (step: Stepper)
    ensures forall n, s :: step(n, s).Success? ==>
              && IsStep(n) && Ready(n, s)
              && Execute(env, n, s) == Success(step(n, s).value.0)
              && step(n, s).value.1 == Successor(n, step(n, s).value.0.relevant == Some("relevant"))
    ensures forall n, s :: IsStep(n) && Ready(n, s) && Execute(env, n, s).Failure? ==>
              step(n, s) == Failure(Execute(env, n, s).error)
  {
    (n: Node, s: State) =>
      if IsStep(n) && Ready(n, s) then
        match Execute(env, n, s)
        case Failure(e) => Failure(e)
        case Success(t) => Success((t, Next(n, t)))
      else Failure(NotRunnable)
  }

  /** `o` with `vs` run before it. */
  function After(vs: seq<Visit>, o: Outcome): (r: Outcome)
    ensures r.trace == vs + o.trace
    ensures r.Completed? == o.Completed? && r.Crashed? == o.Crashed?
    ensures r.Completed? ==> r.final == o.final
    ensures r.Crashed? ==> r.error == o.error
  {
    match o
    case Completed(f, t) => Completed(f, vs + t)
    case Crashed(e, t) => Crashed(e, vs + t)
    case Exhausted(t) => Exhausted(vs + t)
  }

  /** The run from node `n` on state `s`, with at most `fuel` node runs.
      Each node run uses one unit of fuel: a run that ran out used all of
      it, and the first node run is `n` on `s`. */
  function Drive(step: Stepper, n: Node, s: State, fuel: nat): (o: Outcome)
    ensures |o.trace| <= fuel
    ensures o.Exhausted? ==> |o.trace| == fuel
    ensures o.trace == [] <==> n == End || fuel == 0
    ensures o.trace != [] ==> o.trace[0] == Visit(n, s)
    decreases fuel
  {
    if n == End then Completed(s, [])
    else if fuel == 0 then Exhausted([])
    else
      match step(n, s)
      case Failure(e) => Crashed(e, [Visit(n, s)])
      case Success((t, next)) =>
        match next
        case None => Crashed(InvalidRoute, [Visit(n, s)])
        case Some(m) => After([Visit(n, s)], Drive(step, m, t, fuel - 1))
  }

  /** `graph.invoke(input)`: run from the node the `START` edge leads to. */
  function Invoke(env: Env, input: State, fuel: nat): (o: Outcome)
    ensures |o.trace| <= fuel
    ensures o.Exhausted? ==> |o.trace| == fuel
    ensures fuel > 0 ==> |o.trace| > 0 && o.trace[0] == Visit(Connect, input)
  {
    Drive(Compiled(env), Next(Start, input).value, input, fuel)
  }

  /** Each visit's state is what the previous node produced, and the previous
      node's edges led to it. */
  predicate Walk(step: Stepper, trace: seq<Visit>) {
    forall i :: 0 <= i < |trace| - 1 ==>
      step(trace[i].node, trace[i].input) == Success((trace[i + 1].input, Some(trace[i + 1].node)))
  }

  /** The last visit of a completed run produced the final state and its
      edges lead to `END`. */
  predicate EndsAt(step: Stepper, trace: seq<Visit>, final: State) {
    |trace| > 0 && step(trace[|trace| - 1].node, trace[|trace| - 1].input) == Success((final, Some(End)))
  }

  /** The last visit of a crashed run threw `error`, or its routing label
      named no branch. */
  predicate CrashesAt(step: Stepper, trace: seq<Visit>, error: string) {
    && |trace| > 0
    && var r := step(trace[|trace| - 1].node, trace[|trace| - 1].input);
       r == Failure(error) || (r.Success? && r.value.1.None? && error == InvalidRoute)
  }

  /** The runner follows the graph: the run starts at `n` on `s`, every hop
      is the node's own result and edge, a completed run ends with an edge
      to `END` and a crash is the last node's own failure. */
  lemma {:induction false} DriveFollowsGraph(step: Stepper, n: Node, s: State, fuel: nat)
    ensures var o := Drive(step, n, s, fuel);
            && Walk(step, o.trace)
            && (o.trace != [] ==> o.trace[0] == Visit(n, s))
            && (forall k :: 0 <= k < |o.trace| ==> o.trace[k].node != End)
            && (o.Completed? && n != End ==> EndsAt(step, o.trace, o.final))
            && (o.Crashed? ==> CrashesAt(step, o.trace, o.error))
    ensures n == End ==> Drive(step, n, s, fuel) == Completed(s, [])
    decreases fuel
  {
    if n != End && fuel > 0 && step(n, s).Success? && step(n, s).value.1.Some? {
      var (t, next) := step(n, s).value;
      var m := next.value;
      DriveFollowsGraph(step, m, t, fuel - 1);
      var rest := Drive(step, m, t, fuel - 1);
      assert Drive(step, n, s, fuel) == After([Visit(n, s)], rest);
      if m == End {
        assert rest == Completed(t, []);
      } else if rest.Crashed? {
        assert rest.trace[|rest.trace| - 1] == Drive(step, n, s, fuel).trace[|rest.trace|];
      }
    }
  }

  /** A step function that only runs real nodes and whose edges agree with
      the successor table. */
  ghost predicate Routed(step: Stepper) {
    forall n, s :: step(n, s).Success? ==>
      IsStep(n) && step(n, s).value.1 == Successor(n, step(n, s).value.0.relevant == Some("relevant"))
  }

  /** The compiled graph runs only real nodes and routes by the table. */
  lemma CompiledRouted(env: Env)
    ensures Routed(Compiled(env))
  {
    forall n, s | Compiled(env)(n, s).Success?
      ensures IsStep(n) &&
              Compiled(env)(n, s).value.1 == Successor(n, Compiled(env)(n, s).value.0.relevant == Some("relevant"))
    {
    }
  }

  /** Under a routed step every hop lowers the rank, so the nodes of a run
      never repeat and there are at most `Rank(n)` of them. */
  lemma {:induction false} DriveRanks(step: Stepper, n: Node, s: State, fuel: nat)
    requires Routed(step)
    ensures var tr := Drive(step, n, s, fuel).trace;
            |tr| <= Rank(n) &&
            (forall k :: 0 <= k < |tr| ==> Rank(tr[k].node) <= Rank(n)) &&
            (forall i, j :: 0 <= i < j < |tr| ==> Rank(tr[j].node) < Rank(tr[i].node))
    decreases fuel
  {
    if n != End && fuel > 0 && step(n, s).Success? && step(n, s).value.1.Some? {
      var (t, next) := step(n, s).value;
      DriveRanks(step, next.value, t, fuel - 1);
      var rest := Drive(step, next.value, t, fuel - 1).trace;
      assert Drive(step, n, s, fuel).trace == [Visit(n, s)] + rest;
      assert Rank(next.value) < Rank(n);
    }
  }

  /** Under a routed step, a budget of `Rank(n)` node runs is enough: the
      run reaches `END` or a node throws. */
  lemma {:induction false} DriveTerminates(step: Stepper, n: Node, s: State, fuel: nat)
    requires Routed(step)
    requires fuel >= Rank(n)
    ensures !Drive(step, n, s, fuel).Exhausted?
    decreases fuel
  {
    if n != End && step(n, s).Success? && step(n, s).value.1.Some? {
      var (t, next) := step(n, s).value;
      DriveTerminates(step, next.value, t, fuel - 1);
    }
  }

  /** A step function under which a node that can run hands the next node a
      state it can run on. */
  ghost predicate KeepsReady(step: Stepper) {
    forall n, s :: Ready(n, s) && step(n, s).Success? && step(n, s).value.1.Some? ==>
      Ready(step(n, s).value.1.value, step(n, s).value.0)
  }

  lemma CompiledKeepsReady(env: Env)
    ensures KeepsReady(Compiled(env))
  {
    var step := Compiled(env);
    forall n, s | Ready(n, s) && step(n, s).Success? && step(n, s).value.1.Some?
      ensures Ready(step(n, s).value.1.value, step(n, s).value.0)
    {
      StepKeepsReady(env, n, s);
    }
  }

  /** Along a walk that starts on a state its node can run on, every visit
      can run. */
  lemma {:induction false} WalkReady(step: Stepper, trace: seq<Visit>)
    requires KeepsReady(step) && Walk(step, trace)
    requires |trace| > 0 && Ready(trace[0].node, trace[0].input)
    ensures forall i :: 0 <= i < |trace| ==> Ready(trace[i].node, trace[i].input)
    decreases |trace|
  {
    if |trace| > 1 {
      assert step(trace[0].node, trace[0].input) == Success((trace[1].input, Some(trace[1].node)));
      var tail := trace[1..];
      assert Walk(step, tail) by {
        forall i | 0 <= i < |tail| - 1
          ensures step(tail[i].node, tail[i].input) == Success((tail[i + 1].input, Some(tail[i + 1].node)))
        {
          assert tail[i] == trace[i + 1] && tail[i + 1] == trace[i + 2];
        }
      }
      WalkReady(step, tail);
      forall i | 0 <= i < |trace| ensures Ready(trace[i].node, trace[i].input) {
        if i > 0 { assert trace[i] == tail[i - 1]; }
      }
    }
  }

  /** Every invocation ends within six node runs, visits no node twice,
      runs every node on a state it can run on, and follows the graph from
      `connect`. A crash is a node's own error, never a routing failure. */
  lemma InvokeBounded(env: Env, input: State, fuel: nat)
    requires fuel >= 6
    ensures !Invoke(env, input, fuel).Exhausted?
    ensures var tr := Invoke(env, input, fuel).trace;
            |tr| <= 6 && (forall i, j :: 0 <= i < j < |tr| ==> tr[i].node != tr[j].node)
    ensures var o := Invoke(env, input, fuel);
            && Walk(Compiled(env), o.trace)
            && (o.trace != [] ==> o.trace[0] == Visit(Connect, input))
            && (forall i :: 0 <= i < |o.trace| ==> IsStep(o.trace[i].node) && Ready(o.trace[i].node, o.trace[i].input))
    ensures var o := Invoke(env, input, fuel);
            o.Completed? ==> EndsAt(Compiled(env), o.trace, o.final)
    ensures var o := Invoke(env, input, fuel);
            o.Crashed? ==>
              var v := o.trace[|o.trace| - 1];
              IsStep(v.node) && Ready(v.node, v.input) && Execute(env, v.node, v.input) == Failure(o.error)
  {
    var step := Compiled(env);
    CompiledRouted(env);
    CompiledKeepsReady(env);
    DriveTerminates(step, Connect, input, fuel);
    DriveRanks(step, Connect, input, fuel);
    DriveFollowsGraph(step, Connect, input, fuel);
    var o := Invoke(env, input, fuel);
    assert o == Drive(step, Connect, input, fuel);
    if o.trace != [] {
      WalkReady(step, o.trace);
      WalkNodes(step, o.trace);
      if o.Crashed? {
        var v := o.trace[|o.trace| - 1];
        assert CrashesAt(step, o.trace, o.error);
        if Execute(env, v.node, v.input).Success? {
        }
      }
    }
  }

  /** Under a routed step, a walk from `connect` that never reaches `END`
      runs only real nodes: no edge leads back to `START`. */
  lemma WalkNodes(step: Stepper, trace: seq<Visit>)
    requires Routed(step) && Walk(step, trace)
    requires |trace| > 0 && trace[0].node == Connect
    requires forall k :: 0 <= k < |trace| ==> trace[k].node != End
    ensures forall i :: 0 <= i < |trace| ==> IsStep(trace[i].node)
  {
    forall i | 0 <= i < |trace| ensures IsStep(trace[i].node) {
      if i > 0 {
        var p := trace[i - 1];
        assert step(p.node, p.input) == Success((trace[i].input, Some(trace[i].node)));
        assert Some(trace[i].node) == Successor(p.node, trace[i].input.relevant == Some("relevant"));
      }
    }
  }
}
