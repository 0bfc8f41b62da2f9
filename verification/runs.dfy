/** What a whole invocation of the question-answering graph does: which
    nodes run, when the SQL nodes may run at all, and what ends up in the
    log. */
module Runs {
  import opened Wrappers
  import opened Strings
  import opened PipelineState
  import opened Workflow
  import opened Steps
  import opened Runner

  /** What the trace-level properties need of each node run: the question
      is never changed, only getSchema and isQuestionRelevant change the
      verdict, isQuestionRelevant always leaves one and a "relevant" one
      needs a question, and the log grows by
      exactly the lines the node logs. */
  ghost predicate Tracks(step: Stepper) {
    forall n, s :: step(n, s).Success? ==>
      var t := step(n, s).value.0;
      && t.question == s.question
      && (n != GetSchema && n != IsRelevant ==> t.relevant == s.relevant)
      && (n == IsRelevant ==> t.relevant.Some?)
      && (n == IsRelevant && t.relevant == Some("relevant") ==> Truthy(s.question))
      && t.logs == s.logs + Logged(n, s, t)
  }

  /** The compiled graph's nodes behave as `Tracks` requires. */
  lemma CompiledTracks(env: Env)
    ensures Tracks(Compiled(env))
  {
    var step := Compiled(env);
    forall n, s | step(n, s).Success?
      ensures var t := step(n, s).value.0;
              && t.question == s.question
              && (n != GetSchema && n != IsRelevant ==> t.relevant == s.relevant)
              && (n == IsRelevant ==> t.relevant.Some?)
              && (n == IsRelevant && t.relevant == Some("relevant") ==> Truthy(s.question))
              && t.logs == s.logs + Logged(n, s, t)
    {
      StepKeepsQuestion(env, n, s);
      StepLogs(env, n, s);
      if n == IsRelevant {
        RelevantNeedsQuestion(env, s);
      }
    }
  }

  /** The visits of a walk all see the question of its first visit. */
  lemma {:induction false} QuestionAlongWalk(step: Stepper, trace: seq<Visit>, i: nat)
    requires Tracks(step) && Walk(step, trace)
    requires i < |trace|
    ensures trace[i].input.question == trace[0].input.question
    decreases i
  {
    if i > 0 {
      QuestionAlongWalk(step, trace, i - 1);
      assert step(trace[i - 1].node, trace[i - 1].input) == Success((trace[i].input, Some(trace[i].node)));
    }
  }

  /** Under a routed step, the node a hop leads to is the table's successor. */
  lemma HopRoute(step: Stepper, a: Visit, b: Visit)
    requires Routed(step)
    requires step(a.node, a.input) == Success((b.input, Some(b.node)))
    ensures Successor(a.node, b.input.relevant == Some("relevant")) == Some(b.node)
  {
  }

  /** A convertToSQL visit directly follows an isQuestionRelevant visit that
      said "relevant" to the walk's question. */
  lemma ConvertAfterVerdict(step: Stepper, tr: seq<Visit>, i: nat)
    requires Routed(step) && Tracks(step) && Walk(step, tr)
    requires |tr| > 0 && tr[0].node == Connect
    requires i < |tr| && tr[i].node == ConvertToSql
    ensures i > 0 && tr[i - 1].node == IsRelevant
    ensures tr[i].input.relevant == Some("relevant") && Truthy(tr[0].input.question)
  {
    HopRoute(step, tr[i - 1], tr[i]);
    assert tr[i - 1].node == IsRelevant;
    QuestionAlongWalk(step, tr, i - 1);
  }

  /** Along a walk from connect, the SQL nodes only see a "relevant" verdict
      on the walk's own question, and that question is present. */
  lemma SqlOnlyAfterVerdict(step: Stepper, tr: seq<Visit>)
    requires Routed(step) && Tracks(step) && Walk(step, tr)
    requires |tr| > 0 && tr[0].node == Connect
    ensures forall i :: 0 <= i < |tr| && (tr[i].node == ConvertToSql || tr[i].node == ExecuteSql) ==>
              && tr[i].input.relevant == Some("relevant")
              && Truthy(tr[0].input.question)
              && tr[i].input.question == tr[0].input.question
  {
    forall i | 0 <= i < |tr| && (tr[i].node == ConvertToSql || tr[i].node == ExecuteSql)
      ensures && tr[i].input.relevant == Some("relevant")
              && Truthy(tr[0].input.question)
              && tr[i].input.question == tr[0].input.question
    {
      QuestionAlongWalk(step, tr, i);
      if tr[i].node == ConvertToSql {
        ConvertAfterVerdict(step, tr, i);
      } else {
        HopRoute(step, tr[i - 1], tr[i]);
        assert tr[i - 1].node == ConvertToSql;
        ConvertAfterVerdict(step, tr, i - 1);
        assert step(tr[i - 1].node, tr[i - 1].input) == Success((tr[i].input, Some(tr[i].node)));
      }
    }
  }

  /** Fail-closed: convertToSQL and executeSql run only on a state whose
      verdict is "relevant", which in turn needs the question the run was
      invoked with to be present and the model to have called it relevant.
      This holds for every budget and every way the run ends. */
  lemma SqlOnlyWhenRelevant(env: Env, input: State, fuel: nat)
    ensures var tr := Invoke(env, input, fuel).trace;
            forall i :: 0 <= i < |tr| && (tr[i].node == ConvertToSql || tr[i].node == ExecuteSql) ==>
              && tr[i].input.relevant == Some("relevant")
              && Truthy(input.question)
              && tr[i].input.question == input.question
  {
    var step := Compiled(env);
    CompiledRouted(env);
    CompiledTracks(env);
    DriveFollowsGraph(step, Connect, input, fuel);
    var tr := Invoke(env, input, fuel).trace;
    assert tr == Drive(step, Connect, input, fuel).trace;
    if tr != [] {
      SqlOnlyAfterVerdict(step, tr);
    }
  }

  /** The two routes a completed run can take, `START` and `END` left out. */
  const AnswerNodes: seq<Node> :=
    [Connect, GetSchema, IsRelevant, ConvertToSql, ExecuteSql, GenerateHumarReadableResponse]
  const DeclineNodes: seq<Node> :=
    [Connect, GetSchema, IsRelevant, GenerateFunnyResponse]

  function Nodes(trace: seq<Visit>): (r: seq<Node>)
    ensures |r| == |trace|
    ensures forall i :: 0 <= i < |trace| ==> r[i] == trace[i].node
  {
    seq(|trace|, i requires 0 <= i < |trace| => trace[i].node)
  }

  /** The first `i` visits of `trace` are the first `i` nodes of `route`. */
  predicate FollowsUpTo(trace: seq<Visit>, route: seq<Node>, i: nat) {
    i <= |trace| && i <= |route| && forall k :: 0 <= k < i ==> trace[k].node == route[k]
  }

  /** Under a routed step, a walk from connect that never reaches `END`
      follows one of the two routes for as long as it lasts. */
  lemma {:induction false} WalkPrefix(step: Stepper, trace: seq<Visit>, i: nat)
    requires Routed(step) && Walk(step, trace)
    requires |trace| > 0 && trace[0].node == Connect
    requires forall k :: 0 <= k < |trace| ==> trace[k].node != End
    requires 1 <= i <= |trace|
    ensures FollowsUpTo(trace, AnswerNodes, i) || FollowsUpTo(trace, DeclineNodes, i)
    decreases i
  {
    if i > 1 {
      WalkPrefix(step, trace, i - 1);
      HopRoute(step, trace[i - 2], trace[i - 1]);
    }
  }

  /** Under a routed step, a walk from connect whose last edge leads to
      `END` ran one of the two routes in full. */
  lemma WalkRoute(step: Stepper, trace: seq<Visit>, final: State)
    requires Routed(step) && Walk(step, trace)
    requires |trace| > 0 && trace[0].node == Connect
    requires forall k :: 0 <= k < |trace| ==> trace[k].node != End
    requires EndsAt(step, trace, final)
    ensures Nodes(trace) == AnswerNodes || Nodes(trace) == DeclineNodes
  {
    WalkPrefix(step, trace, |trace|);
    var last := trace[|trace| - 1];
    HopRoute(step, last, Visit(End, final));
    if FollowsUpTo(trace, AnswerNodes, |trace|) {
      assert last.node == AnswerNodes[|trace| - 1];
      assert Nodes(trace) == AnswerNodes;
    } else {
      assert last.node == DeclineNodes[|trace| - 1];
      assert Nodes(trace) == DeclineNodes;
    }
  }

  /** A completed walk answered exactly when the final verdict is "relevant". */
  lemma RouteMatchesVerdict(step: Stepper, tr: seq<Visit>, final: State)
    requires Routed(step) && Tracks(step) && Walk(step, tr) && EndsAt(step, tr, final)
    requires Nodes(tr) == AnswerNodes || Nodes(tr) == DeclineNodes
    ensures Nodes(tr) == AnswerNodes <==> final.relevant == Some("relevant")
  {
    var last := tr[|tr| - 1];
    assert step(last.node, last.input) == Success((final, Some(End)));
    if Nodes(tr) == AnswerNodes {
      assert tr[0].node == Connect && tr[3].node == ConvertToSql;
      ConvertAfterVerdict(step, tr, 3);
      assert step(tr[3].node, tr[3].input) == Success((tr[4].input, Some(tr[4].node)));
      assert step(tr[4].node, tr[4].input) == Success((tr[5].input, Some(tr[5].node)));
    } else {
      HopRoute(step, tr[2], tr[3]);
    }
  }

  /** A run that reaches `END` ran exactly the answer route or exactly the
      decline route, and it answered exactly when the final verdict is
      "relevant". */
  lemma CompletedRoutes(env: Env, input: State, fuel: nat)
    requires Invoke(env, input, fuel).Completed?
    ensures var o := Invoke(env, input, fuel);
            Nodes(o.trace) == AnswerNodes || Nodes(o.trace) == DeclineNodes
    ensures var o := Invoke(env, input, fuel);
            Nodes(o.trace) == AnswerNodes <==> o.final.relevant == Some("relevant")
  {
    var step := Compiled(env);
    var o := Invoke(env, input, fuel);
    CompiledRouted(env);
    CompiledTracks(env);
    DriveFollowsGraph(step, Connect, input, fuel);
    assert o == Drive(step, Connect, input, fuel);
    WalkRoute(step, o.trace, o.final);
    RouteMatchesVerdict(step, o.trace, o.final);
  }

  /** executeSql never throws: a run that crashes did not crash there, so a
      failed query still reaches the summary node as result text. */
  lemma ExecuteSqlNeverCrashes(env: Env, input: State, fuel: nat)
    requires fuel >= 6
    requires Invoke(env, input, fuel).Crashed?
    ensures var tr := Invoke(env, input, fuel).trace;
            tr[|tr| - 1].node != ExecuteSql
  {
    InvokeBounded(env, input, fuel);
    var tr := Invoke(env, input, fuel).trace;
    var v := tr[|tr| - 1];
    SqlRunNeverFails(env, v.node, v.input);
  }

  /** executeSql catches every error its query throws. */
  lemma SqlRunNeverFails(env: Env, n: Node, s: State)
    requires IsStep(n) && Ready(n, s)
    ensures n == ExecuteSql ==> Execute(env, n, s).Success?
  {
    if n == ExecuteSql {
      assert ExecuteSqlNode(env, s).Success?;
    }
  }

  /** One hop adds to the log exactly the lines the node logs. */
  lemma HopLogs(step: Stepper, a: Visit, b: Visit)
    requires Tracks(step)
    requires step(a.node, a.input) == Success((b.input, Some(b.node)))
    ensures b.input.logs == a.input.logs + Logged(a.node, a.input, b.input)
  {
  }

  /** connect, getSchema and isQuestionRelevant log, between them, the
      check and the verdict line when there is a question, the check alone
      when there is none. */
  lemma HeadLogs(step: Stepper, tr: seq<Visit>)
    requires Tracks(step) && Walk(step, tr) && |tr| >= 4
    requires tr[0].node == Connect && tr[1].node == GetSchema && tr[2].node == IsRelevant
    ensures Truthy(tr[2].input.question) ==>
              tr[3].input.relevant.Some? &&
              tr[3].input.logs == tr[0].input.logs + [CheckRelevanceLog, VerdictLine(tr[3].input.relevant.value)]
    ensures !Truthy(tr[2].input.question) ==> tr[3].input.logs == tr[0].input.logs + [CheckRelevanceLog]
  {
    HopLogs(step, tr[0], tr[1]);
    HopLogs(step, tr[1], tr[2]);
    HopLogs(step, tr[2], tr[3]);
  }

  /** The SQL and summary nodes of the answer route each add their one
      line to the log. */
  lemma AnswerTailLogs(step: Stepper, tr: seq<Visit>, final: State)
    requires Tracks(step) && Walk(step, tr) && EndsAt(step, tr, final)
    requires Nodes(tr) == AnswerNodes
    ensures final.logs == tr[3].input.logs + [ConvertingLog, ExecutingLog, SummaryLog]
  {
    assert tr[3].node == ConvertToSql && tr[4].node == ExecuteSql;
    assert tr[5].node == GenerateHumarReadableResponse;
    HopLogs(step, tr[3], tr[4]);
    HopLogs(step, tr[4], tr[5]);
    HopLogs(step, tr[5], Visit(End, final));
  }

  /** The answer route, begun with an empty log, ends with the check, the
      "relevant" verdict, and one line each from the SQL and summary nodes. */
  lemma AnswerLogs(step: Stepper, tr: seq<Visit>, final: State)
    requires Tracks(step) && Walk(step, tr) && EndsAt(step, tr, final)
    requires Nodes(tr) == AnswerNodes && tr[0].input.logs == []
    requires tr[3].input.relevant == Some("relevant") && Truthy(tr[2].input.question)
    ensures final.logs == [CheckRelevanceLog, VerdictLine("relevant"), ConvertingLog, ExecutingLog, SummaryLog]
  {
    assert tr[0].node == Connect && tr[1].node == GetSchema && tr[2].node == IsRelevant;
    HeadLogs(step, tr);
    AnswerTailLogs(step, tr, final);
    LogsJoin(tr[3].input.logs, final.logs, VerdictLine("relevant"));
  }

  lemma LogsJoin(head: seq<string>, all: seq<string>, verdict: string)
    requires head == [] + [CheckRelevanceLog, verdict]
    requires all == head + [ConvertingLog, ExecutingLog, SummaryLog]
    ensures all == [CheckRelevanceLog, verdict, ConvertingLog, ExecutingLog, SummaryLog]
  {
  }

  /** The decline route, begun with an empty log, ends with the check, the
      verdict line when there was a question, and the playful line. */
  lemma DeclineLogs(step: Stepper, tr: seq<Visit>, final: State)
    requires Tracks(step) && Walk(step, tr) && EndsAt(step, tr, final)
    requires Nodes(tr) == DeclineNodes && tr[0].input.logs == []
    ensures Truthy(tr[2].input.question) ==>
              tr[3].input.relevant.Some? &&
              final.logs == [CheckRelevanceLog, VerdictLine(tr[3].input.relevant.value), FunnyLog]
    ensures !Truthy(tr[2].input.question) ==> final.logs == [CheckRelevanceLog, FunnyLog]
  {
    assert tr[0].node == Connect && tr[1].node == GetSchema && tr[2].node == IsRelevant;
    assert tr[3].node == GenerateFunnyResponse;
    HeadLogs(step, tr);
    HopLogs(step, tr[3], Visit(End, final));
  }

  /** The log of a run that starts empty and reaches `END`: the answer route
      logs the check, the verdict and one line per SQL and summary node; the
      decline route logs the check, the verdict when there was a question,
      and the playful answer; without a question the run always declines. */
  lemma CompletedLogs(env: Env, question: Option<string>, connectionId: Option<string>, fuel: nat)
    ensures var o := Invoke(env, Initial(question, connectionId), fuel);
            o.Completed? && Nodes(o.trace) == AnswerNodes ==>
              o.final.logs == [CheckRelevanceLog, VerdictLine("relevant"), ConvertingLog, ExecutingLog, SummaryLog]
    ensures var o := Invoke(env, Initial(question, connectionId), fuel);
            o.Completed? && Nodes(o.trace) == DeclineNodes && Truthy(question) ==>
              o.final.relevant.Some? &&
              o.final.logs == [CheckRelevanceLog, VerdictLine(o.final.relevant.value), FunnyLog]
    ensures var o := Invoke(env, Initial(question, connectionId), fuel);
            o.Completed? && !Truthy(question) ==>
              Nodes(o.trace) == DeclineNodes && o.final.logs == [CheckRelevanceLog, FunnyLog]
  {
    var input := Initial(question, connectionId);
    var step := Compiled(env);
    var o := Invoke(env, input, fuel);
    if !o.Completed? {
      return;
    }
    CompletedRoutes(env, input, fuel);
    CompiledRouted(env);
    CompiledTracks(env);
    DriveFollowsGraph(step, Connect, input, fuel);
    assert o == Drive(step, Connect, input, fuel);
    WalkLogs(step, o.trace, o.final);
  }

  /** The logs of `CompletedLogs`, for any routed, tracking step function
      and any walk from connect that starts with an empty log and reaches
      `END` along one of the two routes. */
  lemma WalkLogs(step: Stepper, tr: seq<Visit>, final: State)
    requires Routed(step) && Tracks(step) && Walk(step, tr) && EndsAt(step, tr, final)
    requires |tr| > 0 && tr[0].node == Connect && tr[0].input.logs == []
    requires Nodes(tr) == AnswerNodes || Nodes(tr) == DeclineNodes
    ensures Nodes(tr) == AnswerNodes ==>
              final.logs == [CheckRelevanceLog, VerdictLine("relevant"), ConvertingLog, ExecutingLog, SummaryLog]
    ensures Nodes(tr) == DeclineNodes && Truthy(tr[0].input.question) ==>
              final.relevant.Some? && final.logs == [CheckRelevanceLog, VerdictLine(final.relevant.value), FunnyLog]
    ensures !Truthy(tr[0].input.question) ==>
              Nodes(tr) == DeclineNodes && final.logs == [CheckRelevanceLog, FunnyLog]
  {
    QuestionAlongWalk(step, tr, 2);
    if Nodes(tr) == AnswerNodes {
      assert tr[3].node == ConvertToSql;
      ConvertAfterVerdict(step, tr, 3);
      AnswerLogs(step, tr, final);
    } else {
      DeclineLogs(step, tr, final);
      assert step(tr[3].node, tr[3].input) == Success((final, Some(End)));
    }
  }
}
