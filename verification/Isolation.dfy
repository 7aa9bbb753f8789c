/** Failure isolation: which steps of a plan are skipped, which run, and on what. */
module Isolation {
  import opened Text
  import opened Json
  import opened References
  import opened Executor

  /** Every step carries its position, as after classification. */
  predicate Numbered(steps: seq<Step>) {
    forall i :: 0 <= i < |steps| ==> steps[i].index == i
  }

  /** What a step depends on: `depends_on` edges and step references. */
  function Edges(step: Step): set<int> {
    (set d | d in step.dependsOn) + StepSources(step.args)
  }

  ghost predicate Backward(steps: seq<Step>) {
    forall i, e :: 0 <= i < |steps| && e in Edges(steps[i]) ==> 0 <= e < i
  }

  /** Results that carry the positions of a numbered plan. */
  predicate NumberedResults(results: seq<StepResult>) {
    forall i :: 0 <= i < |results| ==> results[i].index == i
  }

  ghost function NotOk(results: seq<StepResult>): set<int> {
    set i | 0 <= i < |results| && !results[i].outcome.Ok?
  }

  lemma {:induction false} OkOutputsAt(results: seq<StepResult>, k: int)
    requires NumberedResults(results)
    ensures k in OkOutputs(results) <==> 0 <= k < |results| && results[k].outcome.Ok?
    ensures k in OkOutputs(results) ==> OkOutputs(results)[k] == results[k].outcome.output
  {
    if results != [] {
      OkOutputsAt(results[..|results| - 1], k);
    }
  }

  ghost predicate ShapedAs(run: Run, steps: seq<Step>) {
    && |run.results| == |steps|
    && NumberedResults(run.results)
    && run.unavailable == NotOk(run.results)
    && forall i | 0 <= i < |steps| :: run.results[i].skill == steps[i].skill
  }

  lemma RecordShape(run: Run, steps: seq<Step>, outcome: Outcome, trace: seq<Call>)
    requires steps != [] && ShapedAs(run, steps[..|steps| - 1]) && steps[|steps| - 1].index == |steps| - 1
    ensures ShapedAs(Record(run, steps[|steps| - 1], outcome, trace), steps)
  {
    var next := Record(run, steps[|steps| - 1], outcome, trace);
    assert forall i :: 0 <= i < |steps| - 1 ==> next.results[i] == run.results[i];
    assert next.results[|steps| - 1].outcome == outcome;
  }

  /** A run has one result per step, in order, and its blocked set is the steps not ok. */
  lemma {:induction false} RunShape(env: Env, steps: seq<Step>, trace: seq<Call>)
    requires Numbered(steps)
    ensures var run := RunPlan(env, steps, trace);
            && |run.results| == |steps|
            && NumberedResults(run.results)
            && run.unavailable == NotOk(run.results)
            && forall i | 0 <= i < |steps| :: run.results[i].skill == steps[i].skill
  {
    if steps != [] {
      var init, last := steps[..|steps| - 1], steps[|steps| - 1];
      RunShape(env, init, trace);
      var run := RunPlan(env, init, trace);
      RecordShape(run, steps, Skipped, run.trace);
      var a := AttemptStep(env, last.skill, Bind(last.args, OkOutputs(run.results)), run.trace);
      RecordShape(run, steps, OutcomeOf(a), a.trace);
      hide AttemptStep, Blocked, Bind, OkOutputs, Record, NumberedResults, NotOk;
    }
  }

  lemma {:induction false} RunPrefix(env: Env, steps: seq<Step>, trace: seq<Call>, i: nat)
    requires i <= |steps|
    ensures |RunPlan(env, steps, trace).results| == |steps|
    ensures RunPlan(env, steps[..i], trace).results == RunPlan(env, steps, trace).results[..i]
    decreases |steps|
  {
    if i == |steps| {
      assert steps[..i] == steps;
      RunLength(env, steps, trace);
    } else {
      var shorter := steps[..|steps| - 1];
      assert shorter[..i] == steps[..i];
      RunPrefix(env, shorter, trace, i);
    }
  }

  lemma {:induction false} RunLength(env: Env, steps: seq<Step>, trace: seq<Call>)
    ensures |RunPlan(env, steps, trace).results| == |steps|
  {
    if steps != [] {
      RunLength(env, steps[..|steps| - 1], trace);
    }
  }

  /** The state in which step `i` of the plan is looked at. */
  ghost function Before(env: Env, steps: seq<Step>, trace: seq<Call>, i: nat): Run
    requires i <= |steps|
  {
    RunPlan(env, steps[..i], trace)
  }

  lemma StepResultIs(env: Env, steps: seq<Step>, trace: seq<Call>, i: nat)
    requires Numbered(steps) && i < |steps|
    ensures |RunPlan(env, steps, trace).results| == |steps|
    ensures var before := Before(env, steps, trace, i);
            && |before.results| == i
            && before.results == RunPlan(env, steps, trace).results[..i]
            && RunPlan(env, steps, trace).results[i] == RunStep(env, steps[i], before).results[i]
  {
    hide RunPlan, RunStep, Numbered;
    RunPrefix(env, steps, trace, i);
    RunPrefix(env, steps, trace, i + 1);
    assert steps[..i + 1] == steps[..i] + [steps[i]];
    RunSnoc(env, steps[..i], steps[i], trace);
  }

  lemma SkippedWhenBlocked(env: Env, steps: seq<Step>, trace: seq<Call>, i: nat)
    requires Numbered(steps) && Backward(steps) && i < |steps|
    ensures var results := RunPlan(env, steps, trace).results;
            |results| == |steps| &&
            (results[i].outcome.Skipped? <==>
             exists e :: e in Edges(steps[i]) && !results[e].outcome.Ok?)
  {
    StepResultIs(env, steps, trace, i);
    RunShape(env, steps[..i], trace);
    var before := Before(env, steps, trace, i);
    var results := RunPlan(env, steps, trace).results;
    assert Blocked(steps[i], before.unavailable) == Edges(steps[i]) * NotOk(results[..i]);
    forall e | e in Edges(steps[i])
      ensures 0 <= e < i && (e in NotOk(results[..i]) <==> !results[e].outcome.Ok?)
    {
    }
    if e :| e in Edges(steps[i]) && !results[e].outcome.Ok? {
      assert e in Blocked(steps[i], before.unavailable);
    }
    if Blocked(steps[i], before.unavailable) != {} {
      var e :| e in Blocked(steps[i], before.unavailable);
      assert e in Edges(steps[i]) && !results[e].outcome.Ok?;
    }
  }

  /** A chain of dependencies from step `path[0]` to step `path[|path| - 1]`. */
  ghost predicate Chain(steps: seq<Step>, path: seq<int>) {
    && |path| >= 2
    && (forall k :: 0 <= k < |path| ==> 0 <= path[k] < |steps|)
    && forall k :: 0 <= k < |path| - 1 ==> path[k + 1] in Edges(steps[path[k]])
  }

  /** Step `i` depends, through any number of edges, on a step that ran and failed. */
  ghost predicate LeadsToFailure(steps: seq<Step>, results: seq<StepResult>, i: int)
    requires |results| == |steps|
  {
    exists path :: Chain(steps, path) && path[0] == i && results[path[|path| - 1]].outcome.Failed?
  }

  lemma {:induction false} SkippedLeadsToFailure(env: Env, steps: seq<Step>, trace: seq<Call>, i: nat)
    requires Numbered(steps) && Backward(steps) && i < |steps|
    requires |RunPlan(env, steps, trace).results| == |steps|
    requires RunPlan(env, steps, trace).results[i].outcome.Skipped?
    ensures LeadsToFailure(steps, RunPlan(env, steps, trace).results, i)
    decreases i
  {
    hide RunPlan;
    var results := RunPlan(env, steps, trace).results;
    SkippedWhenBlocked(env, steps, trace, i);
    var e :| e in Edges(steps[i]) && !results[e].outcome.Ok?;
    var path := [i, e];
    if results[e].outcome.Failed? {
      assert Chain(steps, path) && path[|path| - 1] == e;
    } else {
      SkippedLeadsToFailure(env, steps, trace, e);
      var rest :| Chain(steps, rest) && rest[0] == e && results[rest[|rest| - 1]].outcome.Failed?;
      path := [i] + rest;
      assert Chain(steps, path) && path[|path| - 1] == rest[|rest| - 1];
    }
  }

  lemma {:induction false} ChainSkips(env: Env, steps: seq<Step>, trace: seq<Call>, path: seq<int>)
    requires Numbered(steps) && Backward(steps) && Chain(steps, path)
    requires |RunPlan(env, steps, trace).results| == |steps|
    requires RunPlan(env, steps, trace).results[path[|path| - 1]].outcome.Failed?
    ensures RunPlan(env, steps, trace).results[path[0]].outcome.Skipped?
  {
    hide RunPlan;
    var results := RunPlan(env, steps, trace).results;
    assert path[1] in Edges(steps[path[0]]);
    if |path| > 2 {
      var rest := path[1..];
      assert Chain(steps, rest);
      ChainSkips(env, steps, trace, rest);
    }
    assert !results[path[1]].outcome.Ok?;
    SkippedWhenBlocked(env, steps, trace, path[0]);
  }

  /** Failure isolation is exact: a step is skipped if and only if a chain of `depends_on`
      edges or step references leads from it to a step that ran and failed. */
  lemma FailureIsolation(env: Env, steps: seq<Step>, trace: seq<Call>)
    requires Numbered(steps) && Backward(steps)
    ensures var results := RunPlan(env, steps, trace).results;
            && |results| == |steps|
            && NumberedResults(results)
            && forall i | 0 <= i < |steps| ::
                 results[i].outcome.Skipped? <==> LeadsToFailure(steps, results, i)
  {
    RunShape(env, steps, trace);
    var results := RunPlan(env, steps, trace).results;
    forall i | 0 <= i < |steps|
      ensures results[i].outcome.Skipped? <==> LeadsToFailure(steps, results, i)
    {
      if results[i].outcome.Skipped? {
        SkippedLeadsToFailure(env, steps, trace, i);
      }
      if LeadsToFailure(steps, results, i) {
        var path :| Chain(steps, path) && path[0] == i && results[path[|path| - 1]].outcome.Failed?;
        ChainSkips(env, steps, trace, path);
      }
    }
  }

  /** Every step that no failure leads to is attempted, in the state its predecessors left,
      and each reference it holds reads the output of a step that is ok. */
  lemma AttemptedFromOkResults(env: Env, steps: seq<Step>, trace: seq<Call>, i: nat)
    requires Numbered(steps) && Backward(steps) && i < |steps|
    requires |RunPlan(env, steps, trace).results| == |steps|
    requires !LeadsToFailure(steps, RunPlan(env, steps, trace).results, i)
    ensures var results := RunPlan(env, steps, trace).results;
            var before := Before(env, steps, trace, i);
            var ok := OkOutputs(before.results);
            && (forall s | s in StepSources(steps[i].args) ::
                  0 <= s < i && s in ok && results[s].outcome == Ok(ok[s]))
            && (forall d | d in steps[i].dependsOn :: 0 <= d < i && results[d].outcome.Ok?)
            && results[i].outcome ==
               OutcomeOf(AttemptStep(env, steps[i].skill, Bind(steps[i].args, ok), before.trace))
  {
    hide AttemptStep, RunPlan, Blocked, Chain, LeadsToFailure, Bind;
    FailureIsolation(env, steps, trace);
    SkippedWhenBlocked(env, steps, trace, i);
    StepResultIs(env, steps, trace, i);
    RunShape(env, steps[..i], trace);
    var results := RunPlan(env, steps, trace).results;
    var before := Before(env, steps, trace, i);
    forall e | e in Edges(steps[i])
      ensures 0 <= e < i && results[e].outcome.Ok? && e in OkOutputs(before.results)
      ensures results[e].outcome == Ok(OkOutputs(before.results)[e])
    {
      OkOutputsAt(before.results, e);
    }
    forall d | d in steps[i].dependsOn
      ensures 0 <= d < i && results[d].outcome.Ok?
    {
      assert d in Edges(steps[i]);
    }
    AttemptedOutcome(env, steps[i], before);
  }

  lemma AttemptedOutcome(env: Env, step: Step, run: Run)
    ensures var outcome := RunStep(env, step, run).results[|run.results|].outcome;
            !outcome.Skipped? ==>
              outcome == OutcomeOf(AttemptStep(env, step.skill, Bind(step.args, OkOutputs(run.results)), run.trace))
  {
  }
}
