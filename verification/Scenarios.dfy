/** What the runs of a plan can look like, over all skill functions at once: which result
    lists are possible, and which steps can come to call their skill. */
module Scenarios {
  import opened Text
  import opened Json
  import opened References
  import opened Executor
  import opened Isolation

  // ----- possible results -----

  /** The argument sets an attempted step calls its skill with, `None` when some argument
      cannot be resolved. */
  ghost function ArgumentSets(b: map<string, Bound>): Option<seq<Args>> {
    if HasFanout(b) then FanoutRows(b)
    else match BoundArguments(b)
         case None => None
         case Some(args) => Some([args])
  }

  /** The attempt can end like this: a call may answer anything or raise. */
  ghost predicate CanGive(b: map<string, Bound>, o: Outcome) {
    match ArgumentSets(b)
    case None => o.Failed?
    case Some(rows) =>
      && !o.Skipped?
      && (o.Failed? ==> rows != [])
      && (o.Ok? && HasFanout(b) ==>
            exists outputs: seq<Value> :: |outputs| == |rows| && o.output == FanoutOutput(outputs))
  }

  function NotOkIndices(results: seq<StepResult>): set<int> {
    set i | 0 <= i < |results| && !results[i].outcome.Ok? :: results[i].index
  }

  ghost predicate CanFollow(before: seq<StepResult>, step: Step, r: StepResult) {
    && r.index == step.index && r.skill == step.skill
    && if Blocked(step, NotOkIndices(before)) != {} then r.outcome.Skipped?
       else CanGive(Bind(step.args, OkOutputs(before)), r.outcome)
  }

  /** The results some run of the plan can have, said without any skill function. */
  ghost predicate Scenario(steps: seq<Step>, results: seq<StepResult>)
    decreases |steps|
  {
    && |results| == |steps|
    && (steps != [] ==>
          var n := |steps| - 1;
          Scenario(steps[..n], results[..n]) && CanFollow(results[..n], steps[n], results[n]))
  }

  lemma {:induction false} RunUnavailable(env: Env, steps: seq<Step>, trace: seq<Call>)
    ensures RunPlan(env, steps, trace).unavailable == NotOkIndices(RunPlan(env, steps, trace).results)
  {
    if steps != [] {
      hide AttemptStep, Blocked, Bind, OkOutputs;
      RunUnavailable(env, steps[..|steps| - 1], trace);
      var before := RunPlan(env, steps[..|steps| - 1], trace).results;
      var after := RunPlan(env, steps, trace).results;
      NotOkSnoc(before, after[|before|]);
    }
  }

  lemma NotOkSnoc(before: seq<StepResult>, r: StepResult)
    ensures NotOkIndices(before + [r]) == NotOkIndices(before) + if r.outcome.Ok? then {} else {r.index}
  {
    var all := before + [r];
    forall i | 0 <= i < |before|
      ensures all[i] == before[i]
    {
    }
    assert all[|before|] == r;
  }

  lemma {:induction false} RowsOutcome(env: Env, skill: string, rows: seq<Args>, trace: seq<Call>)
    ensures var (outputs, t) := RunRows(env, skill, rows, trace);
            && (outputs.None? ==> rows != [])
            && (outputs.Some? ==> |outputs.value| == |rows|)
            && |t| >= |trace| && t[..|trace|] == trace
            && (rows != [] ==> |t| > |trace| && t[|trace|].skill == skill)
            && (rows == [] ==> t == trace)
  {
    if rows != [] {
      RowsOutcome(env, skill, rows[..|rows| - 1], trace);
    }
  }

  lemma AttemptGives(env: Env, skill: string, b: map<string, Bound>, trace: seq<Call>)
    ensures CanGive(b, OutcomeOf(AttemptStep(env, skill, b, trace)))
  {
    hide FanoutRows, BoundArguments, HasFanout;
    if HasFanout(b) && FanoutRows(b).Some? {
      RowsOutcome(env, skill, FanoutRows(b).value, trace);
    }
  }

  /** Every run's results are a scenario. */
  lemma {:induction false} RunIsScenario(env: Env, steps: seq<Step>, trace: seq<Call>)
    ensures Scenario(steps, RunPlan(env, steps, trace).results)
  {
    if steps != [] {
      hide AttemptStep, Blocked, Bind, OkOutputs, CanGive, NotOkIndices;
      var init, last := steps[..|steps| - 1], steps[|steps| - 1];
      RunIsScenario(env, init, trace);
      RunUnavailable(env, init, trace);
      var run := RunPlan(env, init, trace);
      AttemptGives(env, last.skill, Bind(last.args, OkOutputs(run.results)), run.trace);
      assert RunPlan(env, steps, trace).results[..|init|] == run.results;
    }
  }

  // ----- a skill function for every scenario -----

  /** Answers the calls after the first `start` from a list, in order. */
  function Script(answers: seq<Option<Value>>, start: nat): Env {
    (t: seq<Call>, c: Call) => if start <= |t| < start + |answers| then answers[|t| - start] else None
  }

  /** The answers with which an attempt ends as it should. */
  ghost function AnswersFor(b: map<string, Bound>, o: Outcome): seq<Option<Value>>
    requires CanGive(b, o)
  {
    match ArgumentSets(b)
    case None => []
    case Some(rows) =>
      if o.Failed? then [None]
      else if HasFanout(b) then
        var outputs: seq<Value> :| |outputs| == |rows| && o.output == FanoutOutput(outputs);
        seq(|rows|, i requires 0 <= i < |rows| => Some(outputs[i]))
      else [Some(o.output)]
  }

  /** The script for a whole scenario. */
  ghost function ScriptFor(steps: seq<Step>, results: seq<StepResult>): seq<Option<Value>>
    requires Scenario(steps, results)
    decreases |steps|
  {
    if steps == [] then []
    else
      var n := |steps| - 1;
      ScriptFor(steps[..n], results[..n]) + StepScript(results[..n], steps[n], results[n])
  }

  ghost function StepScript(before: seq<StepResult>, step: Step, r: StepResult): seq<Option<Value>>
    requires CanFollow(before, step, r)
  {
    if Blocked(step, NotOkIndices(before)) != {} then []
    else AnswersFor(Bind(step.args, OkOutputs(before)), r.outcome)
  }

  lemma {:induction false} ScriptedRows(answers: seq<Option<Value>>, start: nat, at: nat, skill: string,
                                        rows: seq<Args>, outputs: seq<Value>, trace: seq<Call>)
    requires |rows| == |outputs| && |trace| == start + at && at + |rows| <= |answers|
    requires forall i :: 0 <= i < |rows| ==> answers[at + i] == Some(outputs[i])
    ensures RunRows(Script(answers, start), skill, rows, trace).0 == Some(outputs)
    ensures |RunRows(Script(answers, start), skill, rows, trace).1| == |trace| + |rows|
    decreases |rows|
  {
    if rows != [] {
      var n := |rows| - 1;
      ScriptedRows(answers, start, at, skill, rows[..n], outputs[..n], trace);
      assert outputs == outputs[..n] + [outputs[n]];
      assert answers[at + n] == Some(outputs[n]);
    }
  }

  lemma {:induction false} ScriptedFailure(answers: seq<Option<Value>>, start: nat, skill: string, rows: seq<Args>,
                                           trace: seq<Call>)
    requires rows != [] && start <= |trace| < start + |answers| && answers[|trace| - start].None?
    ensures RunRows(Script(answers, start), skill, rows, trace).0 == None
    ensures |RunRows(Script(answers, start), skill, rows, trace).1| == |trace| + 1
    decreases |rows|
  {
    if |rows| > 1 {
      ScriptedFailure(answers, start, skill, rows[..|rows| - 1], trace);
    } else {
      assert rows[..0] == [];
    }
  }

  lemma ScriptedAttempt(answers: seq<Option<Value>>, start: nat, at: nat, skill: string, b: map<string, Bound>,
                        o: Outcome, trace: seq<Call>)
    requires CanGive(b, o) && |trace| == start + at
    requires var mine := AnswersFor(b, o);
             at + |mine| <= |answers| && forall i :: 0 <= i < |mine| ==> answers[at + i] == mine[i]
    ensures var a := AttemptStep(Script(answers, start), skill, b, trace);
            OutcomeOf(a) == o && |a.trace| == |trace| + |AnswersFor(b, o)|
  {
    hide FanoutRows, BoundArguments, HasFanout;
    var mine := AnswersFor(b, o);
    if HasFanout(b) && FanoutRows(b).Some? {
      var rows := FanoutRows(b).value;
      if o.Failed? {
        assert answers[at + 0] == mine[0];
        ScriptedFailure(answers, start, skill, rows, trace);
      } else {
        var outputs: seq<Value> := seq(|rows|, i requires 0 <= i < |rows| => mine[i].value);
        ScriptedRows(answers, start, at, skill, rows, outputs, trace);
        SameOutputs(b, o, rows, outputs);
      }
    } else if !HasFanout(b) && BoundArguments(b).Some? {
      assert answers[at + 0] == mine[0];
    }
  }

  lemma SameOutputs(b: map<string, Bound>, o: Outcome, rows: seq<Args>, outputs: seq<Value>)
    requires CanGive(b, o) && o.Ok? && HasFanout(b) && ArgumentSets(b) == Some(rows) && |outputs| == |rows|
    requires forall i :: 0 <= i < |rows| ==> Some(outputs[i]) == AnswersFor(b, o)[i]
    ensures o.output == FanoutOutput(outputs)
  {
    hide FanoutRows, BoundArguments, HasFanout;
    var given: seq<Value> :| |given| == |rows| && o.output == FanoutOutput(given) &&
      AnswersFor(b, o) == seq(|rows|, i requires 0 <= i < |rows| => Some(given[i]));
    assert given == outputs;
  }

  lemma ScenarioSplit(steps: seq<Step>, results: seq<StepResult>)
    requires steps != [] && Scenario(steps, results)
    ensures var n := |steps| - 1;
            && |results| == |steps| && Scenario(steps[..n], results[..n])
            && CanFollow(results[..n], steps[n], results[n])
            && ScriptFor(steps, results) ==
               ScriptFor(steps[..n], results[..n]) + StepScript(results[..n], steps[n], results[n])
  {
    hide CanFollow, StepScript;
  }

  lemma RunLast(env: Env, steps: seq<Step>, trace: seq<Call>)
    requires steps != []
    ensures RunPlan(env, steps, trace) ==
            RunStep(env, steps[|steps| - 1], RunPlan(env, steps[..|steps| - 1], trace))
  {
    hide RunStep;
  }

  lemma PartAt(so: seq<Option<Value>>, mine: seq<Option<Value>>, answers: seq<Option<Value>>)
    requires so + mine <= answers
    ensures so <= answers && |so| + |mine| <= |answers|
    ensures forall i :: 0 <= i < |mine| ==> answers[|so| + i] == mine[i]
  {
    forall i | 0 <= i < |mine|
      ensures answers[|so| + i] == mine[i]
    {
      assert answers[|so| + i] == (so + mine)[|so| + i];
    }
  }

  lemma RealisedNothing(steps: seq<Step>, results: seq<StepResult>, env: Env, trace: seq<Call>)
    requires steps == [] && Scenario(steps, results)
    ensures RunPlan(env, steps, trace) == Run(results, {}, trace) && ScriptFor(steps, results) == []
  {
  }

  /** The script makes the plan run like the scenario, whatever follows it. */
  lemma {:induction false} Realised(steps: seq<Step>, results: seq<StepResult>, trace: seq<Call>,
                                    answers: seq<Option<Value>>)
    requires Scenario(steps, results) && ScriptFor(steps, results) <= answers
    ensures var run := RunPlan(Script(answers, |trace|), steps, trace);
            run.results == results && |run.trace| == |trace| + |ScriptFor(steps, results)|
    decreases |steps|
  {
    hide *;
    var env := Script(answers, |trace|);
    if steps == [] {
      RealisedNothing(steps, results, env, trace);
    } else {
      var n := |steps| - 1;
      ScenarioSplit(steps, results);
      var so := ScriptFor(steps[..n], results[..n]);
      PartAt(so, StepScript(results[..n], steps[n], results[n]), answers);
      Realised(steps[..n], results[..n], trace, answers);
      RunUnavailable(env, steps[..n], trace);
      RunLast(env, steps, trace);
      RealisedStep(results[..n], steps[n], results[n], |trace|, |so|, answers, RunPlan(env, steps[..n], trace));
      assert results == results[..n] + [results[n]];
    }
  }

  lemma RealisedStep(before: seq<StepResult>, step: Step, r: StepResult, start: nat, at: nat,
                     answers: seq<Option<Value>>, run: Run)
    requires CanFollow(before, step, r) && run.results == before && run.unavailable == NotOkIndices(before)
    requires |run.trace| == start + at
    requires var mine := StepScript(before, step, r);
             && at + |mine| <= |answers|
             && forall i :: 0 <= i < |mine| ==> answers[at + i] == mine[i]
    ensures var after := RunStep(Script(answers, start), step, run);
            after.results == before + [r] && |after.trace| == |run.trace| + |StepScript(before, step, r)|
  {
    hide AttemptStep, Blocked, Bind, OkOutputs, NotOkIndices, CanGive, AnswersFor, Script;
    if Blocked(step, run.unavailable) == {} {
      var b := Bind(step.args, OkOutputs(before));
      ScriptedAttempt(answers, start, at, step.skill, b, r.outcome, run.trace);
    }
  }

  /** The scenarios of a plan are exactly the results of its runs. */
  lemma ScenariosAreRuns(steps: seq<Step>, results: seq<StepResult>, trace: seq<Call>)
    ensures Scenario(steps, results) <==> exists env: Env :: RunPlan(env, steps, trace).results == results
  {
    hide RunPlan, Scenario;
    if Scenario(steps, results) {
      var answers := ScriptFor(steps, results);
      Realised(steps, results, trace, answers);
      assert RunPlan(Script(answers, |trace|), steps, trace).results == results;
    }
    if env: Env :| RunPlan(env, steps, trace).results == results {
      RunIsScenario(env, steps, trace);
    }
  }

  // ----- what a run calls -----

  function SkillsOf(steps: seq<Step>): set<string> {
    set i | 0 <= i < |steps| :: steps[i].skill
  }

  /** `after` is `before` with calls of the given skills added. */
  ghost predicate Adds(before: seq<Call>, after: seq<Call>, skills: set<string>) {
    before <= after && forall i :: |before| <= i < |after| ==> after[i].skill in skills
  }

  lemma {:induction false} RowsAdd(env: Env, skill: string, rows: seq<Args>, trace: seq<Call>)
    ensures Adds(trace, RunRows(env, skill, rows, trace).1, {skill})
  {
    if rows != [] {
      RowsAdd(env, skill, rows[..|rows| - 1], trace);
    }
  }

  /** After these results the step is attempted and its skill is called at least once. */
  ghost predicate CallsAfter(before: seq<StepResult>, step: Step) {
    && Blocked(step, NotOkIndices(before)) == {}
    && var sets := ArgumentSets(Bind(step.args, OkOutputs(before)));
       sets.Some? && sets.value != []
  }

  /** Some scenario of the steps before it leads to step `i` calling its skill. */
  ghost predicate CanCall(steps: seq<Step>, i: nat)
    requires i < |steps|
  {
    exists before :: Scenario(steps[..i], before) && CallsAfter(before, steps[i])
  }

  lemma AttemptCalls(env: Env, skill: string, b: map<string, Bound>, trace: seq<Call>)
    ensures Adds(trace, AttemptStep(env, skill, b, trace).trace, {skill})
    ensures |AttemptStep(env, skill, b, trace).trace| > |trace| <==>
            ArgumentSets(b).Some? && ArgumentSets(b).value != []
  {
    hide BoundArguments, FanoutRows, HasFanout;
    if HasFanout(b) && FanoutRows(b).Some? {
      RowsAdd(env, skill, FanoutRows(b).value, trace);
      RowsOutcome(env, skill, FanoutRows(b).value, trace);
    }
  }

  /** One more step calls its own skill, and calls it exactly when the results so far say so. */
  lemma StepCalls(env: Env, steps: seq<Step>, trace: seq<Call>)
    requires steps != []
    ensures var n := |steps| - 1;
            var run := RunPlan(env, steps[..n], trace);
            && Adds(run.trace, RunPlan(env, steps, trace).trace, {steps[n].skill})
            && (|RunPlan(env, steps, trace).trace| > |run.trace| <==> CallsAfter(run.results, steps[n]))
  {
    hide AttemptStep, Blocked, Bind, OkOutputs, NotOkIndices, ArgumentSets;
    var n := |steps| - 1;
    var run := RunPlan(env, steps[..n], trace);
    RunUnavailable(env, steps[..n], trace);
    AttemptCalls(env, steps[n].skill, Bind(steps[n].args, OkOutputs(run.results)), run.trace);
  }

  lemma AddsMore(a: seq<Call>, b: seq<Call>, c: seq<Call>, skill: string, skills: set<string>)
    requires Adds(a, b, skills) && Adds(b, c, {skill}) && (|c| > |b| ==> skill in skills)
    ensures Adds(a, c, skills)
  {
    forall i | |a| <= i < |c|
      ensures c[i].skill in skills
    {
      assert i < |b| ==> c[i] == b[i];
    }
  }

  /** A run calls only skills of steps that can come to call. */
  lemma {:induction false} RunAddsReachable(env: Env, steps: seq<Step>, trace: seq<Call>, skills: set<string>)
    requires forall i: nat :: i < |steps| && CanCall(steps, i) ==> steps[i].skill in skills
    ensures Adds(trace, RunPlan(env, steps, trace).trace, skills)
    decreases |steps|
  {
    if steps != [] {
      hide RunPlan, CallsAfter, Scenario, Adds;
      var n := |steps| - 1;
      forall i: nat | i < n && CanCall(steps[..n], i)
        ensures steps[i].skill in skills
      {
        assert steps[..n][..i] == steps[..i];
        assert CanCall(steps, i);
      }
      RunAddsReachable(env, steps[..n], trace, skills);
      StepCalls(env, steps, trace);
      RunIsScenario(env, steps[..n], trace);
      var run := RunPlan(env, steps[..n], trace);
      assert CallsAfter(run.results, steps[n]) ==> CanCall(steps, n);
      AddsMore(trace, run.trace, RunPlan(env, steps, trace).trace, steps[n].skill, skills);
    } else {
      assert RunPlan(env, [], trace).trace == trace;
    }
  }

  lemma RunAdds(env: Env, steps: seq<Step>, trace: seq<Call>)
    ensures Adds(trace, RunPlan(env, steps, trace).trace, SkillsOf(steps))
  {
    hide RunPlan, Adds, CanCall;
    RunAddsReachable(env, steps, trace, SkillsOf(steps));
  }

  lemma {:induction false} TraceGrows(env: Env, steps: seq<Step>, trace: seq<Call>, i: nat)
    requires i <= |steps|
    ensures RunPlan(env, steps[..i], trace).trace <= RunPlan(env, steps, trace).trace
    decreases |steps|
  {
    if i < |steps| {
      hide RunPlan, CallsAfter;
      TraceGrows(env, steps[..|steps| - 1], trace, i);
      assert steps[..|steps| - 1][..i] == steps[..i];
      StepCalls(env, steps, trace);
    } else {
      assert steps[..i] == steps;
    }
  }

  /** A step that can come to call its skill does so in some run. */
  lemma CanCallDoes(steps: seq<Step>, trace: seq<Call>, i: nat) returns (env: Env, k: nat)
    requires i < |steps| && CanCall(steps, i)
    ensures var after := RunPlan(env, steps, trace).trace;
            |trace| <= k < |after| && after[k].skill == steps[i].skill
  {
    hide RunPlan, CallsAfter, Scenario;
    var before :| Scenario(steps[..i], before) && CallsAfter(before, steps[i]);
    var answers := ScriptFor(steps[..i], before);
    env := Script(answers, |trace|);
    Realised(steps[..i], before, trace, answers);
    assert steps[..i + 1][..i] == steps[..i];
    StepCalls(env, steps[..i + 1], trace);
    TraceGrows(env, steps, trace, i + 1);
    k := |RunPlan(env, steps[..i], trace).trace|;
    var part := RunPlan(env, steps[..i + 1], trace).trace;
    assert part[k].skill == steps[i].skill;
    assert RunPlan(env, steps, trace).trace[k] == part[k];
  }

  /** Over all skill functions, a plan calls only given skills if and only if they are those of
      the steps that can come to call. */
  lemma CallsExactly(steps: seq<Step>, trace: seq<Call>, skills: set<string>)
    ensures (forall env: Env :: Adds(trace, RunPlan(env, steps, trace).trace, skills)) <==>
            forall i: nat :: i < |steps| && CanCall(steps, i) ==> steps[i].skill in skills
  {
    hide RunPlan, CanCall;
    if forall i: nat :: i < |steps| && CanCall(steps, i) ==> steps[i].skill in skills {
      forall env: Env
        ensures Adds(trace, RunPlan(env, steps, trace).trace, skills)
      {
        RunAddsReachable(env, steps, trace, skills);
      }
    }
    if i: nat :| i < |steps| && CanCall(steps, i) && steps[i].skill !in skills {
      var env, k := CanCallDoes(steps, trace, i);
      assert !Adds(trace, RunPlan(env, steps, trace).trace, skills);
    }
  }

  /** A step that holds only literals and depends on nothing can always come to call. */
  lemma LiteralsCanCall(steps: seq<Step>, i: nat)
    requires i < |steps| && steps[i].dependsOn == []
    requires forall k | k in steps[i].args :: !IsStepRef(steps[i].args[k])
    ensures CanCall(steps, i)
  {
    hide RunPlan, Scenario;
    var before := RunPlan(Script([], 0), steps[..i], []).results;
    RunIsScenario(Script([], 0), steps[..i], []);
    LiteralsResolve(steps[i].args, OkOutputs(before));
    hide ArgumentSets, Bind, OkOutputs, NotOkIndices;
    assert CallsAfter(before, steps[i]);
  }

  lemma LiteralsResolve(args: Args, ok: map<int, Value>)
    requires forall k | k in args :: !IsStepRef(args[k])
    ensures ArgumentSets(Bind(args, ok)) == Some([args])
  {
    var b := Bind(args, ok);
    assert forall k | k in args :: b[k] == Literal(args[k]);
    assert WildKeys(b) == {};
    assert forall k | k in args :: BoundCells(b)[k] == Some(args[k]);
    assert BoundArguments(b).value == args;
  }
}
