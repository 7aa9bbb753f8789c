/** Sequential execution of a plan with failure isolation. Skills are an arbitrary
    environment: what a call answers may depend on every call made before it. */
module Executor {
  import opened Text
  import opened Json
  import opened References

  const READ_TIER := "read"

  datatype Step = Step(index: int, skill: string, args: Args, dependsOn: seq<int>,
                       tier: string, requiresApproval: bool)

  datatype Outcome = Ok(output: Value) | Failed | Skipped

  datatype StepResult = StepResult(index: int, skill: string, outcome: Outcome)

  datatype Call = Call(skill: string, args: Args)

  /** The answer to a call, `None` when the skill raises. */
  type Env = (seq<Call>, Call) -> Option<Value>

  // ----- one step -----

  /** Failed or skipped steps this one depends on, by `depends_on` or by a reference. */
  function Blocked(step: Step, unavailable: set<int>): set<int> {
    ((set d | d in step.dependsOn) + StepSources(step.args)) * unavailable
  }

  function OkOutputs(results: seq<StepResult>): map<int, Value> {
    if results == [] then map[]
    else
      var r := results[|results| - 1];
      var before := OkOutputs(results[..|results| - 1]);
      if r.outcome.Ok? then before[r.index := r.outcome.output] else before
  }

  datatype Attempt = Attempt(output: Option<Value>, trace: seq<Call>)

  /** Run the skill once per argument set, stopping at the first call that raises. */
  function RunRows(env: Env, skill: string, rows: seq<Args>, trace: seq<Call>): (Option<seq<Value>>, seq<Call>) {
    if rows == [] then (Some([]), trace)
    else
      var (outputs, t) := RunRows(env, skill, rows[..|rows| - 1], trace);
      if outputs.None? then (None, t)
      else
        var call := Call(skill, rows[|rows| - 1]);
        match env(t, call)
        case Some(v) => (Some(outputs.value + [v]), t + [call])
        case None => (None, t + [call])
  }

  /** What a fanned-out step puts out, whatever its skill declares. */
  function FanoutOutput(outputs: seq<Value>): Value {
    Obj(map["items" := Arr(outputs), "count" := Num(|outputs|)])
  }

  /** Everything an attempted step does, given its arguments bound to the results so far. */
  ghost function AttemptStep(env: Env, skill: string, b: map<string, Bound>, trace: seq<Call>): Attempt {
    if HasFanout(b) then
      match FanoutRows(b)
      case None => Attempt(None, trace)
      case Some(rows) =>
        var (outputs, t) := RunRows(env, skill, rows, trace);
        Attempt(if outputs.Some? then Some(FanoutOutput(outputs.value)) else None, t)
    else
      match BoundArguments(b)
      case None => Attempt(None, trace)
      case Some(args) => Attempt(env(trace, Call(skill, args)), trace + [Call(skill, args)])
  }

  // ----- the run of a plan -----

  datatype Run = Run(results: seq<StepResult>, unavailable: set<int>, trace: seq<Call>)

  function Record(run: Run, step: Step, outcome: Outcome, trace: seq<Call>): Run {
    Run(run.results + [StepResult(step.index, step.skill, outcome)],
        if outcome.Ok? then run.unavailable else run.unavailable + {step.index},
        trace)
  }

  function OutcomeOf(a: Attempt): Outcome {
    if a.output.Some? then Ok(a.output.value) else Failed
  }

  ghost function RunStep(env: Env, step: Step, run: Run): Run {
    if Blocked(step, run.unavailable) != {} then Record(run, step, Skipped, run.trace)
    else
      var a := AttemptStep(env, step.skill, Bind(step.args, OkOutputs(run.results)), run.trace);
      Record(run, step, OutcomeOf(a), a.trace)
  }

  ghost function RunPlan(env: Env, steps: seq<Step>, trace: seq<Call>): Run {
    if steps == [] then Run([], {}, trace)
    else RunStep(env, steps[|steps| - 1], RunPlan(env, steps[..|steps| - 1], trace))
  }

  lemma RunSnoc(env: Env, steps: seq<Step>, step: Step, trace: seq<Call>)
    ensures RunPlan(env, steps + [step], trace) == RunStep(env, step, RunPlan(env, steps, trace))
  {
    assert (steps + [step])[..|steps|] == steps;
  }

  // ----- the executor's loops -----

  method CallRows(env: Env, skill: string, rows: seq<Args>, trace: seq<Call>)
    returns (outputs: Option<seq<Value>>, newTrace: seq<Call>)
    ensures (outputs, newTrace) == RunRows(env, skill, rows, trace)
  {
    var answers: seq<Value> := [];
    newTrace := trace;
    for i := 0 to |rows|
      invariant RunRows(env, skill, rows[..i], trace) == (Some(answers), newTrace)
    {
      assert rows[..i + 1][..i] == rows[..i];
      var call := Call(skill, rows[i]);
      var answer := env(newTrace, call);
      newTrace := newTrace + [call];
      if answer.None? {
        RowsStop(env, skill, rows, trace, i + 1);
        return None, newTrace;
      }
      answers := answers + [answer.value];
    }
    assert rows[..|rows|] == rows;
    outputs := Some(answers);
  }

  lemma {:induction false} RowsStop(env: Env, skill: string, rows: seq<Args>, trace: seq<Call>, i: nat)
    requires i <= |rows| && RunRows(env, skill, rows[..i], trace).0.None?
    ensures RunRows(env, skill, rows, trace) == RunRows(env, skill, rows[..i], trace)
  {
    if i == |rows| {
      assert rows[..i] == rows;
    } else {
      var shorter := rows[..|rows| - 1];
      assert shorter[..i] == rows[..i];
      RowsStop(env, skill, shorter, trace, i);
    }
  }

  method TryStep(env: Env, step: Step, ok: map<int, Value>, trace: seq<Call>) returns (a: Attempt)
    ensures a == AttemptStep(env, step.skill, Bind(step.args, ok), trace)
  {
    if HasFanout(Bind(step.args, ok)) {
      var rows := ResolveFanout(step.args, ok);
      if rows.None? {
        return Attempt(None, trace);
      }
      var outputs, t := CallRows(env, step.skill, rows.value, trace);
      a := Attempt(if outputs.Some? then Some(FanoutOutput(outputs.value)) else None, t);
    } else {
      var args := ResolveArguments(step.args, ok);
      if args.None? {
        return Attempt(None, trace);
      }
      var call := Call(step.skill, args.value);
      a := Attempt(env(trace, call), trace + [call]);
    }
  }

  /** The ok outputs after one more result. */
  lemma OkOutputsSnoc(results: seq<StepResult>, r: StepResult)
    ensures OkOutputs(results + [r]) ==
            if r.outcome.Ok? then OkOutputs(results)[r.index := r.outcome.output] else OkOutputs(results)
  {
    assert (results + [r])[..|results|] == results;
  }

  /** `WorkflowExecutor.execute`: one result per step; a failure blocks only its dependents. */
  method Execute(env: Env, steps: seq<Step>, trace: seq<Call>)
    returns (results: seq<StepResult>, newTrace: seq<Call>)
    ensures results == RunPlan(env, steps, trace).results
    ensures newTrace == RunPlan(env, steps, trace).trace
  {
    results, newTrace := [], trace;
    var unavailable: set<int> := {};
    var ok: map<int, Value> := map[];
    assert OkOutputs([]) == map[];
    assert steps[..0] == [];
    assert RunPlan(env, steps[..0], trace) == Run([], {}, trace);
    hide AttemptStep, Bind, OkOutputs, Blocked, RunPlan, StepSources;
    for i := 0 to |steps|
      invariant RunPlan(env, steps[..i], trace) == Run(results, unavailable, newTrace)
      invariant ok == OkOutputs(results)
    {
      assert steps[..i + 1] == steps[..i] + [steps[i]];
      RunSnoc(env, steps[..i], steps[i], trace);
      var step := steps[i];
      var outcome := Skipped;
      if Blocked(step, unavailable) == {} {
        var a := TryStep(env, step, ok, newTrace);
        newTrace := a.trace;
        outcome := OutcomeOf(a);
      }
      OkOutputsSnoc(results, StepResult(step.index, step.skill, outcome));
      results := results + [StepResult(step.index, step.skill, outcome)];
      if outcome.Ok? {
        ok := ok[step.index := outcome.output];
      } else {
        unavailable := unavailable + {step.index};
      }
    }
    assert steps[..|steps|] == steps;
  }
}
