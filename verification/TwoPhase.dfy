/** Two-phase planning: the reconnaissance steps that survive are renumbered, and running
    them again is a replay of the reconnaissance. */
module TwoPhase {
  import opened Text
  import opened Json
  import opened References
  import opened Executor
  import opened Isolation
  import opened Plans
  import opened Sets
  import opened Scenarios

  // ----- which steps are run as reconnaissance -----

  /** Python's `source in indices`: booleans and integral floats equal integers. */
  predicate InIndices(source: Value, indices: set<int>) {
    match source
    case Num(n) => n in indices
    case Bool(b) => (if b then 1 else 0) in indices
    case Float(r) => r.Floor as real == r && r.Floor in indices
    case _ => false
  }

  /** Only argument references consume output; `depends_on` is an ordering hint. */
  predicate ConsumesOutputOf(step: Step, indices: set<int>) {
    exists k | k in step.args :: InIndices(RefSource(step.args[k]), indices)
  }

  predicate Increasing(kept: seq<int>) {
    forall i, j :: 0 <= i < j < |kept| ==> kept[i] < kept[j]
  }

  predicate InPlan(kept: seq<int>, n: nat) {
    Increasing(kept) && forall i :: 0 <= i < |kept| ==> 0 <= kept[i] < n
  }

  /** The approval steps, which reconnaissance must not run. */
  function Unapproved(steps: seq<Step>): set<int> {
    set i | 0 <= i < |steps| && steps[i].requiresApproval :: steps[i].index
  }

  predicate IsRecon(steps: seq<Step>, i: int)
    requires 0 <= i < |steps|
  {
    !steps[i].requiresApproval && !ConsumesOutputOf(steps[i], Unapproved(steps))
  }

  /** The reconnaissance steps among the first `n`. */
  function Recon(steps: seq<Step>, n: nat): (recon: seq<int>)
    requires n <= |steps|
    ensures InPlan(recon, n)
  {
    if n == 0 then []
    else Recon(steps, n - 1) + if IsRecon(steps, n - 1) then [n - 1] else []
  }

  /** The read steps that consume the output of no skipped step, in order. */
  method ReconIndices(steps: seq<Step>) returns (recon: seq<int>)
    requires Numbered(steps)
    ensures recon == Recon(steps, |steps|)
    ensures InPlan(recon, |steps|)
    ensures forall i :: 0 <= i < |steps| ==>
              (i in recon <==> IsRecon(steps, i))
  {
    var skipped := Unapproved(steps);
    recon := [];
    for i := 0 to |steps|
      invariant recon == Recon(steps, i)
      invariant InPlan(recon, i)
      invariant forall j :: 0 <= j < i ==> (j in recon <==> IsRecon(steps, j))
    {
      assert steps[i].index in skipped <==> steps[i].requiresApproval;
      if steps[i].index !in skipped && !ConsumesOutputOf(steps[i], skipped) {
        recon := recon + [i];
      }
    }
  }

  // ----- renumbering -----

  /** Old index to position among the kept steps. */
  function Mapping(kept: seq<int>): map<int, int> {
    if kept == [] then map[]
    else Mapping(kept[..|kept| - 1])[kept[|kept| - 1] := |kept| - 1]
  }

  function RenumberArg(v: Value, mapping: map<int, int>): Value {
    var source := RefSource(v);
    if source.Num? && source.n in mapping then
      Obj(v.fields[(if "from" in v.fields then "from" else "from_step") := Num(mapping[source.n])])
    else v
  }

  function RenumberArgs(args: Args, mapping: map<int, int>): Args {
    map k | k in args :: RenumberArg(args[k], mapping)
  }

  /** Dependencies on kept steps at their new positions; the others are dropped. */
  function RenumberDeps(deps: seq<int>, mapping: map<int, int>): seq<int> {
    if deps == [] then []
    else
      var d := deps[|deps| - 1];
      RenumberDeps(deps[..|deps| - 1], mapping) + if d in mapping then [mapping[d]] else []
  }

  function RenumberStep(step: PlannedStep, mapping: map<int, int>): PlannedStep {
    PlannedStep(step.skill, RenumberArgs(step.args, mapping), RenumberDeps(step.dependsOn, mapping))
  }

  function Renumbered(planned: seq<PlannedStep>, kept: seq<int>): seq<PlannedStep>
    requires InPlan(kept, |planned|)
  {
    seq(|kept|, j requires 0 <= j < |kept| => RenumberStep(planned[kept[j]], Mapping(kept)))
  }

  /** `_renumber_kept`. */
  method RenumberKept(planned: seq<PlannedStep>, kept: seq<int>) returns (steps: seq<PlannedStep>)
    requires InPlan(kept, |planned|)
    ensures steps == Renumbered(planned, kept)
  {
    var mapping := Mapping(kept);
    steps := [];
    for j := 0 to |kept|
      invariant steps == Renumbered(planned, kept)[..j]
    {
      var step := planned[kept[j]];
      var arguments: Args := map[];
      var todo := step.args.Keys;
      while todo != {}
        invariant todo <= step.args.Keys && arguments.Keys == step.args.Keys - todo
        invariant forall k | k in arguments :: arguments[k] == RenumberArg(step.args[k], mapping)
        decreases todo
      {
        var key :| key in todo;
        arguments := arguments[key := RenumberArg(step.args[key], mapping)];
        todo := todo - {key};
      }
      assert arguments == RenumberArgs(step.args, mapping);
      steps := steps + [PlannedStep(step.skill, arguments, RenumberDeps(step.dependsOn, mapping))];
    }
  }

  // ----- facts about the mapping -----

  lemma {:induction false} MappingAt(kept: seq<int>, x: int)
    requires Increasing(kept)
    ensures x in Mapping(kept) ==> 0 <= Mapping(kept)[x] < |kept| && kept[Mapping(kept)[x]] == x
    ensures forall j :: 0 <= j < |kept| && kept[j] == x ==> x in Mapping(kept) && Mapping(kept)[x] == j
  {
    if kept != [] {
      MappingAt(kept[..|kept| - 1], x);
    }
  }

  lemma {:induction false} RenumberedDeps(deps: seq<int>, mapping: map<int, int>, x: int)
    ensures x in RenumberDeps(deps, mapping) <==> exists d :: d in deps && d in mapping && mapping[d] == x
  {
    if deps != [] {
      RenumberedDeps(deps[..|deps| - 1], mapping, x);
      assert deps == deps[..|deps| - 1] + [deps[|deps| - 1]];
    }
  }

  lemma RenumberedRef(v: Value, mapping: map<int, int>)
    ensures IsStepRef(RenumberArg(v, mapping)) <==> IsStepRef(v)
    ensures IsStepRef(v) ==> RefPath(RenumberArg(v, mapping)) == RefPath(v)
    ensures IsStepRef(v) ==>
              RefSource(RenumberArg(v, mapping)).n ==
              if RefSource(v).n in mapping then mapping[RefSource(v).n] else RefSource(v).n
    ensures !IsStepRef(v) ==> RenumberArg(v, mapping) == v
  {
    assert "path"[0] != "from"[0] && |"path"| != |"from_step"|;
  }

  // ----- the replay -----

  /** The step, in position `j` of the kept ones, holds a reference that renumbering leaves as it
      is and that would then name an earlier kept step. */
  ghost predicate Stale(args: Args, kept: seq<int>, j: int) {
    exists s :: s in StepSources(args) && s !in kept && 0 <= s < j
  }

  ghost predicate NoStaleReference(planned: seq<PlannedStep>, kept: seq<int>)
    requires InPlan(kept, |planned|)
  {
    forall j :: 0 <= j < |kept| ==> !Stale(planned[kept[j]].args, kept, j)
  }

  /** The kept steps reference kept steps only. */
  ghost predicate ClosedUnderReferences(planned: seq<PlannedStep>, kept: seq<int>)
    requires InPlan(kept, |planned|)
  {
    forall j, s :: 0 <= j < |kept| && s in StepSources(planned[kept[j]].args) ==> s in kept
  }

  /** The reconnaissance plan: the chosen steps under their first-pass indices. */
  function Slice(steps: seq<Step>, kept: seq<int>): seq<Step>
    requires InPlan(kept, |steps|)
  {
    seq(|kept|, j requires 0 <= j < |kept| => steps[kept[j]])
  }

  /** Two runs that differ only in how steps are numbered. */
  ghost predicate Relabelled(a: Run, b: Run, kept: seq<int>) {
    && |a.results| == |b.results| <= |kept|
    && a.trace == b.trace
    && NumberedResults(b.results) && b.unavailable == NotOk(b.results)
    && (forall i :: 0 <= i < |a.results| ==>
          && a.results[i].index == kept[i]
          && a.results[i].skill == b.results[i].skill
          && a.results[i].outcome == b.results[i].outcome)
    && a.unavailable == set i | 0 <= i < |a.results| && !a.results[i].outcome.Ok? :: kept[i]
  }

  lemma {:induction false} SlicedOutputs(results: seq<StepResult>, kept: seq<int>, x: int)
    requires Increasing(kept) && |results| <= |kept|
    requires forall i :: 0 <= i < |results| ==> results[i].index == kept[i]
    ensures x in OkOutputs(results) <==>
            exists i :: 0 <= i < |results| && kept[i] == x && results[i].outcome.Ok?
    ensures forall i :: 0 <= i < |results| && kept[i] == x && results[i].outcome.Ok? ==>
              OkOutputs(results)[x] == results[i].outcome.output
  {
    if results != [] {
      SlicedOutputs(results[..|results| - 1], kept, x);
    }
  }

  /** A reference in a reconnaissance step and the renumbered one read the same output. */
  lemma SameBinding(v: Value, a: Run, b: Run, kept: seq<int>)
    requires Increasing(kept) && Relabelled(a, b, kept)
    requires IsStepRef(v) ==> RefSource(v).n in kept || RefSource(v).n < 0 || RefSource(v).n >= |a.results|
    ensures BindOne(RenumberArg(v, Mapping(kept)), OkOutputs(b.results)) == BindOne(v, OkOutputs(a.results))
  {
    hide OkOutputs, Mapping, RenumberArg;
    RenumberedRef(v, Mapping(kept));
    if IsStepRef(v) {
      var s := RefSource(v).n;
      var s' := RefSource(RenumberArg(v, Mapping(kept))).n;
      MappingAt(kept, s);
      SlicedOutputs(a.results, kept, s);
      OkOutputsAt(b.results, s');
    }
  }

  lemma SameArguments(args: Args, a: Run, b: Run, kept: seq<int>)
    requires Increasing(kept) && Relabelled(a, b, kept)
    requires !Stale(args, kept, |a.results|)
    ensures Bind(RenumberArgs(args, Mapping(kept)), OkOutputs(b.results)) == Bind(args, OkOutputs(a.results))
  {
    hide OkOutputs, Mapping, RenumberArg, BindOne, Relabelled;
    forall k | k in args
      ensures BindOne(RenumberArg(args[k], Mapping(kept)), OkOutputs(b.results)) ==
              BindOne(args[k], OkOutputs(a.results))
    {
      assert IsStepRef(args[k]) ==> RefSource(args[k]).n in StepSources(args);
      SameBinding(args[k], a, b, kept);
    }
  }

  /** An edge leads to a bad step in one numbering exactly when it does in the other. */
  lemma SameBad(a: Run, b: Run, kept: seq<int>, x: int)
    requires Increasing(kept) && Relabelled(a, b, kept)
    ensures x in Mapping(kept) ==> (x in a.unavailable <==> Mapping(kept)[x] in b.unavailable)
    ensures x !in Mapping(kept) ==> x !in a.unavailable
    ensures x < 0 || x >= |a.results| ==> x !in b.unavailable
  {
    hide Mapping;
    MappingAt(kept, x);
  }

  /** A step blocked in the reconnaissance is blocked in the replay. */
  lemma StaysBlocked(step: Step, renumbered: Step, a: Run, b: Run, kept: seq<int>)
    requires Increasing(kept) && Relabelled(a, b, kept)
    requires renumbered.args == RenumberArgs(step.args, Mapping(kept))
    requires renumbered.dependsOn == RenumberDeps(step.dependsOn, Mapping(kept))
    ensures Blocked(step, a.unavailable) != {} ==> Blocked(renumbered, b.unavailable) != {}
  {
    var mapping := Mapping(kept);
    hide Mapping, RenumberDeps, RenumberArg, Relabelled;
    MovedRefs(step.args, mapping);
    if Blocked(step, a.unavailable) != {} {
      SomeMember(Blocked(step, a.unavailable));
      var x :| x in Blocked(step, a.unavailable);
      SameBad(a, b, kept, x);
      RenumberedDeps(step.dependsOn, mapping, mapping[x]);
      if x in StepSources(step.args) {
        var k :| k in step.args && IsStepRef(step.args[k]) && RefSource(step.args[k]).n == x;
        assert IsStepRef(renumbered.args[k]) && RefSource(renumbered.args[k]).n == mapping[x];
        assert mapping[x] in StepSources(renumbered.args);
      }
      assert mapping[x] in Blocked(renumbered, b.unavailable);
    }
  }

  lemma MovedRefs(args: Args, mapping: map<int, int>)
    ensures forall k | k in args ::
              && (IsStepRef(RenumberArg(args[k], mapping)) <==> IsStepRef(args[k]))
              && (IsStepRef(args[k]) ==>
                    RefSource(RenumberArg(args[k], mapping)).n == Moved(RefSource(args[k]).n, mapping))
  {
    hide RenumberArg;
    forall k | k in args
      ensures IsStepRef(RenumberArg(args[k], mapping)) <==> IsStepRef(args[k])
      ensures IsStepRef(args[k]) ==> RefSource(RenumberArg(args[k], mapping)).n == Moved(RefSource(args[k]).n, mapping)
    {
      RenumberedRef(args[k], mapping);
    }
  }

  lemma SameBlocked(step: Step, renumbered: Step, a: Run, b: Run, kept: seq<int>)
    requires Increasing(kept) && Relabelled(a, b, kept)
    requires renumbered.args == RenumberArgs(step.args, Mapping(kept))
    requires renumbered.dependsOn == RenumberDeps(step.dependsOn, Mapping(kept))
    requires !Stale(step.args, kept, |a.results|)
    ensures Blocked(step, a.unavailable) != {} <==> Blocked(renumbered, b.unavailable) != {}
  {
    var mapping := Mapping(kept);
    StaysBlocked(step, renumbered, a, b, kept);
    hide Mapping, RenumberDeps, RenumberArg, Relabelled;
    MovedRefs(step.args, mapping);
    if Blocked(renumbered, b.unavailable) != {} {
      SomeMember(Blocked(renumbered, b.unavailable));
      var y :| y in Blocked(renumbered, b.unavailable);
      if y in StepSources(renumbered.args) {
        var k :| k in step.args && IsStepRef(renumbered.args[k]) && RefSource(renumbered.args[k]).n == y;
        var x := RefSource(step.args[k]).n;
        assert x in StepSources(step.args);
        MappingAt(kept, x);
        SameBad(a, b, kept, x);
        SameBad(a, b, kept, y);
        assert x in Blocked(step, a.unavailable);
      } else {
        RenumberedDeps(step.dependsOn, mapping, y);
        var x :| x in step.dependsOn && x in mapping && mapping[x] == y;
        SameBad(a, b, kept, x);
        assert x in Blocked(step, a.unavailable);
      }
    }
  }

  function Moved(x: int, mapping: map<int, int>): int {
    if x in mapping then mapping[x] else x
  }

  /** `again` is the reconnaissance under new indices, step by step. */
  ghost predicate Copies(recon: seq<Step>, again: seq<Step>, kept: seq<int>) {
    && Increasing(kept) && |recon| == |again| == |kept|
    && forall j :: 0 <= j < |kept| ==> CopiesAt(recon[j], again[j], kept, j)
  }

  ghost predicate CopiesAt(step: Step, renumbered: Step, kept: seq<int>, j: nat)
    requires j < |kept|
  {
    && step.skill == renumbered.skill && step.index == kept[j] && renumbered.index == j
    && renumbered.args == RenumberArgs(step.args, Mapping(kept))
    && renumbered.dependsOn == RenumberDeps(step.dependsOn, Mapping(kept))
  }

  /** The same calls in the same order and, step by step, the same outcomes. */
  predicate Agree(a: Run, b: Run) {
    && a.trace == b.trace && |a.results| == |b.results|
    && forall i :: 0 <= i < |a.results| ==> a.results[i].outcome == b.results[i].outcome
  }

  /** Executing the renumbered kept steps replays the reconnaissance at every step. */
  ghost predicate Replays(env: Env, recon: seq<Step>, again: seq<Step>, trace: seq<Call>)
    requires |recon| == |again|
  {
    forall j :: 0 <= j <= |recon| ==> Agree(RunPlan(env, recon[..j], trace), RunPlan(env, again[..j], trace))
  }

  // ----- the step where a replay can part from the reconnaissance -----

  /** Reconnaissance results under the positions they have in the replay. */
  function ByPosition(results: seq<StepResult>): seq<StepResult> {
    seq(|results|, i requires 0 <= i < |results| => StepResult(i, results[i].skill, results[i].outcome))
  }

  /** After these reconnaissance results the step is blocked, or its renumbered copy is not
      blocked either and its arguments do not resolve. */
  ghost predicate HarmlessAt(before: seq<StepResult>, step: Step, renumbered: Step) {
    || Blocked(step, NotOkIndices(before)) != {}
    || (&& Blocked(renumbered, NotOkIndices(ByPosition(before))) == {}
        && ArgumentSets(Bind(renumbered.args, OkOutputs(ByPosition(before)))).None?)
  }

  /** Every step with a stale reference is harmless where the reconnaissance meets it. */
  ghost predicate Harmless(recon: seq<Step>, again: seq<Step>, kept: seq<int>, results: seq<StepResult>)
    requires |recon| == |again| == |kept| == |results|
  {
    forall j :: 0 <= j < |kept| && Stale(recon[j].args, kept, j) ==> HarmlessAt(results[..j], recon[j], again[j])
  }

  /** Arguments that read a step without result do not resolve. */
  lemma DeadArgument(args: Args, ok: map<int, Value>, s: int)
    requires s in StepSources(args) && s !in ok
    ensures ArgumentSets(Bind(args, ok)).None?
  {
    var b := Bind(args, ok);
    var k :| k in args && IsStepRef(args[k]) && RefSource(args[k]).n == s;
    assert b[k] == Output(None, RefPath(args[k]));
    DeadBound(b, k);
  }

  lemma DeadBound(b: map<string, Bound>, k: string)
    requires k in b && b[k].Output? && b[k].source.None?
    ensures ArgumentSets(b).None?
  {
    if IsWild(b[k]) {
      assert k in WildKeys(b);
      FanoutFails(b, k, k);
    } else {
      assert BoundCells(b)[k].None?;
      assert k in Shared(b) && BoundCells(Shared(b))[k].None?;
      assert BoundArguments(b).None? && BoundArguments(Shared(b)).None?;
    }
  }

  lemma ResultsByPosition(a: Run, b: Run, kept: seq<int>)
    requires Relabelled(a, b, kept)
    ensures b.results == ByPosition(a.results) && b.unavailable == NotOkIndices(ByPosition(a.results))
    ensures a.unavailable == NotOkIndices(a.results)
  {
    assert b.results == ByPosition(a.results);
    assert forall i :: 0 <= i < |b.results| ==> b.results[i].index == i;
    assert NotOk(b.results) == NotOkIndices(b.results);
    assert forall i :: 0 <= i < |a.results| ==> a.results[i].index == kept[i];
  }

  /** A step is the same in both runs when it is attempted with arguments that do not resolve. */
  lemma AttemptEither(env: Env, skill: string, b: map<string, Bound>, trace: seq<Call>)
    ensures var a := AttemptStep(env, skill, b, trace);
            OutcomeOf(a).Failed? && a.trace == trace <==> ArgumentSets(b).None?
  {
    AttemptGives(env, skill, b, trace);
    AttemptCalls(env, skill, b, trace);
    hide BoundArguments, FanoutRows, HasFanout;
  }

  /** At a stale reference the two runs go on alike exactly when the step is harmless. */
  lemma StaleStep(env: Env, step: Step, renumbered: Step, a: Run, b: Run, kept: seq<int>)
    requires Increasing(kept) && Relabelled(a, b, kept) && |a.results| < |kept|
    requires CopiesAt(step, renumbered, kept, |a.results|)
    requires Stale(step.args, kept, |a.results|)
    ensures Agree(RunStep(env, step, a), RunStep(env, renumbered, b)) <==> HarmlessAt(a.results, step, renumbered)
  {
    StaysBlocked(step, renumbered, a, b, kept);
    ResultsByPosition(a, b, kept);
    var s :| s in StepSources(step.args) && s !in kept && 0 <= s < |a.results|;
    SlicedOutputs(a.results, kept, s);
    DeadArgument(step.args, OkOutputs(a.results), s);
    hide AttemptStep, Bind, OkOutputs, Blocked, Mapping, RenumberArgs, RenumberDeps, NotOk, ArgumentSets, ByPosition,
         NotOkIndices, StepSources;
    AttemptEither(env, step.skill, Bind(step.args, OkOutputs(a.results)), a.trace);
    AttemptEither(env, renumbered.skill, Bind(renumbered.args, OkOutputs(b.results)), b.trace);
    LastOutcomes(a, b, step, renumbered, RunStep(env, step, a), RunStep(env, renumbered, b));
  }

  /** After runs that agree, one more step agrees when its outcome and its calls do. */
  lemma LastOutcomes(a: Run, b: Run, step: Step, renumbered: Step, c: Run, d: Run)
    requires |a.results| == |b.results| && |c.results| == |d.results| == |a.results| + 1
    requires forall i :: 0 <= i < |a.results| ==> a.results[i].outcome == b.results[i].outcome
    requires c.results[..|a.results|] == a.results && d.results[..|b.results|] == b.results
    ensures Agree(c, d) <==> c.trace == d.trace && c.results[|a.results|].outcome == d.results[|a.results|].outcome
  {
    forall i | 0 <= i < |a.results|
      ensures c.results[i].outcome == d.results[i].outcome
    {
      assert c.results[..|a.results|][i] == c.results[i] && d.results[..|b.results|][i] == d.results[i];
    }
  }

  lemma RunTake(env: Env, steps: seq<Step>, trace: seq<Call>, j: nat)
    requires 0 < j <= |steps|
    ensures RunPlan(env, steps[..j], trace) == RunStep(env, steps[j - 1], RunPlan(env, steps[..j - 1], trace))
  {
    assert steps[..j][..j - 1] == steps[..j - 1];
  }

  /** The renumbered kept steps are copies of the reconnaissance. */
  lemma StepsMatch(planned: seq<PlannedStep>, registry: Registry, kept: seq<int>)
    requires ClassifiablePlan(planned, registry) && InPlan(kept, |planned|)
    requires ClassifiablePlan(Renumbered(planned, kept), registry)
    ensures Copies(Slice(Classified(planned, registry), kept), Classified(Renumbered(planned, kept), registry), kept)
  {
    hide RenumberArgs, RenumberDeps, Mapping, ClassifiablePlan, StepSources;
  }

  lemma ReplayStep(env: Env, step: Step, renumbered: Step, a: Run, b: Run, kept: seq<int>)
    requires Increasing(kept) && Relabelled(a, b, kept) && |a.results| < |kept|
    requires CopiesAt(step, renumbered, kept, |a.results|)
    requires !Stale(step.args, kept, |a.results|)
    ensures Agree(RunStep(env, step, a), RunStep(env, renumbered, b))
  {
    SameArguments(step.args, a, b, kept);
    SameBlocked(step, renumbered, a, b, kept);
    hide AttemptStep, Bind, OkOutputs, Blocked, Mapping, RenumberArgs, RenumberDeps, StepSources, Stale;
    LastOutcomes(a, b, step, renumbered, RunStep(env, step, a), RunStep(env, renumbered, b));
  }

  /** Runs of copies that agree differ in numbering only. */
  lemma {:induction false} AgreedAreRelabelled(env: Env, recon: seq<Step>, again: seq<Step>, kept: seq<int>,
                                               trace: seq<Call>, j: nat)
    requires Copies(recon, again, kept) && j <= |kept|
    requires Agree(RunPlan(env, recon[..j], trace), RunPlan(env, again[..j], trace))
    ensures Relabelled(RunPlan(env, recon[..j], trace), RunPlan(env, again[..j], trace), kept)
    ensures |RunPlan(env, recon[..j], trace).results| == j
  {
    hide RunPlan, Mapping, RenumberArgs, RenumberDeps;
    var a, b := RunPlan(env, recon[..j], trace), RunPlan(env, again[..j], trace);
    ResultsOf(env, recon[..j], trace);
    ResultsOf(env, again[..j], trace);
    RunUnavailable(env, recon[..j], trace);
    RunUnavailable(env, again[..j], trace);
    forall i | 0 <= i < j
      ensures a.results[i].index == kept[i] && b.results[i].index == i && a.results[i].skill == b.results[i].skill
    {
      assert CopiesAt(recon[i], again[i], kept, i);
    }
  }

  lemma {:induction false} ResultsOf(env: Env, steps: seq<Step>, trace: seq<Call>)
    ensures var results := RunPlan(env, steps, trace).results;
            |results| == |steps| &&
            forall i :: 0 <= i < |steps| ==> results[i].index == steps[i].index && results[i].skill == steps[i].skill
  {
    if steps != [] {
      hide RunStep;
      ResultsOf(env, steps[..|steps| - 1], trace);
      OneMoreResult(env, steps[|steps| - 1], RunPlan(env, steps[..|steps| - 1], trace));
    }
  }

  lemma OneMoreResult(env: Env, step: Step, run: Run)
    ensures var results := RunStep(env, step, run).results;
            && |results| == |run.results| + 1 && results[..|run.results|] == run.results
            && results[|run.results|].index == step.index && results[|run.results|].skill == step.skill
  {
    hide AttemptStep, Blocked, Bind, OkOutputs;
  }

  /** While the runs agree, the next step agrees exactly when it is not stale or harmless. */
  lemma NextAgrees(env: Env, recon: seq<Step>, again: seq<Step>, kept: seq<int>, trace: seq<Call>, j: nat)
    requires Copies(recon, again, kept) && j < |kept|
    requires Agree(RunPlan(env, recon[..j], trace), RunPlan(env, again[..j], trace))
    ensures |RunPlan(env, recon, trace).results| == |kept|
    ensures Agree(RunPlan(env, recon[..j + 1], trace), RunPlan(env, again[..j + 1], trace)) <==>
            (Stale(recon[j].args, kept, j) ==> HarmlessAt(RunPlan(env, recon, trace).results[..j], recon[j], again[j]))
  {
    hide RunPlan, RunStep, Agree, HarmlessAt, Stale, CopiesAt, Relabelled;
    AgreedAreRelabelled(env, recon, again, kept, trace, j);
    RunTake(env, recon, trace, j + 1);
    RunTake(env, again, trace, j + 1);
    RunPrefix(env, recon, trace, j);
    var a, b := RunPlan(env, recon[..j], trace), RunPlan(env, again[..j], trace);
    if Stale(recon[j].args, kept, j) {
      StaleStep(env, recon[j], again[j], a, b, kept);
    } else {
      ReplayStep(env, recon[j], again[j], a, b, kept);
    }
  }

  /** For given skill functions: the renumbered plan replays the reconnaissance if and only if
      every step with a stale reference was harmless in the reconnaissance. */
  lemma ReplaysExactly(env: Env, recon: seq<Step>, again: seq<Step>, kept: seq<int>, trace: seq<Call>)
    requires Copies(recon, again, kept)
    ensures |RunPlan(env, recon, trace).results| == |kept|
    ensures Replays(env, recon, again, trace) <==> Harmless(recon, again, kept, RunPlan(env, recon, trace).results)
  {
    hide RunPlan, Agree, HarmlessAt, Stale, CopiesAt;
    ResultsOf(env, recon, trace);
    var results := RunPlan(env, recon, trace).results;
    if Replays(env, recon, again, trace) {
      forall j | 0 <= j < |kept| && Stale(recon[j].args, kept, j)
        ensures HarmlessAt(results[..j], recon[j], again[j])
      {
        assert Agree(RunPlan(env, recon[..j], trace), RunPlan(env, again[..j], trace));
        assert Agree(RunPlan(env, recon[..j + 1], trace), RunPlan(env, again[..j + 1], trace));
        NextAgrees(env, recon, again, kept, trace, j);
      }
    }
    if Harmless(recon, again, kept, results) {
      forall j | 0 <= j <= |kept|
        ensures Agree(RunPlan(env, recon[..j], trace), RunPlan(env, again[..j], trace))
      {
        HarmlessAgrees(env, recon, again, kept, trace, j);
      }
    }
  }

  lemma {:induction false} HarmlessAgrees(env: Env, recon: seq<Step>, again: seq<Step>, kept: seq<int>,
                                          trace: seq<Call>, j: nat)
    requires Copies(recon, again, kept) && j <= |kept| && |RunPlan(env, recon, trace).results| == |kept|
    requires Harmless(recon, again, kept, RunPlan(env, recon, trace).results)
    ensures Agree(RunPlan(env, recon[..j], trace), RunPlan(env, again[..j], trace))
  {
    if j == 0 {
      assert RunPlan(env, recon[..0], trace) == RunPlan(env, again[..0], trace) == Run([], {}, trace);
    } else {
      hide RunPlan, Agree, HarmlessAt, Stale, CopiesAt;
      HarmlessAgrees(env, recon, again, kept, trace, j - 1);
      NextAgrees(env, recon, again, kept, trace, j - 1);
    }
  }

  /** Over all skill functions: the renumbered plan always replays the reconnaissance if and only
      if no possible reconnaissance meets a stale reference that is not harmless. */
  lemma AlwaysReplays(recon: seq<Step>, again: seq<Step>, kept: seq<int>, trace: seq<Call>)
    requires Copies(recon, again, kept)
    ensures (forall env: Env :: Replays(env, recon, again, trace)) <==>
            forall results :: Scenario(recon, results) && |results| == |kept| ==> Harmless(recon, again, kept, results)
  {
    hide RunPlan, Replays, Harmless, Scenario, CopiesAt;
    if forall env: Env :: Replays(env, recon, again, trace) {
      forall results | Scenario(recon, results) && |results| == |kept|
        ensures Harmless(recon, again, kept, results)
      {
        ScenariosAreRuns(recon, results, trace);
        var env: Env :| RunPlan(env, recon, trace).results == results;
        ReplaysExactly(env, recon, again, kept, trace);
      }
    } else {
      var env: Env :| !Replays(env, recon, again, trace);
      ReplaysExactly(env, recon, again, kept, trace);
      RunIsScenario(env, recon, trace);
      ResultsOf(env, recon, trace);
      assert !Harmless(recon, again, kept, RunPlan(env, recon, trace).results);
    }
  }

  // ----- when every skill fails -----

  function AllFail(): Env {
    (t: seq<Call>, c: Call) => None
  }

  predicate NoneOk(results: seq<StepResult>) {
    forall i :: 0 <= i < |results| ==> !results[i].outcome.Ok?
  }

  lemma {:induction false} NothingOk(steps: seq<Step>, trace: seq<Call>)
    ensures NoneOk(RunPlan(AllFail(), steps, trace).results)
  {
    if steps != [] {
      hide AttemptStep, Blocked, Bind, OkOutputs, AllFail;
      NothingOk(steps[..|steps| - 1], trace);
      var run := RunPlan(AllFail(), steps[..|steps| - 1], trace);
      var step := steps[|steps| - 1];
      NoOutputs(run.results);
      FailsWithoutOutputs(step.skill, step.args, run.trace);
    }
  }

  lemma {:induction false} NoOutputs(results: seq<StepResult>)
    requires NoneOk(results)
    ensures OkOutputs(results) == map[]
  {
    if results != [] {
      NoOutputs(results[..|results| - 1]);
    }
  }

  lemma FailsWithoutOutputs(skill: string, args: Args, trace: seq<Call>)
    ensures AttemptStep(AllFail(), skill, Bind(args, map[]), trace).output.None?
  {
    var b := Bind(args, map[]);
    if HasFanout(b) {
      var k :| k in WildKeys(b);
      DeadBound(b, k);
    }
  }

  /** The step waits for no kept step before it. */
  predicate Unhindered(step: Step, kept: seq<int>, j: nat)
    requires j <= |kept|
  {
    forall i :: 0 <= i < j ==> kept[i] !in Edges(step)
  }

  /** A stale reference in a step that waits for no kept step breaks the replay when every skill
      fails: the step fails in the reconnaissance and is skipped in the replay. */
  lemma StaleBreaks(recon: seq<Step>, again: seq<Step>, kept: seq<int>, trace: seq<Call>, j: nat)
    requires Copies(recon, again, kept) && j < |kept|
    requires Stale(recon[j].args, kept, j) && Unhindered(recon[j], kept, j)
    ensures !Replays(AllFail(), recon, again, trace)
  {
    hide RunPlan, Replays, AllFail, Mapping, RenumberDeps, RenumberArg;
    var env := AllFail();
    ReplaysExactly(env, recon, again, kept, trace);
    NothingOk(recon, trace);
    ResultsOf(env, recon, trace);
    var before := RunPlan(env, recon, trace).results[..j];
    assert CopiesAt(recon[j], again[j], kept, j);
    forall i | 0 <= i < j
      ensures before[i].index == kept[i]
    {
      assert CopiesAt(recon[i], again[i], kept, i);
    }
    var s :| s in StepSources(recon[j].args) && s !in kept && 0 <= s < j;
    StaysSource(recon[j].args, kept, s);
    assert s in NotOkIndices(ByPosition(before)) by {
      assert ByPosition(before)[s].index == s && !ByPosition(before)[s].outcome.Ok?;
    }
    assert s in Blocked(again[j], NotOkIndices(ByPosition(before)));
    UnblockedRecon(recon[j], kept, j, before);
    assert !HarmlessAt(before, recon[j], again[j]);
  }

  lemma UnblockedRecon(step: Step, kept: seq<int>, j: nat, before: seq<StepResult>)
    requires j <= |kept| && |before| == j && Unhindered(step, kept, j)
    requires forall i :: 0 <= i < j ==> before[i].index == kept[i]
    ensures Blocked(step, NotOkIndices(before)) == {}
  {
    forall x | x in NotOkIndices(before)
      ensures x !in Edges(step)
    {
    }
  }

  lemma StaysSource(args: Args, kept: seq<int>, s: int)
    requires Increasing(kept) && s in StepSources(args) && s !in kept
    ensures s in StepSources(RenumberArgs(args, Mapping(kept)))
  {
    hide Mapping, RenumberArg;
    MappingAt(kept, s);
    MovedRefs(args, Mapping(kept));
    var k :| k in args && IsStepRef(args[k]) && RefSource(args[k]).n == s;
    var moved := RenumberArgs(args, Mapping(kept));
    assert IsStepRef(moved[k]) && RefSource(moved[k]).n == s;
  }

  // ----- slicing a plan -----

  lemma RenumberedClassifiable(planned: seq<PlannedStep>, registry: Registry, kept: seq<int>)
    requires ClassifiablePlan(planned, registry) && InPlan(kept, |planned|)
    ensures ClassifiablePlan(Renumbered(planned, kept), registry)
  {
    var again := Renumbered(planned, kept);
    var mapping := Mapping(kept);
    forall j | 0 <= j < |again|
      ensures Classifiable(again[j], j, registry)
    {
      assert Classifiable(planned[kept[j]], kept[j], registry);
      forall d | d in again[j].dependsOn
        ensures 0 <= d < j
      {
        RenumberedDeps(planned[kept[j]].dependsOn, mapping, d);
        var was :| was in planned[kept[j]].dependsOn && was in mapping && mapping[was] == d;
        MappingAt(kept, was);
      }
    }
  }

  /** The renumbered plan, classified again. */
  function Again(planned: seq<PlannedStep>, registry: Registry, kept: seq<int>): seq<Step>
    requires ClassifiablePlan(planned, registry) && InPlan(kept, |planned|)
  {
    RenumberedClassifiable(planned, registry, kept);
    Classified(Renumbered(planned, kept), registry)
  }

  /** Slicing is a simulation: when no kept step holds a stale reference, the renumbered plan
      makes the calls of the reconnaissance and step `j` gets the outcome of step `kept[j]`. */
  lemma SlicingIsSimulation(env: Env, planned: seq<PlannedStep>, registry: Registry, kept: seq<int>, trace: seq<Call>)
    requires ClassifiablePlan(planned, registry) && InPlan(kept, |planned|)
    requires NoStaleReference(planned, kept)
    ensures var a := RunPlan(env, Slice(Classified(planned, registry), kept), trace);
            var b := RunPlan(env, Again(planned, registry, kept), trace);
            && a.trace == b.trace
            && |a.results| == |b.results| == |kept|
            && forall j :: 0 <= j < |kept| ==>
                 && a.results[j].index == kept[j] && b.results[j].index == j
                 && a.results[j].skill == b.results[j].skill == planned[kept[j]].skill
                 && a.results[j].outcome == b.results[j].outcome
  {
    RenumberedClassifiable(planned, registry, kept);
    SkillsKept(planned, registry, kept);
    StepsMatch(planned, registry, kept);
    var recon, again := Slice(Classified(planned, registry), kept), Again(planned, registry, kept);
    assert recon[..|kept|] == recon && again[..|kept|] == again;
    StaleInSlice(planned, registry, kept);
    hide NoStaleReference, RunPlan, Slice, Renumbered, Classified, ClassifiablePlan, InPlan, Copies, Again, Stale,
         HarmlessAt;
    ReplaysExactly(env, recon, again, kept, trace);
    assert Agree(RunPlan(env, recon[..|kept|], trace), RunPlan(env, again[..|kept|], trace));
    AgreedAreRelabelled(env, recon, again, kept, trace, |kept|);
    RunShape(env, again, trace);
  }

  lemma StaleInSlice(planned: seq<PlannedStep>, registry: Registry, kept: seq<int>)
    requires ClassifiablePlan(planned, registry) && InPlan(kept, |planned|)
    ensures var recon := Slice(Classified(planned, registry), kept);
            forall j :: 0 <= j < |kept| ==>
              (Stale(recon[j].args, kept, j) <==> Stale(planned[kept[j]].args, kept, j))
  {
    hide Stale, ClassifiablePlan;
  }

  /** Where steps with a stale reference wait for no kept step, the condition is exact: the
      replay is faithful for all skill functions if and only if there is no stale reference. */
  lemma ReplaysWithoutStale(planned: seq<PlannedStep>, registry: Registry, kept: seq<int>, trace: seq<Call>)
    requires ClassifiablePlan(planned, registry) && InPlan(kept, |planned|)
    requires var recon := Slice(Classified(planned, registry), kept);
             forall j :: 0 <= j < |kept| && Stale(recon[j].args, kept, j) ==> Unhindered(recon[j], kept, j)
    ensures (forall env: Env ::
               Replays(env, Slice(Classified(planned, registry), kept), Again(planned, registry, kept), trace)) <==>
            NoStaleReference(planned, kept)
  {
    RenumberedClassifiable(planned, registry, kept);
    SkillsKept(planned, registry, kept);
    StepsMatch(planned, registry, kept);
    StaleInSlice(planned, registry, kept);
    var recon, again := Slice(Classified(planned, registry), kept), Again(planned, registry, kept);
    hide RunPlan, Slice, Renumbered, Classified, ClassifiablePlan, InPlan, Copies, Again, Stale, HarmlessAt, Replays,
         Unhindered;
    if NoStaleReference(planned, kept) {
      forall env: Env
        ensures Replays(env, recon, again, trace)
      {
        ReplaysExactly(env, recon, again, kept, trace);
      }
    } else {
      var j :| 0 <= j < |kept| && Stale(planned[kept[j]].args, kept, j);
      StaleBreaks(recon, again, kept, trace, j);
    }
  }

  lemma SkillsKept(planned: seq<PlannedStep>, registry: Registry, kept: seq<int>)
    requires ClassifiablePlan(planned, registry) && InPlan(kept, |planned|)
    requires ClassifiablePlan(Renumbered(planned, kept), registry)
    ensures |Slice(Classified(planned, registry), kept)| == |kept|
    ensures var again := Classified(Renumbered(planned, kept), registry);
            && |again| == |kept| && Numbered(again)
            && forall j :: 0 <= j < |kept| ==> again[j].skill == planned[kept[j]].skill
  {
    hide RenumberArgs, RenumberDeps, Mapping, ClassifiablePlan;
  }

  /** Renumbered kept steps that are closed under references point back only. */
  lemma RenumberedBackward(planned: seq<PlannedStep>, registry: Registry, kept: seq<int>)
    requires ClassifiablePlan(planned, registry) && InPlan(kept, |planned|)
    requires ClosedUnderReferences(planned, kept) && BackwardReferences(planned)
    ensures ClassifiablePlan(Renumbered(planned, kept), registry)
    ensures BackwardReferences(Renumbered(planned, kept))
  {
    RenumberedClassifiable(planned, registry, kept);
    hide Mapping, RenumberArg, ClassifiablePlan;
    var again := Renumbered(planned, kept);
    forall j, s | 0 <= j < |again| && s in StepSources(again[j].args)
      ensures 0 <= s < j
    {
      var args := planned[kept[j]].args;
      var k :| k in args && IsStepRef(again[j].args[k]) && RefSource(again[j].args[k]).n == s;
      RenumberedRef(args[k], Mapping(kept));
      var was := RefSource(args[k]).n;
      assert was in StepSources(args);
      MappingAt(kept, was);
      assert was < kept[j];
      assert was in StepSources(planned[kept[j]].args) && was in kept;
      var i :| 0 <= i < |kept| && kept[i] == was;
      assert s == i;
    }
  }

  // ----- a read of a dropped read -----

  function StepRef(n: int): Value {
    Obj(map["from" := Num(n)])
  }

  /** Step 0 needs approval; step 1 reads its output and is dropped; step 4 reads step 1. */
  ghost predicate StaleShape(planned: seq<PlannedStep>, registry: Registry) {
    && |planned| == 5
    && ClassifiablePlan(planned, registry)
    && (forall i :: 0 <= i < 5 ==> planned[i].dependsOn == [])
    && (forall i :: 0 <= i < 5 ==> (registry[planned[i].skill].tier == READ_TIER <==> i != 0))
    && planned[1].args == map["parent_id" := StepRef(0)]
    && planned[2].args == map["q" := Str("a")]
    && planned[3].args == map["q" := Str("b")]
    && planned[4].args == map["q" := StepRef(1)]
  }

  lemma StaleShapeExists()
    ensures StaleShape([PlannedStep("mkdir", map[], []),
                        PlannedStep("list", map["parent_id" := StepRef(0)], []),
                        PlannedStep("list", map["q" := Str("a")], []),
                        PlannedStep("list", map["q" := Str("b")], []),
                        PlannedStep("list", map["q" := StepRef(1)], [])],
                       map["mkdir" := Skill("write", false, NewFolder, []),
                           "list" := Skill(READ_TIER, false, PagedItems, [])])
  {
    assert |"mkdir"| != |"list"| && |"write"| != |READ_TIER|;
  }

  /** The reconnaissance steps of such a plan are 2, 3 and 4: the check looks one reference
      back only, so the read of the dropped read is kept, and renumbering leaves it stale. */
  lemma StaleKept(planned: seq<PlannedStep>, registry: Registry)
    requires StaleShape(planned, registry)
    ensures var steps := Classified(planned, registry);
            forall i :: 0 <= i < 5 ==> (i in [2, 3, 4] <==> IsRecon(steps, i))
    ensures !NoStaleReference(planned, [2, 3, 4])
  {
    var steps := Classified(planned, registry);
    assert steps[0].requiresApproval && steps[0].index == 0;
    assert Unapproved(steps) == {0};
    assert RefSource(steps[1].args["parent_id"]) == Num(0);
    forall i | i in {2, 3, 4}
      ensures !ConsumesOutputOf(steps[i], {0})
    {
      assert steps[i].args.Keys == {"q"};
    }
    assert IsStepRef(planned[4].args["q"]);
    var kept := [2, 3, 4];
    assert kept[2] == 4 && 1 !in kept;
    assert 1 in StepSources(planned[kept[2]].args);
    assert Stale(planned[kept[2]].args, kept, 2);
  }

  /** Without closure the replay differs: in the reconnaissance the read of the dropped read
      fails, in the renumbered plan it reads another step's output and succeeds. */
  lemma StaleReferenceDiffers(env: Env, planned: seq<PlannedStep>, registry: Registry)
    requires forall t, c :: env(t, c) == Some(Str("v"))
    requires StaleShape(planned, registry)
    ensures ClassifiablePlan(Renumbered(planned, [2, 3, 4]), registry)
    ensures var a := RunPlan(env, Slice(Classified(planned, registry), [2, 3, 4]), []);
            var b := RunPlan(env, Classified(Renumbered(planned, [2, 3, 4]), registry), []);
            |a.results| == |b.results| == 3 && a.results[2].outcome.Failed? && b.results[2].outcome.Ok?
  {
    var kept := [2, 3, 4];
    RenumberedClassifiable(planned, registry, kept);
    StaleRenumbered(planned, registry);
    hide RunPlan, Renumbered, ClassifiablePlan;
    ThreeSteps(env, Slice(Classified(planned, registry), kept), kept, "a", "b");
    ThreeSteps(env, Classified(Renumbered(planned, kept), registry), [0, 1, 2], "a", "b");
  }

  lemma StaleRenumbered(planned: seq<PlannedStep>, registry: Registry)
    requires StaleShape(planned, registry)
    requires ClassifiablePlan(Renumbered(planned, [2, 3, 4]), registry)
    ensures ThreeShape(Classified(Renumbered(planned, [2, 3, 4]), registry), [0, 1, 2], "a", "b")
  {
    StaleReference();
    hide ClassifiablePlan, Mapping, RenumberStep, RenumberArg, StepRef;
    var kept, mapping := [2, 3, 4], Mapping([2, 3, 4]);
    forall j | 0 <= j < 3
      ensures Renumbered(planned, kept)[j] == RenumberStep(planned[kept[j]], mapping) == planned[kept[j]]
    {
      RenumberOne(planned[kept[j]], planned[kept[j]].args["q"], mapping);
    }
    hide Renumbered;
    CopiedShape(planned, Renumbered(planned, kept), registry);
  }

  lemma CopiedShape(planned: seq<PlannedStep>, again: seq<PlannedStep>, registry: Registry)
    requires StaleShape(planned, registry) && ClassifiablePlan(again, registry)
    requires |again| == 3 && forall j :: 0 <= j < 3 ==> again[j] == planned[j + 2]
    ensures ThreeShape(Classified(again, registry), [0, 1, 2], "a", "b")
  {
    hide ClassifiablePlan, StepRef;
    assert again[0] == planned[2] && again[1] == planned[3] && again[2] == planned[4];
    var steps := Classified(again, registry);
    assert steps[0].args == again[0].args && steps[1].args == again[1].args && steps[2].args == again[2].args;
  }

  /** The mapping leaves literals alone, and the index of the dropped read as it is. */
  lemma StaleReference()
    ensures var mapping := Mapping([2, 3, 4]);
            && RenumberArg(StepRef(1), mapping) == StepRef(1)
            && RenumberArg(Str("a"), mapping) == Str("a") && RenumberArg(Str("b"), mapping) == Str("b")
  {
    hide Mapping;
    MappingAt([2, 3, 4], 1);
  }

  lemma RenumberOne(step: PlannedStep, v: Value, mapping: map<int, int>)
    requires step.args == map["q" := v] && step.dependsOn == [] && RenumberArg(v, mapping) == v
    ensures RenumberStep(step, mapping) == step
  {
    hide RenumberArg;
    assert RenumberArgs(step.args, mapping) == step.args;
  }

  /** Two literal searches followed by one that reads step 1. */
  predicate ThreeShape(steps: seq<Step>, indices: seq<int>, first: string, second: string) {
    && |steps| == |indices| == 3
    && (forall j :: 0 <= j < 3 ==> steps[j].index == indices[j] && steps[j].dependsOn == [])
    && steps[0].args == map["q" := Str(first)]
    && steps[1].args == map["q" := Str(second)]
    && steps[2].args == map["q" := StepRef(1)]
  }

  lemma LiteralCall(env: Env, step: Step, text: string, run: Run)
    requires env(run.trace, Call(step.skill, step.args)) == Some(Str("v"))
    requires step.args == map["q" := Str(text)] && step.dependsOn == []
    ensures RunStep(env, step, run) ==
            Record(run, step, Ok(Str("v")), run.trace + [Call(step.skill, step.args)])
  {
    var b := Bind(step.args, OkOutputs(run.results));
    assert b == map["q" := Literal(Str(text))];
    assert WildKeys(b) == {};
    assert BoundCells(b) == map["q" := Some(Str(text))];
    assert BoundArguments(b).value == step.args;
    assert StepSources(step.args) == {};
  }

  lemma ReferenceCall(env: Env, step: Step, run: Run)
    requires forall t, c :: env(t, c) == Some(Str("v"))
    requires step.args == map["q" := StepRef(1)] && step.dependsOn == [] && run.unavailable == {}
    ensures var outcome := RunStep(env, step, run).results[|run.results|].outcome;
            if 1 in OkOutputs(run.results) then outcome.Ok? else outcome.Failed?
  {
    hide OkOutputs, DestinationProblem;
    var ok := OkOutputs(run.results);
    var b := Bind(step.args, ok);
    var source := if 1 in ok then Some(ok[1]) else None;
    assert StepRef(1).fields.Keys == {"from"};
    assert "path" !in StepRef(1).fields by { assert "path"[0] != "from"[0]; }
    assert b == map["q" := Output(source, "")];
    assert Parts("") == [];
    assert WildKeys(b) == {};
    assert BoundCells(b).Keys == {"q"};
    if 1 in ok {
      assert !DestinationProblem("q", Null) by { NoProblem("q"); }
      assert BoundCells(b)["q"] == Some(ok[1]);
    } else {
      assert BoundCells(b)["q"] == None;
    }
  }

  lemma NoProblem(argName: string)
    ensures !DestinationProblem(argName, Null)
  {
  }

  lemma ThreeSteps(env: Env, steps: seq<Step>, indices: seq<int>, first: string, second: string)
    requires forall t, c :: env(t, c) == Some(Str("v"))
    requires ThreeShape(steps, indices, first, second)
    ensures var results := RunPlan(env, steps, []).results;
            |results| == 3 && !results[2].outcome.Skipped? &&
            (results[2].outcome.Ok? <==> indices[0] == 1 || indices[1] == 1)
  {
    hide RunStep, RunPlan, OkOutputs;
    var none, one := Run([], {}, []), RunStep(env, steps[0], Run([], {}, []));
    assert RunPlan(env, [], []) == none by { EmptyRun(env); }
    LiteralCall(env, steps[0], first, none);
    LiteralCall(env, steps[1], second, one);
    var two := RunStep(env, steps[1], one);
    RunSnoc(env, [], steps[0], []);
    RunSnoc(env, [steps[0]], steps[1], []);
    RunSnoc(env, [steps[0], steps[1]], steps[2], []);
    assert [] + [steps[0]] == [steps[0]] && [steps[0]] + [steps[1]] == [steps[0], steps[1]];
    assert [steps[0], steps[1]] + [steps[2]] == steps;
    TwoOutputs(one.results[0], two.results[1]);
    assert two.results == [one.results[0], two.results[1]];
    ReferenceCall(env, steps[2], two);
    RunLength(env, steps, []);
  }

  lemma EmptyRun(env: Env)
    ensures RunPlan(env, [], []) == Run([], {}, [])
  {
  }

  lemma TwoOutputs(a: StepResult, b: StepResult)
    requires a.outcome.Ok? && b.outcome.Ok?
    ensures OkOutputs([a, b]).Keys == {a.index, b.index}
  {
    assert [a, b][..1] == [a] && [a][..0] == [];
    assert OkOutputs([a]) == map[a.index := a.outcome.output];
  }
}
