/** Planned steps, the skill catalog, and classification into executable steps. */
module Plans {
  import opened Text
  import opened Json
  import opened References
  import opened Executor
  import opened Isolation

  datatype OutputShape = PagedItems | ItemList | Item | NewFolder | MutatedItem | Opaque

  datatype Skill = Skill(tier: string, requiresSelection: bool, output: OutputShape, required: seq<string>)

  type Registry = map<string, Skill>

  datatype PlannedStep = PlannedStep(skill: string, args: Args, dependsOn: seq<int>)

  /** What classification demands of step `i` of a plan. */
  predicate Classifiable(step: PlannedStep, i: int, registry: Registry) {
    step.skill in registry && forall d | d in step.dependsOn :: 0 <= d < i
  }

  predicate ClassifiablePlan(planned: seq<PlannedStep>, registry: Registry) {
    forall i :: 0 <= i < |planned| ==> Classifiable(planned[i], i, registry)
  }

  function Executable(step: PlannedStep, i: int, tier: string): Step {
    Step(i, step.skill, step.args, step.dependsOn, tier, tier != READ_TIER)
  }

  function Classified(planned: seq<PlannedStep>, registry: Registry): (steps: seq<Step>)
    requires ClassifiablePlan(planned, registry)
  {
    seq(|planned|, i requires 0 <= i < |planned| =>
      assert Classifiable(planned[i], i, registry);
      Executable(planned[i], i, registry[planned[i].skill].tier))
  }

  /** `classify_steps`: `None` when a skill is unknown or a dependency does not point back. */
  method ClassifySteps(planned: seq<PlannedStep>, registry: Registry) returns (r: Option<seq<Step>>)
    ensures r.Some? <==> ClassifiablePlan(planned, registry)
    ensures r.Some? ==> r.value == Classified(planned, registry)
  {
    var steps: seq<Step> := [];
    for i := 0 to |planned|
      invariant |steps| == i
      invariant forall j :: 0 <= j < i ==> Classifiable(planned[j], j, registry)
      invariant forall j :: 0 <= j < i ==> steps[j] == Executable(planned[j], j, registry[planned[j].skill].tier)
    {
      var step := planned[i];
      if step.skill !in registry {
        assert !Classifiable(planned[i], i, registry);
        return None;
      }
      for d := 0 to |step.dependsOn|
        invariant forall e :: 0 <= e < d ==> 0 <= step.dependsOn[e] < i
      {
        if step.dependsOn[d] < 0 || step.dependsOn[d] >= i {
          assert step.dependsOn[d] in step.dependsOn;
          assert !Classifiable(planned[i], i, registry);
          return None;
        }
      }
      steps := steps + [Executable(step, i, registry[step.skill].tier)];
    }
    r := Some(steps);
  }

  /** The plan references only earlier steps. */
  ghost predicate BackwardReferences(planned: seq<PlannedStep>) {
    forall i, s :: 0 <= i < |planned| && s in StepSources(planned[i].args) ==> 0 <= s < i
  }

  /** A classified plan is numbered; with backward references all its edges point back. */
  lemma ClassifiedPlan(planned: seq<PlannedStep>, registry: Registry)
    requires ClassifiablePlan(planned, registry)
    ensures Numbered(Classified(planned, registry))
    ensures BackwardReferences(planned) <==> Backward(Classified(planned, registry))
  {
    var steps := Classified(planned, registry);
    forall i, e | 0 <= i < |steps| && e in steps[i].dependsOn
      ensures 0 <= e < i
    {
      assert Classifiable(planned[i], i, registry);
    }
    if Backward(steps) {
      forall i, s | 0 <= i < |planned| && s in StepSources(planned[i].args)
        ensures 0 <= s < i
      {
        assert s in Edges(steps[i]);
      }
    }
  }
}
