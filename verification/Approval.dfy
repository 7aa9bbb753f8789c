/** The plan-and-confirm pipeline: what may run before the user approves, and what an
    approved workflow runs. */
module Approval {
  import opened Text
  import opened Json
  import opened References
  import opened Executor
  import opened Isolation
  import opened Plans
  import opened Selection
  import opened TwoPhase
  import opened Scenarios

  datatype Status = Pending | Executed | Cancelled | Saved

  datatype Workflow = Workflow(steps: seq<Step>, status: Status)

  /** What made the calls of one execution: planning (fast path, reconnaissance or replan),
      the confirmation of a pending workflow, or the rerun of a saved one. */
  datatype Execution =
    | Planning(calls: seq<Call>)
    | Confirmed(id: nat, steps: seq<Step>, calls: seq<Call>)
    | Rerun(id: nat, calls: seq<Call>)

  datatype State = State(workflows: map<nat, Workflow>, trace: seq<Call>, log: seq<Execution>)

  /** A chat turn: the request together with whatever the model answers in it. */
  datatype Turn = Turn(plan: seq<PlannedStep>, needsFollowup: bool, followup: seq<PlannedStep>,
                       replan: seq<PlannedStep>, selected: seq<SelectedItem>, newId: nat)

  // ----- gates -----

  predicate IsAutoConfirmable(steps: seq<Step>) {
    forall i :: 0 <= i < |steps| ==> !steps[i].requiresApproval
  }

  predicate HasSelectionReference(steps: seq<Step>, registry: Registry) {
    exists i :: 0 <= i < |steps| && NeedsSelection(steps[i], registry)
  }

  predicate NeedsSelection(step: Step, registry: Registry) {
    || (step.skill in registry && registry[step.skill].requiresSelection)
    || exists k | k in step.args :: IsSelectionRef(step.args[k])
  }

  predicate AllSucceeded(results: seq<StepResult>) {
    forall i :: 0 <= i < |results| ==> results[i].outcome.Ok?
  }

  // ----- what each call does to the state -----

  /** Execute steps without approval. */
  ghost function RunUnapproved(env: Env, s: State, steps: seq<Step>): State {
    var run := RunPlan(env, steps, s.trace);
    s.(trace := run.trace, log := s.log + [Planning(NewCalls(s.trace, run.trace))])
  }

  function NewCalls(before: seq<Call>, after: seq<Call>): seq<Call> {
    if |before| <= |after| then after[|before|..] else []
  }

  /** Reconnaissance and the combined plan; `None` when classification raises. */
  ghost function FollowupStep(env: Env, registry: Registry, s: State, turn: Turn): (State, Option<seq<PlannedStep>>) {
    if !turn.needsFollowup then (s, Some(turn.plan))
    else if !ClassifiablePlan(turn.plan, registry) then (s, None)
    else
      var classified := Classified(turn.plan, registry);
      if turn.selected != [] && HasSelectionReference(classified, registry) then (s, Some(turn.plan))
      else
        var kept := Recon(classified, |classified|);
        if kept == [] then (s, Some(turn.plan))
        else
          (RunUnapproved(env, s, Slice(classified, kept)),
           Some(if turn.followup == [] then turn.plan else Renumbered(turn.plan, kept) + turn.followup))
  }

  ghost function ReplanStep(env: Env, registry: Registry, s: State, turn: Turn): State {
    if turn.replan == [] || !ClassifiablePlan(turn.replan, registry) then s
    else
      var steps := Classified(turn.replan, registry);
      if HasSelectionReference(steps, registry) || !IsAutoConfirmable(steps) then s
      else RunUnapproved(env, s, steps)
  }

  ghost function DispatchStep(env: Env, registry: Registry, s: State, turn: Turn, steps: seq<Step>): State {
    if IsAutoConfirmable(steps) then
      var after := RunUnapproved(env, s, steps);
      if AllSucceeded(RunPlan(env, steps, s.trace).results) then after
      else ReplanStep(env, registry, after, turn)
    else s.(workflows := s.workflows[turn.newId := Workflow(steps, Pending)])
  }

  /** The plan the turn ends up with, selection resolved; `None` when nothing is to be done. */
  function FinalSteps(registry: Registry, turn: Turn, planned: seq<PlannedStep>): Option<seq<Step>> {
    if !ClassifiablePlan(planned, registry) then None
    else
      var steps := Classified(planned, registry);
      if !HasSelectionReference(steps, registry) then Some(steps)
      else if turn.selected == [] then None
      else match Expand(steps, turn.selected, registry)
           case None => None
           case Some(e) => Some(e.steps)
  }

  ghost function ChatStep(env: Env, registry: Registry, s: State, turn: Turn): State {
    if turn.plan == [] then s
    else
      var (after, planned) := FollowupStep(env, registry, s, turn);
      if planned.None? then after
      else match FinalSteps(registry, turn, planned.value)
           case None => after
           case Some(steps) => DispatchStep(env, registry, after, turn, steps)
  }

  ghost function ConfirmStep(env: Env, s: State, id: nat): State {
    if id !in s.workflows || !s.workflows[id].status.Pending? then s
    else
      var steps := s.workflows[id].steps;
      var run := RunPlan(env, steps, s.trace);
      State(s.workflows[id := Workflow(steps, Executed)], run.trace,
            s.log + [Confirmed(id, steps, NewCalls(s.trace, run.trace))])
  }

  function CancelStep(s: State, id: nat): State {
    if id !in s.workflows || !s.workflows[id].status.Pending? then s
    else s.(workflows := s.workflows[id := Workflow(s.workflows[id].steps, Cancelled)])
  }

  function SaveStep(registry: Registry, s: State, id: nat, planned: seq<PlannedStep>): State {
    if !ClassifiablePlan(planned, registry) then s
    else s.(workflows := s.workflows[id := Workflow(Classified(planned, registry), Saved)])
  }

  function Unclassified(steps: seq<Step>): seq<PlannedStep> {
    seq(|steps|, i requires 0 <= i < |steps| => PlannedStep(steps[i].skill, steps[i].args, steps[i].dependsOn))
  }

  ghost function RerunStep(env: Env, registry: Registry, s: State, id: nat): State {
    if id !in s.workflows || !s.workflows[id].status.Saved? then s
    else
      var planned := Unclassified(s.workflows[id].steps);
      if !ClassifiablePlan(planned, registry) then s
      else
        var run := RunPlan(env, Classified(planned, registry), s.trace);
        s.(trace := run.trace, log := s.log + [Rerun(id, NewCalls(s.trace, run.trace))])
  }

  // ----- the service -----

  class WorkflowService {
    const registry: Registry
    const env: Env
    const twoPhasePlanning: bool
    var workflows: map<nat, Workflow>
    var trace: seq<Call>
    ghost var log: seq<Execution>

    constructor (registry: Registry, env: Env, twoPhasePlanning: bool)
      ensures Now() == NoWorkflows()
      ensures this.registry == registry && this.env == env && this.twoPhasePlanning == twoPhasePlanning
    {
      this.registry, this.env, this.twoPhasePlanning := registry, env, twoPhasePlanning;
      workflows, trace, log := map[], [], [];
    }

    ghost function Now(): State
      reads this
    {
      State(workflows, trace, log)
    }

    /** The turn as this service sees it: without the two-phase flag there is no follow-up. */
    function Seen(turn: Turn): Turn {
      turn.(needsFollowup := twoPhasePlanning && turn.needsFollowup)
    }

    method ExecuteUnapproved(steps: seq<Step>) returns (results: seq<StepResult>)
      modifies this`trace, this`log
      ensures Now() == RunUnapproved(env, old(Now()), steps)
      ensures results == RunPlan(env, steps, old(trace)).results
    {
      ghost var before := trace;
      results, trace := Execute(env, steps, trace);
      log := log + [Planning(NewCalls(before, trace))];
    }

    method MaybePlanFollowup(turn: Turn) returns (planned: Option<seq<PlannedStep>>)
      modifies this`trace, this`log
      ensures (Now(), planned) == FollowupStep(env, registry, old(Now()), turn)
    {
      if !turn.needsFollowup {
        return Some(turn.plan);
      }
      var classified := ClassifySteps(turn.plan, registry);
      if classified.None? {
        return None;
      }
      if turn.selected != [] && HasSelectionReference(classified.value, registry) {
        return Some(turn.plan);
      }
      var kept := ReconIndices(classified.value);
      if kept == [] {
        return Some(turn.plan);
      }
      var _ := ExecuteUnapproved(Slice(classified.value, kept));
      if turn.followup == [] {
        return Some(turn.plan);
      }
      var renumbered := RenumberKept(turn.plan, kept);
      planned := Some(renumbered + turn.followup);
    }

    method ReplanAfterFailure(turn: Turn)
      modifies this`trace, this`log
      ensures Now() == ReplanStep(env, registry, old(Now()), turn)
    {
      if turn.replan == [] {
        return;
      }
      var steps := ClassifySteps(turn.replan, registry);
      if steps.None? || HasSelectionReference(steps.value, registry) || !IsAutoConfirmable(steps.value) {
        return;
      }
      var _ := ExecuteUnapproved(steps.value);
    }

    method Chat(turn: Turn)
      requires turn.newId !in workflows
      modifies this
      ensures Now() == ChatStep(env, registry, old(Now()), Seen(turn))
    {
      if turn.plan == [] {
        return;
      }
      var planned := MaybePlanFollowup(Seen(turn));
      if planned.None? {
        return;
      }
      var classified := ClassifySteps(planned.value, registry);
      if classified.None? {
        return;
      }
      var steps := classified.value;
      if HasSelectionReference(steps, registry) {
        if turn.selected == [] {
          return;
        }
        var expanded := ApplySelection(steps, turn.selected, registry);
        if expanded.None? {
          return;
        }
        steps := expanded.value;
      }
      assert FinalSteps(registry, Seen(turn), planned.value) == Some(steps);
      if IsAutoConfirmable(steps) {
        var results := ExecuteUnapproved(steps);
        if !AllSucceeded(results) {
          ReplanAfterFailure(Seen(turn));
        }
      } else {
        workflows := workflows[turn.newId := Workflow(steps, Pending)];
      }
    }

    /** Run a pending workflow; `None` when there is no such pending workflow. */
    method Confirm(id: nat) returns (results: Option<seq<StepResult>>)
      modifies this
      ensures Now() == ConfirmStep(env, old(Now()), id)
      ensures results.Some? <==> id in old(workflows) && old(workflows)[id].status.Pending?
      ensures results.Some? ==>
                results.value == RunPlan(env, old(workflows)[id].steps, old(trace)).results
    {
      if id !in workflows || !workflows[id].status.Pending? {
        return None;
      }
      var steps := workflows[id].steps;
      ghost var before := trace;
      var r;
      r, trace := Execute(env, steps, trace);
      workflows := workflows[id := Workflow(steps, Executed)];
      log := log + [Confirmed(id, steps, NewCalls(before, trace))];
      results := Some(r);
    }

    method Cancel(id: nat) returns (found: bool)
      modifies this`workflows
      ensures Now() == CancelStep(old(Now()), id)
      ensures found <==> id in old(workflows) && old(workflows)[id].status.Pending?
    {
      found := id in workflows && workflows[id].status.Pending?;
      if found {
        workflows := workflows[id := Workflow(workflows[id].steps, Cancelled)];
      }
    }

    method SaveWorkflow(id: nat, planned: seq<PlannedStep>) returns (saved: bool)
      requires id !in workflows
      modifies this`workflows
      ensures Now() == SaveStep(registry, old(Now()), id, planned)
      ensures saved <==> ClassifiablePlan(planned, registry)
    {
      var steps := ClassifySteps(planned, registry);
      saved := steps.Some?;
      if saved {
        workflows := workflows[id := Workflow(steps.value, Saved)];
      }
    }

    method RerunWorkflow(id: nat)
      modifies this`trace, this`log
      ensures Now() == RerunStep(env, registry, old(Now()), id)
    {
      if id !in workflows || !workflows[id].status.Saved? {
        return;
      }
      var steps := ClassifySteps(Unclassified(workflows[id].steps), registry);
      if steps.None? {
        return;
      }
      ghost var before := trace;
      var results;
      results, trace := Execute(env, steps.value, trace);
      log := log + [Rerun(id, NewCalls(before, trace))];
    }
  }

  // ----- approval flags are those of the catalog -----

  ghost predicate Faithful(steps: seq<Step>, registry: Registry) {
    forall i :: 0 <= i < |steps| ==>
      steps[i].skill in registry && steps[i].requiresApproval == (registry[steps[i].skill].tier != READ_TIER)
  }

  lemma ClassifiedFaithful(planned: seq<PlannedStep>, registry: Registry)
    requires ClassifiablePlan(planned, registry)
    ensures Faithful(Classified(planned, registry), registry)
  {
    forall i | 0 <= i < |planned|
      ensures planned[i].skill in registry
    {
      assert Classifiable(planned[i], i, registry);
    }
  }

  lemma {:induction false} ExpandedFaithful(steps: seq<Step>, items: seq<SelectedItem>, registry: Registry)
    requires Faithful(steps, registry) && Expand(steps, items, registry).Some?
    ensures Faithful(Expand(steps, items, registry).value.steps, registry)
  {
    hide InstanceArgs, InjectSelection, Width, RemapDeps;
    if steps != [] {
      ExpandedFaithful(steps[..|steps| - 1], items, registry);
    }
  }

  ghost predicate ReadOnly(registry: Registry, calls: seq<Call>) {
    forall i :: 0 <= i < |calls| ==> calls[i].skill in registry && registry[calls[i].skill].tier == READ_TIER
  }

  // ----- the invariant -----

  function AllCalls(log: seq<Execution>): seq<Call> {
    if log == [] then [] else AllCalls(log[..|log| - 1]) + log[|log| - 1].calls
  }

  /** Planning made read calls only; confirmation ran the steps of an executed workflow, as
      they are stored, once; a rerun ran the steps of a saved workflow; and nothing else was
      called. */
  ghost predicate Gate(env: Env, registry: Registry, s: State) {
    && AllCalls(s.log) == s.trace
    && (forall i :: 0 <= i < |s.log| && s.log[i].Planning? ==> ReadOnly(registry, s.log[i].calls))
    && (forall i :: 0 <= i < |s.log| && s.log[i].Confirmed? ==> ConfirmedAsShown(env, s, i))
    && (forall i :: 0 <= i < |s.log| && s.log[i].Rerun? ==> RerunAsStored(env, registry, s, i))
    && ConfirmedOnce(s.log)
    && (forall id :: id in s.workflows && s.workflows[id].status.Executed? ==> WasConfirmed(s, id))
  }

  /** An id is confirmed once. */
  ghost predicate ConfirmedOnce(log: seq<Execution>) {
    forall i, j :: 0 <= i < j < |log| && log[i].Confirmed? && log[j].Confirmed? ==> log[i].id != log[j].id
  }

  ghost predicate ConfirmedAsShown(env: Env, s: State, i: int)
    requires 0 <= i < |s.log| && s.log[i].Confirmed?
  {
    var e := s.log[i];
    && e.id in s.workflows
    && s.workflows[e.id] == Workflow(e.steps, Executed)
    && RunPlan(env, e.steps, AllCalls(s.log[..i])).trace == AllCalls(s.log[..i]) + e.calls
  }

  /** A rerun makes the calls of the saved steps, classified again. */
  ghost predicate RerunAsStored(env: Env, registry: Registry, s: State, i: int)
    requires 0 <= i < |s.log| && s.log[i].Rerun?
  {
    var e := s.log[i];
    && e.id in s.workflows && s.workflows[e.id].status.Saved?
    && var planned := Unclassified(s.workflows[e.id].steps);
       && ClassifiablePlan(planned, registry)
       && RunPlan(env, Classified(planned, registry), AllCalls(s.log[..i])).trace == AllCalls(s.log[..i]) + e.calls
  }

  ghost predicate WasConfirmed(s: State, id: nat) {
    exists i :: 0 <= i < |s.log| && s.log[i].Confirmed? && s.log[i].id == id
  }

  /** Stored workflows keep their steps; only a pending one changes status; the log grows. */
  ghost predicate Keeps(s: State, t: State) {
    && s.log <= t.log
    && forall id :: id in s.workflows ==>
         && id in t.workflows
         && t.workflows[id].steps == s.workflows[id].steps
         && (t.workflows[id].status == s.workflows[id].status || s.workflows[id].status.Pending?)
  }

  lemma KeepsTransitive(s: State, t: State, u: State)
    requires Keeps(s, t) && Keeps(t, u)
    ensures Keeps(s, u)
  {
  }

  lemma LogAppend(log: seq<Execution>, e: Execution)
    ensures AllCalls(log + [e]) == AllCalls(log) + e.calls
  {
    assert (log + [e])[..|log|] == log;
  }

  lemma StillOnce(log: seq<Execution>, e: Execution)
    requires ConfirmedOnce(log)
    requires e.Confirmed? ==> forall i :: 0 <= i < |log| && log[i].Confirmed? ==> log[i].id != e.id
    ensures ConfirmedOnce(log + [e])
  {
  }

  /** Adding an execution that is no confirmation, with the trace to match. */
  lemma GateLogged(env: Env, registry: Registry, s: State, t: State, e: Execution)
    requires Gate(env, registry, s) && !e.Confirmed? && (e.Planning? ==> ReadOnly(registry, e.calls))
    requires t.workflows == s.workflows && t.log == s.log + [e] && t.trace == s.trace + e.calls
    requires e.Rerun? ==> RerunAsStored(env, registry, t, |s.log|)
    ensures Gate(env, registry, t)
  {
    hide RunPlan, ReadOnly, ClassifiablePlan, Classified, ConfirmedOnce, AllCalls;
    LogAppend(s.log, e);
    StillOnce(s.log, e);
    forall i | 0 <= i < |t.log| && t.log[i].Rerun?
      ensures RerunAsStored(env, registry, t, i)
    {
      if i < |s.log| {
        assert RerunAsStored(env, registry, s, i);
        assert t.log[..i] == s.log[..i];
      }
    }
    forall i | 0 <= i < |t.log| && t.log[i].Confirmed?
      ensures ConfirmedAsShown(env, t, i)
    {
      assert ConfirmedAsShown(env, s, i);
      assert t.log[..i] == s.log[..i];
    }
    forall id | id in t.workflows && t.workflows[id].status.Executed?
      ensures WasConfirmed(t, id)
    {
      assert WasConfirmed(s, id);
      var i :| 0 <= i < |s.log| && s.log[i].Confirmed? && s.log[i].id == id;
      assert t.log[i].Confirmed? && t.log[i].id == id;
    }
  }

  lemma KeepsLogged(s: State, t: State, e: Execution)
    requires t.workflows == s.workflows && t.log == s.log + [e]
    ensures Keeps(s, t)
  {
  }

  lemma GateUnapproved(env: Env, registry: Registry, s: State, steps: seq<Step>)
    requires Gate(env, registry, s) && Faithful(steps, registry) && IsAutoConfirmable(steps)
    ensures Gate(env, registry, RunUnapproved(env, s, steps)) && Keeps(s, RunUnapproved(env, s, steps))
  {
    hide RunPlan, Gate, Keeps;
    RunAdds(env, steps, s.trace);
    var trace := RunPlan(env, steps, s.trace).trace;
    var calls := NewCalls(s.trace, trace);
    assert trace == s.trace + calls;
    forall i | 0 <= i < |calls|
      ensures calls[i].skill in registry && registry[calls[i].skill].tier == READ_TIER
    {
      assert calls[i] == trace[|s.trace| + i];
      var j :| 0 <= j < |steps| && steps[j].skill == calls[i].skill;
    }
    GateLogged(env, registry, s, RunUnapproved(env, s, steps), Planning(calls));
    KeepsLogged(s, RunUnapproved(env, s, steps), Planning(calls));
  }

  lemma KeepsSame(s: State)
    ensures Keeps(s, s)
  {
  }

  lemma SliceAuto(steps: seq<Step>, registry: Registry)
    requires Faithful(steps, registry)
    ensures Faithful(Slice(steps, Recon(steps, |steps|)), registry)
    ensures IsAutoConfirmable(Slice(steps, Recon(steps, |steps|)))
  {
    var kept := Recon(steps, |steps|);
    forall j | 0 <= j < |kept|
      ensures !steps[kept[j]].requiresApproval
    {
      ReconMembers(steps, |steps|, j);
    }
  }

  lemma {:induction false} ReconMembers(steps: seq<Step>, n: nat, j: nat)
    requires n <= |steps| && j < |Recon(steps, n)|
    ensures IsRecon(steps, Recon(steps, n)[j])
  {
    if j < |Recon(steps, n - 1)| {
      ReconMembers(steps, n - 1, j);
    }
  }

  lemma GateFollowup(env: Env, registry: Registry, s: State, turn: Turn)
    requires Gate(env, registry, s)
    ensures var t := FollowupStep(env, registry, s, turn).0;
            Gate(env, registry, t) && Keeps(s, t)
  {
    hide Gate, Keeps, RunUnapproved, Recon, Faithful, IsAutoConfirmable;
    KeepsSame(s);
    if ClassifiablePlan(turn.plan, registry) {
      ClassifiedFaithful(turn.plan, registry);
      var classified := Classified(turn.plan, registry);
      SliceAuto(classified, registry);
      GateUnapproved(env, registry, s, Slice(classified, Recon(classified, |classified|)));
    }
  }

  /** A replan executes nothing, or a plan that needs no approval. */
  lemma ReplanEither(env: Env, registry: Registry, s: State, turn: Turn)
    ensures var t := ReplanStep(env, registry, s, turn);
            t == s || (ClassifiablePlan(turn.replan, registry) &&
                       IsAutoConfirmable(Classified(turn.replan, registry)) &&
                       t == RunUnapproved(env, s, Classified(turn.replan, registry)))
  {
    hide RunUnapproved, IsAutoConfirmable, ClassifiablePlan;
  }

  /** Storing a workflow under a new id, not executed. */
  lemma GateStored(env: Env, registry: Registry, s: State, id: nat, w: Workflow)
    requires Gate(env, registry, s) && !w.status.Executed?
    requires id in s.workflows ==> s.workflows[id].status.Pending? && s.workflows[id].steps == w.steps
    ensures var t := s.(workflows := s.workflows[id := w]);
            Gate(env, registry, t) && Keeps(s, t)
  {
    hide RunPlan, ReadOnly, ClassifiablePlan, Classified;
    var t := s.(workflows := s.workflows[id := w]);
    forall i | 0 <= i < |t.log| && t.log[i].Rerun?
      ensures RerunAsStored(env, registry, t, i)
    {
      assert RerunAsStored(env, registry, s, i);
    }
    forall i | 0 <= i < |t.log| && t.log[i].Confirmed?
      ensures ConfirmedAsShown(env, t, i)
    {
      assert ConfirmedAsShown(env, s, i);
    }
    forall other | other in t.workflows && t.workflows[other].status.Executed?
      ensures WasConfirmed(t, other)
    {
      assert WasConfirmed(s, other);
    }
  }

  lemma GateChat(env: Env, registry: Registry, s: State, turn: Turn)
    requires Gate(env, registry, s) && turn.newId !in s.workflows
    ensures var t := ChatStep(env, registry, s, turn);
            Gate(env, registry, t) && Keeps(s, t)
  {
    hide Gate, RunPlan, RunUnapproved, FollowupStep, ReplanStep, Faithful, IsAutoConfirmable;
    KeepsSame(s);
    GateFollowup(env, registry, s, turn);
    var (after, planned) := FollowupStep(env, registry, s, turn);
    FollowupKeepsWorkflows(env, registry, s, turn);
    if turn.plan != [] && planned.Some? && FinalSteps(registry, turn, planned.value).Some? {
      var steps := FinalSteps(registry, turn, planned.value).value;
      FinalFaithful(registry, turn, planned.value);
      if IsAutoConfirmable(steps) {
        GateUnapproved(env, registry, after, steps);
        var ran := RunUnapproved(env, after, steps);
        KeepsSame(ran);
        ReplanEither(env, registry, ran, turn);
        if ReplanStep(env, registry, ran, turn) != ran {
          ClassifiedFaithful(turn.replan, registry);
          GateUnapproved(env, registry, ran, Classified(turn.replan, registry));
        }
      } else {
        GateStored(env, registry, after, turn.newId, Workflow(steps, Pending));
      }
    }
  }

  lemma FollowupKeepsWorkflows(env: Env, registry: Registry, s: State, turn: Turn)
    ensures FollowupStep(env, registry, s, turn).0.workflows == s.workflows
  {
  }

  lemma FinalFaithful(registry: Registry, turn: Turn, planned: seq<PlannedStep>)
    requires FinalSteps(registry, turn, planned).Some?
    ensures Faithful(FinalSteps(registry, turn, planned).value, registry)
  {
    hide Expand, HasSelectionReference, Faithful;
    ClassifiedFaithful(planned, registry);
    var steps := Classified(planned, registry);
    if Expand(steps, turn.selected, registry).Some? {
      ExpandedFaithful(steps, turn.selected, registry);
    }
  }

  lemma GateConfirm(env: Env, registry: Registry, s: State, id: nat)
    requires Gate(env, registry, s)
    ensures var t := ConfirmStep(env, s, id);
            Gate(env, registry, t) && Keeps(s, t)
  {
    hide RunPlan, ReadOnly, Gate;
    if id in s.workflows && s.workflows[id].status.Pending? {
      var steps := s.workflows[id].steps;
      RunAdds(env, steps, s.trace);
      var t := ConfirmStep(env, s, id);
      var e := t.log[|s.log|];
      assert t.trace == s.trace + e.calls;
      LogAppend(s.log, e);
      CallsLogged(env, registry, s);
      GateConfirmed(env, registry, s, t, id, e);
    }
  }

  lemma CallsLogged(env: Env, registry: Registry, s: State)
    requires Gate(env, registry, s)
    ensures AllCalls(s.log) == s.trace
  {
  }

  /** `t` is `s` after one confirmation `e` of a pending workflow. */
  ghost predicate Confirms(env: Env, s: State, t: State, id: nat, e: Execution) {
    && id in s.workflows && s.workflows[id].status.Pending?
    && e.Confirmed? && e.id == id && e.steps == s.workflows[id].steps
    && t.log == s.log + [e] && t.trace == s.trace + e.calls && AllCalls(s.log) == s.trace
    && t.workflows == s.workflows[id := Workflow(e.steps, Executed)]
    && RunPlan(env, e.steps, s.trace).trace == t.trace
  }

  lemma RerunsStay(env: Env, registry: Registry, s: State, t: State, id: nat, e: Execution)
    requires Gate(env, registry, s) && Confirms(env, s, t, id, e)
    ensures forall i :: 0 <= i < |t.log| && t.log[i].Rerun? ==> RerunAsStored(env, registry, t, i)
  {
    hide RunPlan, ReadOnly, AllCalls;
    forall i | 0 <= i < |t.log| && t.log[i].Rerun?
      ensures RerunAsStored(env, registry, t, i)
    {
      assert RerunAsStored(env, registry, s, i);
      RerunStays(env, registry, s, t, i);
    }
  }

  lemma ConfirmationsStay(env: Env, registry: Registry, s: State, t: State, id: nat, e: Execution)
    requires Gate(env, registry, s) && Confirms(env, s, t, id, e)
    ensures forall i :: 0 <= i < |t.log| && t.log[i].Confirmed? ==>
              ConfirmedAsShown(env, t, i) && (i < |s.log| ==> t.log[i].id != id)
  {
    hide RunPlan, ReadOnly, RerunAsStored, AllCalls;
    forall i | 0 <= i < |t.log| && t.log[i].Confirmed?
      ensures ConfirmedAsShown(env, t, i)
      ensures i < |s.log| ==> t.log[i].id != id
    {
      assert t.log[..i] == s.log[..i];
      if i < |s.log| {
        assert ConfirmedAsShown(env, s, i);
      } else {
        assert s.log[..i] == s.log;
      }
    }
  }

  lemma ExecutedStay(env: Env, registry: Registry, s: State, t: State, id: nat, e: Execution)
    requires Gate(env, registry, s) && Confirms(env, s, t, id, e)
    ensures forall other :: other in t.workflows && t.workflows[other].status.Executed? ==> WasConfirmed(t, other)
  {
    hide RunPlan, ReadOnly, RerunAsStored, ConfirmedAsShown, WasConfirmed, AllCalls;
    forall other | other in t.workflows && t.workflows[other].status.Executed?
      ensures WasConfirmed(t, other)
    {
      ConfirmedLater(s, t, id, e, other);
    }
  }

  /** One confirmation of a pending workflow added to the log. */
  lemma GateConfirmed(env: Env, registry: Registry, s: State, t: State, id: nat, e: Execution)
    requires Gate(env, registry, s) && Confirms(env, s, t, id, e)
    ensures Gate(env, registry, t)
  {
    LogAppend(s.log, e);
    RerunsStay(env, registry, s, t, id, e);
    ConfirmationsStay(env, registry, s, t, id, e);
    ExecutedStay(env, registry, s, t, id, e);
    hide RunPlan, ReadOnly, ConfirmedAsShown, RerunAsStored, AllCalls, WasConfirmed, ConfirmedOnce;
    assert forall i :: 0 <= i < |s.log| ==> t.log[i] == s.log[i];
    StillOnce(s.log, e);
  }

  lemma RerunStays(env: Env, registry: Registry, s: State, t: State, i: nat)
    requires s.log <= t.log && i < |s.log| && s.log[i].Rerun? && RerunAsStored(env, registry, s, i)
    requires s.log[i].id in t.workflows && t.workflows[s.log[i].id] == s.workflows[s.log[i].id]
    ensures RerunAsStored(env, registry, t, i)
  {
    hide RunPlan, ClassifiablePlan, Classified;
    assert t.log[..i] == s.log[..i];
  }

  lemma ConfirmedLater(s: State, t: State, id: nat, e: Execution, other: nat)
    requires e.Confirmed? && e.id == id && t.log == s.log + [e]
    requires other == id || WasConfirmed(s, other)
    ensures WasConfirmed(t, other)
  {
    if other == id {
      assert t.log[|s.log|].Confirmed? && t.log[|s.log|].id == id;
    } else {
      var i :| 0 <= i < |s.log| && s.log[i].Confirmed? && s.log[i].id == other;
      assert t.log[i].Confirmed? && t.log[i].id == other;
    }
  }

  lemma GateRerun(env: Env, registry: Registry, s: State, id: nat)
    requires Gate(env, registry, s)
    ensures var t := RerunStep(env, registry, s, id);
            Gate(env, registry, t) && Keeps(s, t)
  {
    hide Gate, Keeps, RunPlan, ClassifiablePlan, Classified;
    KeepsSame(s);
    if RerunStep(env, registry, s, id) != s && id in s.workflows {
      var steps := Classified(Unclassified(s.workflows[id].steps), registry);
      RunAdds(env, steps, s.trace);
      var trace := RunPlan(env, steps, s.trace).trace;
      assert trace == s.trace + NewCalls(s.trace, trace);
      var e := Rerun(id, NewCalls(s.trace, trace));
      var t := RerunStep(env, registry, s, id);
      CallsLogged(env, registry, s);
      assert t.log[..|s.log|] == s.log;
      assert RerunAsStored(env, registry, t, |s.log|);
      GateLogged(env, registry, s, t, e);
      KeepsLogged(s, t, e);
    }
  }

  // ----- whole runs -----

  datatype Event =
    | Chat(turn: Turn)
    | Confirm(id: nat)
    | Cancel(id: nat)
    | Save(id: nat, planned: seq<PlannedStep>)
    | RerunSaved(id: nat)

  /** An event's effect; new workflow ids never repeat. */
  ghost function EventStep(env: Env, registry: Registry, s: State, event: Event): State {
    match event
    case Chat(turn) => if turn.newId in s.workflows then s else ChatStep(env, registry, s, turn)
    case Confirm(id) => ConfirmStep(env, s, id)
    case Cancel(id) => CancelStep(s, id)
    case Save(id, planned) => if id in s.workflows then s else SaveStep(registry, s, id, planned)
    case RerunSaved(id) => RerunStep(env, registry, s, id)
  }

  ghost function RunEvents(env: Env, registry: Registry, s: State, events: seq<Event>): State {
    if events == [] then s
    else EventStep(env, registry, RunEvents(env, registry, s, events[..|events| - 1]), events[|events| - 1])
  }

  lemma GateEvent(env: Env, registry: Registry, s: State, event: Event)
    requires Gate(env, registry, s)
    ensures Gate(env, registry, EventStep(env, registry, s, event))
    ensures Keeps(s, EventStep(env, registry, s, event))
  {
    hide Gate, Keeps, ChatStep, ConfirmStep, RerunStep;
    KeepsSame(s);
    match event
    case Chat(turn) =>
      if turn.newId !in s.workflows {
        GateChat(env, registry, s, turn);
      }
    case Confirm(id) => GateConfirm(env, registry, s, id);
    case Cancel(id) =>
      if id in s.workflows && s.workflows[id].status.Pending? {
        GateStored(env, registry, s, id, Workflow(s.workflows[id].steps, Cancelled));
      }
    case Save(id, planned) =>
      if id !in s.workflows && ClassifiablePlan(planned, registry) {
        GateStored(env, registry, s, id, Workflow(Classified(planned, registry), Saved));
      }
    case RerunSaved(id) => GateRerun(env, registry, s, id);
  }

  /** Over every run and for arbitrary model replies: planning only ever called read-tier
      skills, and each confirmation ran the stored steps of its workflow, once. */
  lemma {:induction false} ApprovalGate(env: Env, registry: Registry, s: State, events: seq<Event>)
    requires Gate(env, registry, s)
    ensures Gate(env, registry, RunEvents(env, registry, s, events))
    ensures Keeps(s, RunEvents(env, registry, s, events))
  {
    hide Gate, Keeps, EventStep;
    KeepsSame(s);
    if events != [] {
      var before := RunEvents(env, registry, s, events[..|events| - 1]);
      ApprovalGate(env, registry, s, events[..|events| - 1]);
      GateEvent(env, registry, before, events[|events| - 1]);
      KeepsTransitive(s, before, EventStep(env, registry, before, events[|events| - 1]));
    }
  }

  function NoWorkflows(): State {
    State(map[], [], [])
  }

  lemma GateInitially(env: Env, registry: Registry)
    ensures Gate(env, registry, NoWorkflows())
  {
  }

  lemma {:induction false} CallIsLogged(log: seq<Execution>, c: Call) returns (i: nat)
    requires c in AllCalls(log)
    ensures i < |log| && c in log[i].calls
  {
    var last := |log| - 1;
    if c in log[last].calls {
      i := last;
    } else {
      i := CallIsLogged(log[..last], c);
    }
  }

  lemma SkillOfRun(env: Env, steps: seq<Step>, before: seq<Call>, calls: seq<Call>, c: Call)
    requires RunPlan(env, steps, before).trace == before + calls && c in calls
    ensures c.skill in SkillsOf(steps)
  {
    hide RunPlan, SkillsOf;
    RunAdds(env, steps, before);
    var k :| 0 <= k < |calls| && calls[k] == c;
    assert (before + calls)[|before| + k] == c;
  }

  /** The steps a rerun executes. */
  function Reclassified(registry: Registry, s: State, id: nat): seq<Step>
    requires id in s.workflows && ClassifiablePlan(Unclassified(s.workflows[id].steps), registry)
  {
    Classified(Unclassified(s.workflows[id].steps), registry)
  }

  lemma ReclassifiedSkills(registry: Registry, s: State, id: nat)
    requires id in s.workflows && ClassifiablePlan(Unclassified(s.workflows[id].steps), registry)
    ensures SkillsOf(Reclassified(registry, s, id)) == SkillsOf(s.workflows[id].steps)
  {
    hide ClassifiablePlan;
    var stored, steps := s.workflows[id].steps, Reclassified(registry, s, id);
    assert |steps| == |stored| && forall i :: 0 <= i < |stored| ==> steps[i].skill == stored[i].skill;
  }

  predicate IsRead(registry: Registry, skill: string) {
    skill in registry && registry[skill].tier == READ_TIER
  }

  /** Starting with no workflows, whatever the model replies and the user does: a call of a skill
      that is not read-tier was made by confirming a workflow that shows the skill, or by
      rerunning a saved one that holds it. */
  lemma OnlyApprovedOrSaved(env: Env, registry: Registry, events: seq<Event>, c: Call)
    requires c in RunEvents(env, registry, NoWorkflows(), events).trace && !IsRead(registry, c.skill)
    ensures var t := RunEvents(env, registry, NoWorkflows(), events);
            exists id: nat ::
              && id in t.workflows
              && (t.workflows[id].status.Saved? || (t.workflows[id].status.Executed? && WasConfirmed(t, id)))
              && c.skill in SkillsOf(t.workflows[id].steps)
  {
    GateInitially(env, registry);
    ApprovalGate(env, registry, NoWorkflows(), events);
    var t := RunEvents(env, registry, NoWorkflows(), events);
    hide RunEvents, RunPlan, SkillsOf, ClassifiablePlan, Classified;
    var i := CallIsLogged(t.log, c);
    var e := t.log[i];
    ReadCall(registry, e.calls, c);
    if e.Confirmed? {
      assert ConfirmedAsShown(env, t, i);
      SkillOfRun(env, e.steps, AllCalls(t.log[..i]), e.calls, c);
      assert WasConfirmed(t, e.id);
    } else {
      assert RerunAsStored(env, registry, t, i);
      SkillOfRun(env, Reclassified(registry, t, e.id), AllCalls(t.log[..i]), e.calls, c);
      ReclassifiedSkills(registry, t, e.id);
    }
  }

  lemma ReadCall(registry: Registry, calls: seq<Call>, c: Call)
    ensures ReadOnly(registry, calls) && c in calls ==> IsRead(registry, c.skill)
  {
  }

  // ----- a rerun asks nobody -----

  /** The calls a rerun makes. */
  ghost function RerunCalls(env: Env, registry: Registry, s: State, id: nat): seq<Call>
    requires id in s.workflows && ClassifiablePlan(Unclassified(s.workflows[id].steps), registry)
  {
    NewCalls(s.trace, RunPlan(env, Reclassified(registry, s, id), s.trace).trace)
  }

  function ReadSkills(registry: Registry): set<string> {
    set k | k in registry && registry[k].tier == READ_TIER
  }

  lemma AddsReads(registry: Registry, before: seq<Call>, after: seq<Call>)
    requires before <= after
    ensures Adds(before, after, ReadSkills(registry)) <==> ReadOnly(registry, NewCalls(before, after))
  {
    var calls := NewCalls(before, after);
    assert after == before + calls;
    assert forall i :: 0 <= i < |calls| ==> after[|before| + i] == calls[i];
    if ReadOnly(registry, calls) {
      forall i | |before| <= i < |after|
        ensures after[i].skill in ReadSkills(registry)
      {
        assert after[i] == calls[i - |before|];
      }
    }
  }

  lemma RerunReads(env: Env, registry: Registry, s: State, id: nat)
    requires id in s.workflows && ClassifiablePlan(Unclassified(s.workflows[id].steps), registry)
    ensures ReadOnly(registry, RerunCalls(env, registry, s, id)) <==>
            Adds(s.trace, RunPlan(env, Reclassified(registry, s, id), s.trace).trace, ReadSkills(registry))
  {
    hide RunPlan, ReadOnly, ReadSkills, Reclassified, NewCalls, ClassifiablePlan;
    RunAdds(env, Reclassified(registry, s, id), s.trace);
    AddsReads(registry, s.trace, RunPlan(env, Reclassified(registry, s, id), s.trace).trace);
  }

  /** The approval gate does not hold for reruns: over all skill functions a rerun makes read-tier
      calls only if and only if every saved step that can come to call is read-tier. */
  lemma RerunReadOnly(registry: Registry, s: State, id: nat)
    requires id in s.workflows && s.workflows[id].status.Saved?
    requires ClassifiablePlan(Unclassified(s.workflows[id].steps), registry)
    ensures (forall env: Env :: ReadOnly(registry, RerunCalls(env, registry, s, id))) <==>
            forall i: nat :: i < |Reclassified(registry, s, id)| && CanCall(Reclassified(registry, s, id), i) ==>
              IsRead(registry, Reclassified(registry, s, id)[i].skill)
  {
    var steps := Reclassified(registry, s, id);
    CallsExactly(steps, s.trace, ReadSkills(registry));
    assert forall skill :: skill in ReadSkills(registry) <==> IsRead(registry, skill);
    hide RunPlan, ReadOnly, CanCall, ClassifiablePlan, RerunCalls, Reclassified, ReadSkills, Adds;
    if forall env: Env :: Adds(s.trace, RunPlan(env, steps, s.trace).trace, ReadSkills(registry)) {
      forall env: Env
        ensures ReadOnly(registry, RerunCalls(env, registry, s, id))
      {
        RerunReads(env, registry, s, id);
        assert Adds(s.trace, RunPlan(env, steps, s.trace).trace, ReadSkills(registry));
      }
    } else {
      var env: Env :| !Adds(s.trace, RunPlan(env, steps, s.trace).trace, ReadSkills(registry));
      RerunReads(env, registry, s, id);
      assert !ReadOnly(registry, RerunCalls(env, registry, s, id));
    }
  }

  /** For saved steps that hold literals only, that is exactly when none of them would need
      approval in a chat. */
  lemma RerunOfLiterals(registry: Registry, s: State, id: nat)
    requires id in s.workflows && s.workflows[id].status.Saved?
    requires ClassifiablePlan(Unclassified(s.workflows[id].steps), registry)
    requires forall i | 0 <= i < |s.workflows[id].steps| ::
               && s.workflows[id].steps[i].dependsOn == []
               && forall k | k in s.workflows[id].steps[i].args :: !IsStepRef(s.workflows[id].steps[i].args[k])
    ensures (forall env: Env :: ReadOnly(registry, RerunCalls(env, registry, s, id))) <==>
            IsAutoConfirmable(Reclassified(registry, s, id))
  {
    RerunReadOnly(registry, s, id);
    var steps := Reclassified(registry, s, id);
    forall i: nat | i < |steps|
      ensures CanCall(steps, i) && (IsRead(registry, steps[i].skill) <==> !steps[i].requiresApproval)
    {
      assert Classifiable(Unclassified(s.workflows[id].steps)[i], i, registry);
      assert steps[i].args == s.workflows[id].steps[i].args;
      LiteralsCanCall(steps, i);
    }
    hide RerunCalls, ReadOnly, CanCall, ClassifiablePlan, Reclassified, IsRead;
  }

  /** Save a step of any tier and rerun it: the skill is called, and nothing was confirmed. */
  lemma SavedThenRerun(env: Env, registry: Registry, skill: string, args: Args)
    requires skill in registry && forall k | k in args :: !IsStepRef(args[k])
    ensures var events := [Save(0, [PlannedStep(skill, args, [])])] + [RerunSaved(0)];
            var t := RunEvents(env, registry, NoWorkflows(), events);
            t.trace == [Call(skill, args)] && t.log == [Rerun(0, [Call(skill, args)])]
  {
    var planned := [PlannedStep(skill, args, [])];
    assert Classifiable(planned[0], 0, registry);
    var save := Save(0, planned);
    var steps := Classified(planned, registry);
    var saved := State(map[0 := Workflow(steps, Saved)], [], []);
    assert RunEvents(env, registry, NoWorkflows(), [save]) == saved by {
      assert [save][..0] == [];
    }
    assert Unclassified(steps) == planned;
    OneLiteralStep(env, steps[0]);
    assert steps == [steps[0]];
    assert ([save] + [RerunSaved(0)])[..1] == [save];
    hide RunPlan, ClassifiablePlan;
    assert NewCalls([], [Call(skill, args)]) == [Call(skill, args)];
  }

  lemma OneLiteralStep(env: Env, step: Step)
    requires step.dependsOn == [] && forall k | k in step.args :: !IsStepRef(step.args[k])
    ensures RunPlan(env, [step], []).trace == [Call(step.skill, step.args)]
  {
    LiteralsResolve(step.args, map[]);
    assert [step][..0] == [];
    assert RunPlan(env, [], []) == Run([], {}, []);
    assert OkOutputs([]) == map[];
    hide Bind, FanoutRows, BoundArguments;
  }

  /** A workflow cancelled at some point of a run is never executed, before or after. */
  lemma CancelledNeverRuns(env: Env, registry: Registry, s: State, id: nat, events: seq<Event>)
    requires Gate(env, registry, s)
    requires id in s.workflows && s.workflows[id].status.Cancelled?
    ensures !WasConfirmed(RunEvents(env, registry, s, events), id)
  {
    hide RunEvents, RunPlan;
    ApprovalGate(env, registry, s, events);
    var t := RunEvents(env, registry, s, events);
    forall i | 0 <= i < |t.log| && t.log[i].Confirmed?
      ensures t.log[i].id != id
    {
      assert ConfirmedAsShown(env, t, i);
    }
  }

  lemma PendingNotConfirmed(env: Env, registry: Registry, s: State, id: nat)
    requires Gate(env, registry, s) && id in s.workflows && !s.workflows[id].status.Executed?
    ensures !WasConfirmed(s, id)
  {
    forall i | 0 <= i < |s.log| && s.log[i].Confirmed?
      ensures s.log[i].id != id
    {
      assert ConfirmedAsShown(env, s, i);
    }
  }

  /** What is shown for approval is what a later confirmation runs: exactly those steps, in
      the state the drive is then in. */
  lemma ShownIsExecuted(env: Env, registry: Registry, s: State, id: nat, events: seq<Event>)
    requires Gate(env, registry, s)
    requires id in s.workflows && s.workflows[id].status.Pending?
    ensures var t := RunEvents(env, registry, s, events);
            WasConfirmed(t, id) ==>
              exists i ::
                && |s.log| <= i < |t.log|
                && t.log[i] == Confirmed(id, s.workflows[id].steps, t.log[i].calls)
                && RunPlan(env, s.workflows[id].steps, AllCalls(t.log[..i])).trace
                   == AllCalls(t.log[..i]) + t.log[i].calls
  {
    hide RunEvents, RunPlan;
    ApprovalGate(env, registry, s, events);
    var t := RunEvents(env, registry, s, events);
    if WasConfirmed(t, id) {
      var i :| 0 <= i < |t.log| && t.log[i].Confirmed? && t.log[i].id == id;
      assert ConfirmedAsShown(env, t, i);
      assert forall j :: 0 <= j < |s.log| ==> t.log[j] == s.log[j];
      PendingNotConfirmed(env, registry, s, id);
    }
  }
}
