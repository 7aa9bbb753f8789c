/** What each assistant call leaves behind, and where stored workflows come from. */
module ChatEffects {
  import opened Text
  import opened Json
  import opened References
  import opened Executor
  import opened Isolation
  import opened Plans
  import opened Selection
  import opened TwoPhase
  import opened Scenarios
  import opened Approval

  // ----- plain readings of the gates -----

  predicate NeedsApproval(steps: seq<Step>) {
    exists i :: 0 <= i < |steps| && steps[i].requiresApproval
  }

  predicate UsesSelection(steps: seq<Step>, registry: Registry) {
    exists i :: 0 <= i < |steps| && Selects(steps[i], registry)
  }

  predicate Selects(step: Step, registry: Registry) {
    || (step.skill in registry && registry[step.skill].requiresSelection)
    || exists k | k in step.args :: IsSelectionRef(step.args[k])
  }

  /** Classification numbers the steps, takes the tier from the catalog and asks for approval of
      everything that is not read-tier. */
  lemma ClassifiedIs(planned: seq<PlannedStep>, registry: Registry)
    requires ClassifiablePlan(planned, registry)
    ensures |Classified(planned, registry)| == |planned|
    ensures forall i | 0 <= i < |planned| ::
              planned[i].skill in registry &&
              var tier := registry[planned[i].skill].tier;
              Classified(planned, registry)[i] ==
              Step(i, planned[i].skill, planned[i].args, planned[i].dependsOn, tier, tier != "read")
  {
    forall i | 0 <= i < |planned|
      ensures planned[i].skill in registry
    {
      assert Classifiable(planned[i], i, registry);
    }
  }

  /** A plan can be classified when every skill is known and every dependency is earlier. */
  lemma ClassifiableIs(planned: seq<PlannedStep>, registry: Registry)
    ensures ClassifiablePlan(planned, registry) <==>
            forall i | 0 <= i < |planned| ::
              planned[i].skill in registry && forall d | d in planned[i].dependsOn :: 0 <= d < i
  {
    if ClassifiablePlan(planned, registry) {
      forall i | 0 <= i < |planned|
        ensures planned[i].skill in registry && forall d | d in planned[i].dependsOn :: 0 <= d < i
      {
        assert Classifiable(planned[i], i, registry);
      }
    }
  }

  // ----- reconnaissance -----

  /** The argument names step `j` as its source, with Python's equality. */
  predicate ReadsFrom(v: Value, j: int) {
    match RefSource(v)
    case Num(n) => n == j
    case Bool(b) => j == if b then 1 else 0
    case Float(r) => r == j as real
    case _ => false
  }

  /** A step that needs no approval and names no step that does. */
  predicate CanRead(steps: seq<Step>, i: int) {
    && 0 <= i < |steps| && !steps[i].requiresApproval
    && forall j, k | 0 <= j < |steps| && k in steps[i].args ::
         steps[j].requiresApproval ==> !ReadsFrom(steps[i].args[k], j)
  }

  lemma {:induction false} ReconOf(steps: seq<Step>, n: nat)
    requires n <= |steps|
    ensures forall i :: i in Recon(steps, n) <==> 0 <= i < n && IsRecon(steps, i)
  {
    if n > 0 {
      hide IsRecon;
      ReconOf(steps, n - 1);
    }
  }

  lemma CanReadIs(steps: seq<Step>, i: int)
    requires Numbered(steps) && 0 <= i < |steps|
    ensures IsRecon(steps, i) <==> CanRead(steps, i)
  {
    forall k, j | k in steps[i].args && 0 <= j < |steps| && steps[j].requiresApproval
      ensures ReadsFrom(steps[i].args[k], j) ==> InIndices(RefSource(steps[i].args[k]), Unapproved(steps))
    {
      assert steps[j].index == j && j in Unapproved(steps);
    }
    forall k | k in steps[i].args && InIndices(RefSource(steps[i].args[k]), Unapproved(steps))
      ensures exists j :: 0 <= j < |steps| && steps[j].requiresApproval && ReadsFrom(steps[i].args[k], j)
    {
      var n := match RefSource(steps[i].args[k])
               case Num(n) => n case Bool(b) => if b then 1 else 0 case Float(r) => r.Floor case _ => 0;
      var j :| 0 <= j < |steps| && steps[j].requiresApproval && steps[j].index == n;
      assert ReadsFrom(steps[i].args[k], j);
    }
  }

  /** The steps kept for reconnaissance, in order. */
  lemma KeptAre(steps: seq<Step>)
    requires Numbered(steps)
    ensures Increasing(Recon(steps, |steps|))
    ensures forall i :: i in Recon(steps, |steps|) <==> CanRead(steps, i)
  {
    ReconOf(steps, |steps|);
    hide IsRecon, CanRead;
    forall i | 0 <= i < |steps|
      ensures IsRecon(steps, i) <==> CanRead(steps, i)
    {
      CanReadIs(steps, i);
    }
    assert forall i :: CanRead(steps, i) ==> 0 <= i < |steps| by { Ranges(steps); }
  }

  lemma Ranges(steps: seq<Step>)
    ensures forall i :: CanRead(steps, i) ==> 0 <= i < |steps|
  {
  }

  // ----- renumbering -----

  /** A kept step keeps its skill. A reference to a kept step names its new position and is otherwise
      as it was, any other argument stays; dependencies on kept steps move along, the others go. */
  lemma RenumberedIs(planned: seq<PlannedStep>, kept: seq<int>, j: nat)
    requires InPlan(kept, |planned|) && j < |kept|
    ensures |Renumbered(planned, kept)| == |kept|
    ensures var was, step := planned[kept[j]], Renumbered(planned, kept)[j];
            && step.skill == was.skill && step.args.Keys == was.args.Keys
            && (forall k | k in was.args :: MovesTo(was.args[k], kept, step.args[k]))
            && forall x :: x in step.dependsOn <==> 0 <= x < |kept| && kept[x] in was.dependsOn
  {
    var was, step := planned[kept[j]], Renumbered(planned, kept)[j];
    forall k | k in was.args
      ensures MovesTo(was.args[k], kept, step.args[k])
    {
      ArgumentMoves(was.args[k], kept);
    }
    forall x
      ensures x in step.dependsOn <==> 0 <= x < |kept| && kept[x] in was.dependsOn
    {
      RenumberedDeps(was.dependsOn, Mapping(kept), x);
      forall d
        ensures d in Mapping(kept) && Mapping(kept)[d] == x <==> 0 <= x < |kept| && kept[x] == d
      {
        MappingAt(kept, d);
      }
      hide Mapping, RenumberDeps;
    }
  }

  /** `r` is `v` after renumbering. */
  ghost predicate MovesTo(v: Value, kept: seq<int>, r: Value) {
    if exists i :: 0 <= i < |kept| && RefSource(v) == Num(kept[i]) then
      && r.Obj? && r.fields.Keys == v.fields.Keys
      && (exists i :: 0 <= i < |kept| && RefSource(v) == Num(kept[i]) && RefSource(r) == Num(i))
      && forall f :: f in v.fields && f != "from" && (f != "from_step" || "from" in v.fields) ==>
                       r.fields[f] == v.fields[f]
    else r == v
  }

  lemma ArgumentMoves(v: Value, kept: seq<int>)
    requires Increasing(kept)
    ensures MovesTo(v, kept, RenumberArg(v, Mapping(kept)))
  {
    var source := RefSource(v);
    if source.Num? {
      MappingAt(kept, source.n);
    }
    hide Mapping;
    if i :| 0 <= i < |kept| && source == Num(kept[i]) {
      assert Mapping(kept)[source.n] == i;
    }
  }

  // ----- a chat turn -----

  /** The state after running steps without approval: their calls, logged as planning. */
  ghost function Ran(env: Env, s: State, steps: seq<Step>): State {
    var run := RunPlan(env, steps, s.trace);
    State(s.workflows, run.trace, s.log + [Planning(NewCalls(s.trace, run.trace))])
  }

  /** What is logged of a run is what it added to the calls. */
  lemma LoggedIsAdded(env: Env, steps: seq<Step>, trace: seq<Call>)
    ensures RunPlan(env, steps, trace).trace == trace + NewCalls(trace, RunPlan(env, steps, trace).trace)
  {
    RunAdds(env, steps, trace);
    hide RunPlan;
  }

  /** The plan a turn ends up with before the selection is resolved: as the model gave it, or the
      kept reads, renumbered, and after them the follow-up. */
  ghost predicate PlanIs(turn: Turn, kept: seq<int>, planned: seq<PlannedStep>)
    requires InPlan(kept, |turn.plan|)
  {
    if kept == [] || turn.followup == [] then planned == turn.plan
    else
      && |planned| == |kept| + |turn.followup|
      && (forall j :: 0 <= j < |kept| ==> planned[j] == Renumbered(turn.plan, kept)[j])
      && forall j :: 0 <= j < |turn.followup| ==> planned[|kept| + j] == turn.followup[j]
  }

  /** Two-phase planning: without it, or when the plan works on the files selected, the plan stays
      and nothing is called. Otherwise the kept reads run and are the only thing that runs. */
  lemma FollowupIs(env: Env, registry: Registry, s: State, turn: Turn)
    ensures var (t, planned) := FollowupStep(env, registry, s, turn);
            if !turn.needsFollowup then t == s && planned == Some(turn.plan)
            else if !ClassifiablePlan(turn.plan, registry) then t == s && planned == None
            else
              var steps := Classified(turn.plan, registry);
              if turn.selected != [] && UsesSelection(steps, registry) then t == s && planned == Some(turn.plan)
              else
                var kept := Recon(steps, |steps|);
                && planned.Some? && PlanIs(turn, kept, planned.value)
                && t == if kept == [] then s else Ran(env, s, Slice(steps, kept))
  {
    hide RunPlan, Recon, Slice, ClassifiablePlan, RenumberStep, Mapping;
    if turn.needsFollowup && ClassifiablePlan(turn.plan, registry) {
      var steps := Classified(turn.plan, registry);
      assert |steps| == |turn.plan|;
      UsesSelectionIs(steps, registry);
    }
  }

  lemma UsesSelectionIs(steps: seq<Step>, registry: Registry)
    ensures HasSelectionReference(steps, registry) <==> UsesSelection(steps, registry)
  {
    assert forall i :: 0 <= i < |steps| ==> (NeedsSelection(steps[i], registry) <==> Selects(steps[i], registry));
  }

  /** The executable plan: classified and, when it uses the selection, unrolled over it. There is
      none when it cannot be classified, nothing is selected, or unrolling fails. */
  lemma FinalIs(registry: Registry, turn: Turn, planned: seq<PlannedStep>)
    ensures var final := FinalSteps(registry, turn, planned);
            if !ClassifiablePlan(planned, registry) then final == None
            else
              var steps := Classified(planned, registry);
              if !UsesSelection(steps, registry) then final == Some(steps)
              else if turn.selected == [] then final == None
              else
                && (final.Some? <==> Expand(steps, turn.selected, registry).Some?)
                && (final.Some? ==> final.value == Expand(steps, turn.selected, registry).value.steps)
  {
    hide Expand, ClassifiablePlan;
    if ClassifiablePlan(planned, registry) {
      UsesSelectionIs(Classified(planned, registry), registry);
    }
  }

  /** After a plan that needs no approval has run: nothing more when all steps are ok or the model
      has no plan to offer that could run at once, else that plan runs, once. */
  ghost predicate RanAtOnce(env: Env, registry: Registry, s: State, turn: Turn, steps: seq<Step>, t: State) {
    var ran := Ran(env, s, steps);
    var retry := turn.replan != [] && ClassifiablePlan(turn.replan, registry) &&
      !UsesSelection(Classified(turn.replan, registry), registry) &&
      !NeedsApproval(Classified(turn.replan, registry));
    var results := RunPlan(env, steps, s.trace).results;
    var failed := exists i :: 0 <= i < |results| && !results[i].outcome.Ok?;
    t == if failed && retry then Ran(env, ran, Classified(turn.replan, registry)) else ran
  }

  /** What a chat turn leaves behind. A final plan in which a step needs approval is stored, pending,
      under the new id, and only reconnaissance was called. Any other final plan runs at once and
      nothing is stored. Without a final plan nothing happens beyond reconnaissance. */
  lemma ChatLeaves(env: Env, registry: Registry, s: State, turn: Turn)
    ensures var t := ChatStep(env, registry, s, turn);
            var (after, planned) := FollowupStep(env, registry, s, turn);
            && after.workflows == s.workflows
            && if turn.plan == [] then t == s
               else if planned.None? || FinalSteps(registry, turn, planned.value).None? then t == after
               else
                 var steps := FinalSteps(registry, turn, planned.value).value;
                 if NeedsApproval(steps) then
                   t == State(s.workflows[turn.newId := Workflow(steps, Pending)], after.trace, after.log)
                 else RanAtOnce(env, registry, after, turn, steps, t)
  {
    hide RunPlan, FinalSteps, FollowupStep, ClassifiablePlan;
    FollowupKeepsWorkflows(env, registry, s, turn);
    var (after, planned) := FollowupStep(env, registry, s, turn);
    if planned.Some? && FinalSteps(registry, turn, planned.value).Some? {
      DispatchIs(env, registry, after, turn, FinalSteps(registry, turn, planned.value).value);
      hide DispatchStep, RanAtOnce, NeedsApproval;
    }
  }

  lemma DispatchIs(env: Env, registry: Registry, s: State, turn: Turn, steps: seq<Step>)
    ensures var t := DispatchStep(env, registry, s, turn, steps);
            if NeedsApproval(steps) then
              t == State(s.workflows[turn.newId := Workflow(steps, Pending)], s.trace, s.log)
            else RanAtOnce(env, registry, s, turn, steps, t)
  {
    hide RunPlan, ClassifiablePlan, Classified;
    if ClassifiablePlan(turn.replan, registry) {
      UsesSelectionIs(Classified(turn.replan, registry), registry);
    }
    hide HasSelectionReference, UsesSelection;
  }

  // ----- the other calls -----

  /** Confirming a pending workflow runs its stored steps and marks it executed. */
  lemma ConfirmIs(env: Env, s: State, id: nat)
    ensures var t := ConfirmStep(env, s, id);
            if id in s.workflows && s.workflows[id].status == Pending then
              var steps := s.workflows[id].steps;
              var calls := NewCalls(s.trace, RunPlan(env, steps, s.trace).trace);
              t == State(s.workflows[id := Workflow(steps, Executed)], s.trace + calls,
                         s.log + [Confirmed(id, steps, calls)])
            else t == s
  {
    hide RunPlan, NewCalls;
    if id in s.workflows {
      LoggedIsAdded(env, s.workflows[id].steps, s.trace);
    }
  }

  /** Cancelling marks a pending workflow, and does nothing else. */
  lemma CancelIs(s: State, id: nat)
    ensures CancelStep(s, id) ==
            if id in s.workflows && s.workflows[id].status == Pending
            then State(s.workflows[id := Workflow(s.workflows[id].steps, Cancelled)], s.trace, s.log) else s
  {
  }

  /** Saving stores the classified steps, and calls nothing. */
  lemma SaveIs(registry: Registry, s: State, id: nat, planned: seq<PlannedStep>)
    ensures SaveStep(registry, s, id, planned) ==
            if ClassifiablePlan(planned, registry)
            then State(s.workflows[id := Workflow(Classified(planned, registry), Saved)], s.trace, s.log) else s
  {
    hide ClassifiablePlan, Classified;
  }

  /** A rerun runs the stored steps of a saved workflow under the catalog as it is now. */
  lemma RerunIs(env: Env, registry: Registry, s: State, id: nat)
    ensures var t := RerunStep(env, registry, s, id);
            if id in s.workflows && s.workflows[id].status == Saved &&
               ClassifiablePlan(Unclassified(s.workflows[id].steps), registry) then
              var steps := Classified(Unclassified(s.workflows[id].steps), registry);
              var calls := NewCalls(s.trace, RunPlan(env, steps, s.trace).trace);
              t == State(s.workflows, s.trace + calls, s.log + [Rerun(id, calls)])
            else t == s
  {
    hide RunPlan, NewCalls, ClassifiablePlan, Classified, Unclassified;
    if id in s.workflows && ClassifiablePlan(Unclassified(s.workflows[id].steps), registry) {
      LoggedIsAdded(env, Classified(Unclassified(s.workflows[id].steps), registry), s.trace);
    }
  }

  lemma UnclassifiedIs(steps: seq<Step>)
    ensures |Unclassified(steps)| == |steps|
    ensures forall i | 0 <= i < |steps| ::
              Unclassified(steps)[i] == PlannedStep(steps[i].skill, steps[i].args, steps[i].dependsOn)
  {
  }

  // ----- where workflows come from -----

  /** Event `k` stored the workflow. */
  ghost predicate StoredBy(env: Env, registry: Registry, events: seq<Event>, k: int, id: nat, w: Workflow)
    requires 0 <= k < |events|
  {
    match events[k]
    case Save(saved, planned) =>
      && saved == id && w.status == Saved
      && ClassifiablePlan(planned, registry) && w.steps == Classified(planned, registry)
    case Chat(turn) =>
      && turn.newId == id && w.status != Saved && NeedsApproval(w.steps)
      && var planned := FollowupStep(env, registry, RunEvents(env, registry, NoWorkflows(), events[..k]), turn).1;
         planned.Some? && FinalSteps(registry, turn, planned.value) == Some(w.steps)
    case _ => false
  }

  lemma StoredEarlier(env: Env, registry: Registry, events: seq<Event>, k: int, id: nat, w: Workflow)
    requires events != [] && 0 <= k < |events| - 1
    ensures StoredBy(env, registry, events[..|events| - 1], k, id, w) <==> StoredBy(env, registry, events, k, id, w)
  {
    hide FollowupStep, FinalSteps, RunEvents, ClassifiablePlan, Classified;
    assert events[..|events| - 1][..k] == events[..k];
  }

  /** The workflows an event leaves: those from before, at most one of them marked, and at most one
      new one, saved by saving or pending by chatting. */
  lemma EventStores(env: Env, registry: Registry, s: State, event: Event, id: nat)
    requires id in EventStep(env, registry, s, event).workflows
    ensures var w := EventStep(env, registry, s, event).workflows[id];
            || (id in s.workflows && w.steps == s.workflows[id].steps &&
                (w.status == Saved <==> s.workflows[id].status == Saved))
            || (event.Save? && event.id == id && w.status == Saved && ClassifiablePlan(event.planned, registry) &&
                w.steps == Classified(event.planned, registry))
            || (event.Chat? && event.turn.newId == id && w.status == Pending && NeedsApproval(w.steps) &&
                var planned := FollowupStep(env, registry, s, event.turn).1;
                planned.Some? && FinalSteps(registry, event.turn, planned.value) == Some(w.steps))
  {
    match event
    case Chat(turn) =>
      ChatLeaves(env, registry, s, turn);
      hide ChatStep, FollowupStep, FinalSteps, RunPlan, NeedsApproval, ClassifiablePlan, Classified, UsesSelection;
    case Confirm(other) => ConfirmIs(env, s, other); hide ConfirmStep, RunPlan;
    case Cancel(other) => CancelIs(s, other);
    case Save(other, planned) => SaveIs(registry, s, other, planned); hide ClassifiablePlan, Classified;
    case RerunSaved(other) => RerunIs(env, registry, s, other); hide RerunStep, RunPlan;
  }

  /** Every stored workflow comes from one event: a saved one from saving just these steps, any
      other from a chat turn whose final plan they are, with a step that needs approval. */
  lemma {:induction false} WorkflowsComeFrom(env: Env, registry: Registry, events: seq<Event>, id: nat)
    requires id in RunEvents(env, registry, NoWorkflows(), events).workflows
    ensures exists k :: 0 <= k < |events| &&
              StoredBy(env, registry, events, k, id, RunEvents(env, registry, NoWorkflows(), events).workflows[id])
  {
    hide EventStep, FollowupStep, FinalSteps, ClassifiablePlan, Classified, NeedsApproval;
    if events != [] {
      var init := events[..|events| - 1];
      var before := RunEvents(env, registry, NoWorkflows(), init);
      var after := RunEvents(env, registry, NoWorkflows(), events);
      EventStores(env, registry, before, events[|init|], id);
      var w := after.workflows[id];
      if !StoredBy(env, registry, events, |init|, id, w) {
        WorkflowsComeFrom(env, registry, init, id);
        var k :| 0 <= k < |init| && StoredBy(env, registry, init, k, id, before.workflows[id]);
        StoredEarlier(env, registry, events, k, id, before.workflows[id]);
        SameOrigin(env, registry, events, k, id, before.workflows[id], w);
      }
    }
  }

  lemma SameOrigin(env: Env, registry: Registry, events: seq<Event>, k: int, id: nat, w: Workflow, v: Workflow)
    requires 0 <= k < |events| && StoredBy(env, registry, events, k, id, w)
    requires v.steps == w.steps && (v.status == Saved <==> w.status == Saved)
    ensures StoredBy(env, registry, events, k, id, v)
  {
    hide FollowupStep, FinalSteps, RunEvents, ClassifiablePlan, Classified;
  }

  // ----- what becomes of a pending workflow -----

  lemma {:induction false} RunSplit(env: Env, registry: Registry, s: State, events: seq<Event>, more: seq<Event>)
    ensures RunEvents(env, registry, s, events + more) ==
            RunEvents(env, registry, RunEvents(env, registry, s, events), more)
    decreases |more|
  {
    hide EventStep;
    if more == [] {
      assert events + more == events;
    } else {
      var init := more[..|more| - 1];
      RunSplit(env, registry, s, events, init);
      assert (events + more)[..|events + more| - 1] == events + init;
    }
  }

  /** The state before event `k` of a run that starts without workflows. */
  ghost function StateBefore(env: Env, registry: Registry, events: seq<Event>, k: nat): State
    requires k <= |events|
  {
    RunEvents(env, registry, NoWorkflows(), events[..k])
  }

  lemma EventAt(env: Env, registry: Registry, events: seq<Event>, k: nat)
    requires k < |events|
    ensures var before := StateBefore(env, registry, events, k);
            var after := StateBefore(env, registry, events, k + 1);
            && after == EventStep(env, registry, before, events[k])
            && Gate(env, registry, before) && Gate(env, registry, after)
            && RunEvents(env, registry, NoWorkflows(), events) == RunEvents(env, registry, after, events[k + 1..])
  {
    GateInitially(env, registry);
    ApprovalGate(env, registry, NoWorkflows(), events[..k]);
    ApprovalGate(env, registry, NoWorkflows(), events[..k + 1]);
    RunSplit(env, registry, NoWorkflows(), events[..k + 1], events[k + 1..]);
    assert events[..k + 1] + events[k + 1..] == events;
    assert events[..k + 1][..k] == events[..k];
    hide EventStep, Gate, Keeps;
  }

  /** Once a pending workflow is cancelled it never runs; once it is confirmed its steps have run, right
      then and as they were stored. */
  lemma Decided(env: Env, registry: Registry, events: seq<Event>, k: nat, id: nat)
    requires k < |events|
    requires var w := StateBefore(env, registry, events, k).workflows; id in w && w[id].status == Pending
    ensures events[k] == Cancel(id) ==> !WasConfirmed(RunEvents(env, registry, NoWorkflows(), events), id)
    ensures events[k] == Confirm(id) ==>
              var before, t := StateBefore(env, registry, events, k), RunEvents(env, registry, NoWorkflows(), events);
              && |before.log| < |t.log| && t.log[|before.log|].Confirmed?
              && t.log[|before.log|].id == id && t.log[|before.log|].steps == before.workflows[id].steps
  {
    EventAt(env, registry, events, k);
    var before, after := StateBefore(env, registry, events, k), StateBefore(env, registry, events, k + 1);
    if events[k] == Cancel(id) {
      CancelIs(before, id);
      CancelledNeverRuns(env, registry, after, id, events[k + 1..]);
    } else if events[k] == Confirm(id) {
      ConfirmIs(env, before, id);
      ApprovalGate(env, registry, after, events[k + 1..]);
    }
    hide StateBefore, RunEvents, ConfirmStep, CancelStep, RunPlan, Gate;
  }

  lemma TwoEvents(env: Env, registry: Registry, s: State, a: Event, b: Event)
    ensures RunEvents(env, registry, s, [a, b]) == EventStep(env, registry, EventStep(env, registry, s, a), b)
  {
    hide EventStep;
    assert [a, b][..1] == [a] && [a][..0] == [];
    assert RunEvents(env, registry, s, []) == s;
  }

  /** Confirming a pending workflow runs its steps; cancelling it runs nothing, also when it is
      confirmed afterwards. */
  lemma Answers(env: Env, registry: Registry, s: State, id: nat, steps: seq<Step>)
    requires id in s.workflows && s.workflows[id] == Workflow(steps, Pending)
    ensures var calls := NewCalls(s.trace, RunPlan(env, steps, s.trace).trace);
            EventStep(env, registry, s, Confirm(id)) ==
            State(s.workflows[id := Workflow(steps, Executed)], s.trace + calls,
                  s.log + [Confirmed(id, steps, calls)])
    ensures var cancelled := State(s.workflows[id := Workflow(steps, Cancelled)], s.trace, s.log);
            && EventStep(env, registry, s, Cancel(id)) == cancelled
            && EventStep(env, registry, cancelled, Confirm(id)) == cancelled
  {
    ConfirmIs(env, s, id);
    CancelIs(s, id);
    ConfirmIs(env, CancelStep(s, id), id);
    hide RunPlan, NewCalls, ConfirmStep, CancelStep;
  }

  lemma Asks(env: Env, registry: Registry, s: State, turn: Turn, steps: seq<Step>)
    requires turn.newId !in s.workflows && turn.plan != [] && NeedsApproval(steps)
    requires var planned := FollowupStep(env, registry, s, turn).1;
             planned.Some? && FinalSteps(registry, turn, planned.value) == Some(steps)
    ensures var asked := FollowupStep(env, registry, s, turn).0;
            EventStep(env, registry, s, Chat(turn)) ==
            State(s.workflows[turn.newId := Workflow(steps, Pending)], asked.trace, asked.log)
  {
    ChatLeaves(env, registry, s, turn);
    hide ChatStep, FollowupStep, FinalSteps, NeedsApproval, RanAtOnce;
  }

  /** A turn under a new id whose final plan needs approval, and then the answer to it: confirming runs
      just that plan, after the reconnaissance; cancelling runs nothing, even if it is confirmed later. */
  lemma Answered(env: Env, registry: Registry, s: State, turn: Turn, steps: seq<Step>)
    requires turn.newId !in s.workflows && turn.plan != [] && NeedsApproval(steps)
    requires var planned := FollowupStep(env, registry, s, turn).1;
             planned.Some? && FinalSteps(registry, turn, planned.value) == Some(steps)
    ensures var asked := FollowupStep(env, registry, s, turn).0;
            var calls := NewCalls(asked.trace, RunPlan(env, steps, asked.trace).trace);
            && RunEvents(env, registry, s, [Chat(turn), Confirm(turn.newId)])
               == State(s.workflows[turn.newId := Workflow(steps, Executed)], asked.trace + calls,
                        asked.log + [Confirmed(turn.newId, steps, calls)])
            && RunEvents(env, registry, s, [Chat(turn), Cancel(turn.newId), Confirm(turn.newId)])
               == State(s.workflows[turn.newId := Workflow(steps, Cancelled)], asked.trace, asked.log)
  {
    var chat, yes, no := Chat(turn), Confirm(turn.newId), Cancel(turn.newId);
    Asks(env, registry, s, turn, steps);
    var asked := EventStep(env, registry, s, chat);
    Answers(env, registry, asked, turn.newId, steps);
    TwoEvents(env, registry, s, chat, yes);
    TwoEvents(env, registry, s, chat, no);
    RunSplit(env, registry, s, [chat, no], [yes]);
    assert [chat, no] + [yes] == [chat, no, yes];
    OneEvent(env, registry, EventStep(env, registry, asked, no), yes);
    hide *;
    assert asked.workflows[turn.newId := Workflow(steps, Executed)]
           == s.workflows[turn.newId := Workflow(steps, Executed)];
    assert asked.workflows[turn.newId := Workflow(steps, Cancelled)]
           == s.workflows[turn.newId := Workflow(steps, Cancelled)];
  }

  lemma OneEvent(env: Env, registry: Registry, s: State, a: Event)
    ensures RunEvents(env, registry, s, [a]) == EventStep(env, registry, s, a)
  {
    hide EventStep;
    assert [a][..0] == [] && RunEvents(env, registry, s, []) == s;
  }
}
