/** Unrolling a selection preserves meaning: the unrolled plan makes the same calls and
    gets the same results as running each `each` step once per item. */
module Unrolling {
  import opened Text
  import opened Json
  import opened References
  import opened Executor
  import opened Isolation
  import opened Plans
  import opened Selection

  // ----- the direct interpreter: selection references are read while running -----

  /** Results so far, one group per step of the original plan. */
  datatype GroupRun = GroupRun(groups: seq<seq<Outcome>>, trace: seq<Call>)

  /** A reference to a step reads the output of its first instance. */
  function FirstOutputs(groups: seq<seq<Outcome>>): map<int, Value> {
    map s | 0 <= s < |groups| && groups[s] != [] && groups[s][0].Ok? :: groups[s][0].output
  }

  predicate AllOk(group: seq<Outcome>) {
    forall j :: 0 <= j < |group| ==> group[j].Ok?
  }

  /** A dependency needs every instance ok, a reference only the first. */
  ghost predicate GroupBlocked(step: Step, args: Args, groups: seq<seq<Outcome>>) {
    || (exists d :: d in step.dependsOn && 0 <= d < |groups| && !AllOk(groups[d]))
    || (exists s :: s in StepSources(args) && 0 <= s < |groups| && groups[s] != [] && !groups[s][0].Ok?)
  }

  function ChosenCell(key: string, v: Value, items: seq<SelectedItem>, each: set<string>,
                      forced: Option<nat>): Option<Value> {
    if IsSelectionRef(v) then SelectionValue(v, items, ForcedItem(each, key, forced)) else Some(v)
  }

  /** The arguments with selection references replaced; step references are left alone. */
  function ChosenArgs(args: Args, items: seq<SelectedItem>, forced: Option<nat>): Option<Args> {
    AllSome(map k | k in args :: ChosenCell(k, args[k], items, EachKeys(args), forced))
  }

  ghost function RunInstance(env: Env, step: Step, args: Args, items: seq<SelectedItem>,
                             groups: seq<seq<Outcome>>, i: nat, trace: seq<Call>): (Outcome, seq<Call>) {
    if GroupBlocked(step, args, groups) then (Skipped, trace)
    else match ChosenArgs(args, items, Forced(args, i))
         case None => (Failed, trace)
         case Some(chosen) =>
           var a := AttemptStep(env, step.skill, Bind(chosen, FirstOutputs(groups)), trace);
           (OutcomeOf(a), a.trace)
  }

  ghost function RunInstances(env: Env, step: Step, args: Args, items: seq<SelectedItem>,
                              groups: seq<seq<Outcome>>, n: nat, trace: seq<Call>): (seq<Outcome>, seq<Call>) {
    if n == 0 then ([], trace)
    else
      var (outcomes, t) := RunInstances(env, step, args, items, groups, n - 1, trace);
      var (outcome, t') := RunInstance(env, step, args, items, groups, n - 1, t);
      (outcomes + [outcome], t')
  }

  /** Run the plan as written, an `each` step once per selected item. */
  ghost function RunDirect(env: Env, steps: seq<Step>, items: seq<SelectedItem>, registry: Registry,
                           trace: seq<Call>): GroupRun {
    if steps == [] then GroupRun([], trace)
    else
      var before := RunDirect(env, steps[..|steps| - 1], items, registry, trace);
      var step := steps[|steps| - 1];
      var args := InjectSelection(step, registry);
      var (outcomes, t) := RunInstances(env, step, args, items, before.groups, Width(args, items), before.trace);
      GroupRun(before.groups + [outcomes], t)
  }

  // ----- hypotheses -----

  /** Selected items as the service builds them: text fields only. */
  predicate PlainItem(item: SelectedItem) {
    && "from" !in item && "from_step" !in item
    && forall k | k in item :: item[k].Str?
  }

  predicate PlainItems(items: seq<SelectedItem>) {
    forall i :: 0 <= i < |items| ==> PlainItem(items[i])
  }

  predicate PlainValue(v: Value) {
    !IsReference(v) && !IsStepRef(v) && !IsSelectionRef(v)
  }

  lemma PathIntoItem(item: SelectedItem, parts: seq<string>)
    requires PlainItem(item)
    ensures Descend(Obj(item), parts).Some? ==> PlainValue(Descend(Obj(item), parts).value)
  {
    if |parts| == 1 {
      assert parts[1..] == [];
    } else if |parts| >= 2 && Follow(Obj(item), parts[0]).Some? {
      assert parts[1..][0] == parts[1];
      assert Follow(Follow(Obj(item), parts[0]).value, parts[1]).None?;
    }
  }

  lemma SelectionIsPlain(ref: Value, items: seq<SelectedItem>, forced: Option<nat>)
    requires ref.Obj? && PlainItems(items)
    requires SelectionValue(ref, items, forced).Some?
    ensures PlainValue(SelectionValue(ref, items, forced).value)
  {
    hide Descend, Parts;
    forall i, path: string | 0 <= i < |items| && PathValue(Obj(items[i]), path).Some?
      ensures PlainValue(PathValue(Obj(items[i]), path).value)
    {
      PathIntoItem(items[i], Parts(path));
    }
  }

  // ----- where the steps went -----

  /** The shape of an expansion: consecutive non-empty intervals, numbered, pointing back. */
  ghost predicate WellExpanded(e: Expansion, n: nat) {
    && (forall k :: k in e.images <==> 0 <= k < n)
    && (forall k, x :: 0 <= k < n && x in e.images[k] ==> 0 <= x < |e.steps|)
    && (forall k :: 0 <= k < n ==> e.images[k] != [])
    && Numbered(e.steps)
  }

  lemma IntervalMembers(from: int, n: nat, x: int)
    ensures x in Interval(from, n) <==> from <= x < from + n
  {
    if from <= x < from + n {
      assert Interval(from, n)[x - from] == x;
    }
  }

  lemma {:induction false} RemappedDeps(deps: seq<int>, images: map<int, seq<int>>, x: int)
    requires forall d | d in deps :: d in images
    ensures x in RemapDeps(deps, images) <==> exists d :: d in deps && x in images[d]
  {
    if deps != [] {
      RemappedDeps(deps[..|deps| - 1], images, x);
      assert deps == deps[..|deps| - 1] + [deps[|deps| - 1]];
    }
  }

  lemma InjectedSources(step: Step, registry: Registry)
    ensures StepSources(InjectSelection(step, registry)) <= StepSources(step.args)
  {
    var args := InjectSelection(step, registry);
    forall s | s in StepSources(args)
      ensures s in StepSources(step.args)
    {
      var k :| k in args && IsStepRef(args[k]) && RefSource(args[k]).n == s;
      assert args[k] == step.args[k];
    }
  }

  // ----- one argument -----

  /** An argument of an instance and the same argument in the direct run read the same. */
  lemma InstanceArgument(key: string, v: Value, items: seq<SelectedItem>, each: set<string>,
                         forced: Option<nat>, e: Expansion, groups: seq<seq<Outcome>>,
                         ok: map<int, Value>)
    requires PlainItems(items) && WellExpanded(e, |groups|)
    requires IsStepRef(v) ==> 0 <= RefSource(v).n < |groups|
    requires forall k | 0 <= k < |groups| ::
               && groups[k] != []
               && (e.images[k][0] in ok <==> groups[k][0].Ok?)
               && (groups[k][0].Ok? ==> ok[e.images[k][0]] == groups[k][0].output)
    ensures InstanceCell(key, v, items, each, forced, e.images).Some? <==>
            ChosenCell(key, v, items, each, forced).Some?
    ensures InstanceCell(key, v, items, each, forced, e.images).Some? ==>
              var c := InstanceCell(key, v, items, each, forced, e.images).value;
              && BindOne(c, ok) == BindOne(ChosenCell(key, v, items, each, forced).value, FirstOutputs(groups))
              && !IsSelectionRef(c)
              && (IsStepRef(c) <==> IsStepRef(v))
              && (IsStepRef(c) ==> RefSource(c).n == e.images[RefSource(v).n][0])
  {
    hide SelectionValue;
    if IsSelectionRef(v) {
      if SelectionValue(v, items, ForcedItem(each, key, forced)).Some? {
        SelectionIsPlain(v, items, ForcedItem(each, key, forced));
      }
    } else if IsStepRef(v) {
      RemappedRef(v, e.images);
    }
  }

  lemma RemappedRef(v: Value, images: map<int, seq<int>>)
    requires IsStepRef(v) && RefSource(v).n in images && images[RefSource(v).n] != []
    ensures var c := RemapRef(v, images).value;
            && RemapRef(v, images).Some?
            && IsStepRef(c) && RefSource(c) == Num(images[RefSource(v).n][0])
            && RefPath(c) == RefPath(v)
  {
    assert "path"[0] != "from"[0] && |"path"| != |"from_step"|;
  }

  // ----- one instance -----

  /** First images: where the references of a step go. */
  ghost function FirstImages(sources: set<int>, images: map<int, seq<int>>): set<int>
    requires forall s | s in sources :: s in images && images[s] != []
  {
    set s | s in sources :: images[s][0]
  }

  /** The results of the unrolled plan agree with the groups of the direct run. */
  ghost predicate Agree(e: Expansion, results: seq<StepResult>, groups: seq<seq<Outcome>>) {
    && WellExpanded(e, |groups|)
    && |results| >= |e.steps|
    && NumberedResults(results)
    && forall k :: 0 <= k < |groups| ==> GroupAgrees(e, results, groups, k)
  }

  ghost predicate GroupAgrees(e: Expansion, results: seq<StepResult>, groups: seq<seq<Outcome>>, k: int)
    requires WellExpanded(e, |groups|) && |results| >= |e.steps| && 0 <= k < |groups|
  {
    && |groups[k]| == |e.images[k]|
    && forall j :: 0 <= j < |groups[k]| ==>
         0 <= e.images[k][j] < |results| && groups[k][j] == results[e.images[k][j]].outcome
  }

  lemma FirstAgrees(e: Expansion, results: seq<StepResult>, groups: seq<seq<Outcome>>, k: int)
    requires Agree(e, results, groups) && 0 <= k < |groups|
    ensures groups[k] != []
    ensures var ok := OkOutputs(results);
            && (e.images[k][0] in ok <==> groups[k][0].Ok?)
            && (groups[k][0].Ok? ==> ok[e.images[k][0]] == groups[k][0].output)
  {
    assert GroupAgrees(e, results, groups, k);
    assert e.images[k][0] in e.images[k];
    OkOutputsAt(results, e.images[k][0]);
  }

  lemma InstanceArguments(args: Args, items: seq<SelectedItem>, forced: Option<nat>,
                          e: Expansion, results: seq<StepResult>, groups: seq<seq<Outcome>>)
    requires PlainItems(items) && Agree(e, results, groups)
    requires forall s | s in StepSources(args) :: 0 <= s < |groups|
    ensures InstanceArgs(args, items, forced, e.images).Some? <==> ChosenArgs(args, items, forced).Some?
    ensures InstanceArgs(args, items, forced, e.images).Some? ==>
              var inst := InstanceArgs(args, items, forced, e.images).value;
              && Bind(inst, OkOutputs(results)) ==
                 Bind(ChosenArgs(args, items, forced).value, FirstOutputs(groups))
              && (forall k | k in inst :: !IsSelectionRef(inst[k]))
              && StepSources(inst) == FirstImages(StepSources(args), e.images)
  {
    var ok := OkOutputs(results);
    hide InstanceCell, ChosenCell, BindOne, OkOutputs, FirstOutputs;
    forall k | 0 <= k < |groups| {
      FirstAgrees(e, results, groups, k);
    }
    forall k | k in args
      ensures InstanceCell(k, args[k], items, EachKeys(args), forced, e.images).Some? <==>
              ChosenCell(k, args[k], items, EachKeys(args), forced).Some?
      ensures InstanceCell(k, args[k], items, EachKeys(args), forced, e.images).Some? ==>
              var c := InstanceCell(k, args[k], items, EachKeys(args), forced, e.images).value;
              && BindOne(c, ok) == BindOne(ChosenCell(k, args[k], items, EachKeys(args), forced).value,
                  FirstOutputs(groups))
              && !IsSelectionRef(c)
              && (IsStepRef(c) <==> IsStepRef(args[k]))
              && (IsStepRef(c) ==> RefSource(args[k]).n in StepSources(args) &&
                                   RefSource(c).n == e.images[RefSource(args[k]).n][0])
    {
      if IsStepRef(args[k]) {
        assert RefSource(args[k]).n in StepSources(args);
      }
      InstanceArgument(k, args[k], items, EachKeys(args), forced, e, groups, ok);
    }
    if InstanceArgs(args, items, forced, e.images).Some? {
      var inst := InstanceArgs(args, items, forced, e.images).value;
      forall x | x in FirstImages(StepSources(args), e.images)
        ensures x in StepSources(inst)
      {
        var s :| s in StepSources(args) && x == e.images[s][0];
        var k :| k in args && IsStepRef(args[k]) && RefSource(args[k]).n == s;
        assert k in inst && IsStepRef(inst[k]);
      }
    }
  }

  /** Some instance of step `d` is not ok exactly when one of its images is unavailable. */
  lemma ImageUnavailable(e: Expansion, results: seq<StepResult>, groups: seq<seq<Outcome>>, d: int)
    requires Agree(e, results, groups) && 0 <= d < |groups|
    ensures AllOk(groups[d]) <==> forall x :: x in e.images[d] ==> x !in NotOk(results)
    ensures groups[d] != [] && (groups[d][0].Ok? <==> e.images[d][0] !in NotOk(results))
  {
    assert GroupAgrees(e, results, groups, d);
    if !AllOk(groups[d]) {
      var j :| 0 <= j < |groups[d]| && !groups[d][j].Ok?;
      assert e.images[d][j] in e.images[d];
    }
  }

  function Members(xs: seq<int>): set<int> {
    set x | x in xs
  }

  lemma BlockedParts(step: Step, bad: set<int>)
    ensures Blocked(step, bad) != {} <==>
            Members(step.dependsOn) * bad != {} || StepSources(step.args) * bad != {}
  {
    hide StepSources;
    assert Blocked(step, bad) == Members(step.dependsOn) * bad + StepSources(step.args) * bad;
  }

  lemma SameBlockedDeps(deps: seq<int>, e: Expansion, results: seq<StepResult>, groups: seq<seq<Outcome>>)
    requires Agree(e, results, groups)
    requires forall d | d in deps :: 0 <= d < |groups|
    ensures Members(RemapDeps(deps, e.images)) * NotOk(results) != {} <==>
            (exists d :: d in deps && 0 <= d < |groups| && !AllOk(groups[d]))
  {
    hide RemapDeps, NotOk, AllOk, GroupAgrees;
    var remapped := RemapDeps(deps, e.images);
    forall x {
      RemappedDeps(deps, e.images, x);
    }
    if d :| d in deps && 0 <= d < |groups| && !AllOk(groups[d]) {
      ImageUnavailable(e, results, groups, d);
      var x :| x in e.images[d] && x in NotOk(results);
      assert x in Members(remapped) * NotOk(results);
    } else {
      forall x | x in remapped
        ensures x !in NotOk(results)
      {
        var d :| d in deps && x in e.images[d];
        ImageUnavailable(e, results, groups, d);
      }
      assert Members(remapped) * NotOk(results) == {};
    }
  }

  lemma SameBlockedSources(sources: set<int>, e: Expansion, results: seq<StepResult>, groups: seq<seq<Outcome>>)
    requires Agree(e, results, groups)
    requires forall s | s in sources :: 0 <= s < |groups|
    ensures FirstImages(sources, e.images) * NotOk(results) != {} <==>
            (exists s :: s in sources && 0 <= s < |groups| && groups[s] != [] && !groups[s][0].Ok?)
  {
    hide NotOk, AllOk, GroupAgrees;
    forall s | s in sources
      ensures e.images[s][0] in FirstImages(sources, e.images)
      ensures groups[s] != [] && (e.images[s][0] in NotOk(results) <==> !groups[s][0].Ok?)
    {
      ImageUnavailable(e, results, groups, s);
    }
    if s :| s in sources && 0 <= s < |groups| && groups[s] != [] && !groups[s][0].Ok? {
      assert e.images[s][0] in FirstImages(sources, e.images) * NotOk(results);
    } else {
      assert FirstImages(sources, e.images) * NotOk(results) == {};
    }
  }

  /** An instance is blocked in the unrolled run exactly when the step is in the direct run. */
  lemma SameBlocked(step: Step, args: Args, inst: Step, e: Expansion, run: Run, groups: seq<seq<Outcome>>)
    requires Agree(e, run.results, groups) && run.unavailable == NotOk(run.results)
    requires forall d | d in step.dependsOn :: 0 <= d < |groups|
    requires forall s | s in StepSources(args) :: 0 <= s < |groups|
    requires inst.dependsOn == RemapDeps(step.dependsOn, e.images)
    requires StepSources(inst.args) == FirstImages(StepSources(args), e.images)
    ensures Blocked(inst, run.unavailable) != {} <==> GroupBlocked(step, args, groups)
  {
    hide Blocked, NotOk, AllOk, StepSources, FirstImages, RemapDeps, GroupAgrees;
    BlockedParts(inst, run.unavailable);
    SameBlockedDeps(step.dependsOn, e, run.results, groups);
    SameBlockedSources(StepSources(args), e, run.results, groups);
  }

  // ----- the simulation -----

  /** What the unrolled run and the direct run have in common after whole steps. */
  ghost predicate Simulates(e: Expansion, run: Run, direct: GroupRun) {
    && Agree(e, run.results, direct.groups)
    && |run.results| == |e.steps|
    && NumberedResults(run.results)
    && run.unavailable == NotOk(run.results)
    && run.trace == direct.trace
    && Outcomes(run.results) == Flatten(direct.groups)
  }

  function Outcomes(results: seq<StepResult>): seq<Outcome> {
    seq(|results|, i requires 0 <= i < |results| => results[i].outcome)
  }

  function Flatten(groups: seq<seq<Outcome>>): seq<Outcome> {
    if groups == [] then [] else Flatten(groups[..|groups| - 1]) + groups[|groups| - 1]
  }

  /** One instance does in the unrolled run what it does in the direct run. */
  lemma InstanceStep(env: Env, step: Step, args: Args, items: seq<SelectedItem>, e: Expansion,
                     run: Run, groups: seq<seq<Outcome>>, i: nat)
    requires PlainItems(items) && Expandable(args, items, e.images) && i < Width(args, items)
    requires Agree(e, run.results, groups) && run.unavailable == NotOk(run.results)
    requires forall d | d in step.dependsOn :: 0 <= d < |groups|
    requires forall s | s in StepSources(args) :: 0 <= s < |groups|
    ensures var inst := Instance(step, args, items, e, i);
            var (outcome, t) := RunInstance(env, step, args, items, groups, i, run.trace);
            RunStep(env, inst, run) == Record(run, inst, outcome, t)
  {
    hide Blocked, GroupBlocked, AttemptStep, Bind, OkOutputs, FirstOutputs, InstanceArgs, ChosenArgs;
    hide NotOk, Agree, StepSources, FirstImages;
    var inst := Instance(step, args, items, e, i);
    InstanceArguments(args, items, Forced(args, i), e, run.results, groups);
    SameBlocked(step, args, inst, e, run, groups);
  }

  /** After `i` instances of the last step, the runs have made the same calls and the new
      results are the outcomes so far. */
  ghost predicate InstancesDone(before: Run, after: Run, outcomes: seq<Outcome>, trace: seq<Call>) {
    && after.trace == trace
    && |after.results| == |before.results| + |outcomes|
    && after.results[..|before.results|] == before.results
    && NumberedResults(after.results)
    && after.unavailable == NotOk(after.results)
    && forall j | 0 <= j < |outcomes| :: after.results[|before.results| + j].outcome == outcomes[j]
  }

  lemma OneMoreDone(before: Run, run: Run, outcomes: seq<Outcome>, trace: seq<Call>, inst: Step, outcome: Outcome,
                    t: seq<Call>)
    requires InstancesDone(before, run, outcomes, trace) && inst.index == |run.results|
    ensures InstancesDone(before, Record(run, inst, outcome, t), outcomes + [outcome], t)
  {
    hide NotOk;
    RecordNumbered(run, inst, outcome, t);
    var after := Record(run, inst, outcome, t);
    assert after.results[..|before.results|] == run.results[..|before.results|];
  }

  lemma {:induction false} InstancesRun(env: Env, step: Step, args: Args, items: seq<SelectedItem>,
                                        e: Expansion, run: Run, direct: GroupRun, trace: seq<Call>, i: nat)
    requires PlainItems(items) && Expandable(args, items, e.images) && i <= Width(args, items)
    requires run == RunPlan(env, e.steps, trace) && Simulates(e, run, direct)
    requires forall d | d in step.dependsOn :: 0 <= d < |direct.groups|
    requires forall s | s in StepSources(args) :: 0 <= s < |direct.groups|
    ensures var after := RunPlan(env, e.steps + Instances(step, args, items, e, i), trace);
            var (outcomes, t) := RunInstances(env, step, args, items, direct.groups, i, direct.trace);
            |outcomes| == i && InstancesDone(run, after, outcomes, t)
  {
    hide RunInstance, Instance, NotOk, Flatten, Agree, RunStep, Expandable, Width, RemapDeps, StepSources;
    if i == 0 {
      assert e.steps + Instances(step, args, items, e, 0) == e.steps;
    } else {
      InstancesRun(env, step, args, items, e, run, direct, trace, i - 1);
      var shorter := e.steps + Instances(step, args, items, e, i - 1);
      var inst := Instance(step, args, items, e, i - 1);
      assert e.steps + Instances(step, args, items, e, i) == shorter + [inst];
      hide Instances, RunPlan, Record;
      RunSnoc(env, shorter, inst, trace);
      var before := RunPlan(env, shorter, trace);
      AgreeExtends(e, run.results, before.results, direct.groups);
      InstanceStep(env, step, args, items, e, before, direct.groups, i - 1);
      var (outcomes, t0) := RunInstances(env, step, args, items, direct.groups, i - 1, direct.trace);
      var (outcome, t) := RunInstance(env, step, args, items, direct.groups, i - 1, before.trace);
      InstanceIndex(step, args, items, e, i - 1);
      OneMoreDone(run, before, outcomes, t0, inst, outcome, t);
    }
  }

  lemma InstanceIndex(step: Step, args: Args, items: seq<SelectedItem>, e: Expansion, i: nat)
    requires Expandable(args, items, e.images) && i < Width(args, items)
    ensures Instance(step, args, items, e, i).index == |e.steps| + i
  {
  }

  lemma AgreeExtends(e: Expansion, results: seq<StepResult>, longer: seq<StepResult>, groups: seq<seq<Outcome>>)
    requires Agree(e, results, groups) && |results| == |e.steps|
    requires NumberedResults(longer) && |longer| >= |results| && longer[..|results|] == results
    ensures Agree(e, longer, groups)
  {
    forall k | 0 <= k < |groups|
      ensures GroupAgrees(e, longer, groups, k)
    {
      assert GroupAgrees(e, results, groups, k);
      forall j | 0 <= j < |groups[k]|
        ensures 0 <= e.images[k][j] < |longer| && groups[k][j] == longer[e.images[k][j]].outcome
      {
        assert e.images[k][j] in e.images[k];
        assert longer[e.images[k][j]] == results[e.images[k][j]];
      }
    }
  }

  lemma RecordNumbered(run: Run, step: Step, outcome: Outcome, trace: seq<Call>)
    requires NumberedResults(run.results) && step.index == |run.results|
    requires run.unavailable == NotOk(run.results)
    ensures NumberedResults(Record(run, step, outcome, trace).results)
    ensures Record(run, step, outcome, trace).unavailable == NotOk(Record(run, step, outcome, trace).results)
  {
  }

  // ----- whole steps -----

  lemma OutcomesExtend(before: seq<StepResult>, after: seq<StepResult>, outcomes: seq<Outcome>)
    requires |after| == |before| + |outcomes| && after[..|before|] == before
    requires forall j | 0 <= j < |outcomes| :: after[|before| + j].outcome == outcomes[j]
    ensures Outcomes(after) == Outcomes(before) + outcomes
  {
    forall i | 0 <= i < |before|
      ensures after[i] == before[i]
    {
      assert after[..|before|][i] == before[i];
    }
  }

  lemma ExpandedShape(step: Step, args: Args, items: seq<SelectedItem>, e: Expansion, n: nat)
    requires WellExpanded(e, n) && step.index == n && items != []
    requires Expandable(args, items, e.images)
    ensures var w := Width(args, items);
            var e' := Expansion(e.steps + Instances(step, args, items, e, w),
                                e.images[n := Interval(|e.steps|, w)]);
            WellExpanded(e', n + 1) && |e'.steps| == |e.steps| + w
  {
    var w := Width(args, items);
    forall x {
      IntervalMembers(|e.steps|, w, x);
    }
    hide RemapDeps, InstanceArgs, EachKeys;
    var added := Instances(step, args, items, e, w);
    forall i | 0 <= i < w
      ensures added[i].index == |e.steps| + i
    {
      InstanceIndex(step, args, items, e, i);
    }
  }

  lemma NewGroupAgrees(e: Expansion, e': Expansion, results: seq<StepResult>, after: seq<StepResult>,
                       groups: seq<seq<Outcome>>, outcomes: seq<Outcome>)
    requires Agree(e, results, groups) && |results| == |e.steps|
    requires |after| == |results| + |outcomes| == |e'.steps| && after[..|results|] == results
    requires NumberedResults(after)
    requires WellExpanded(e', |groups| + 1)
    requires e'.images == e.images[|groups| := Interval(|e.steps|, |outcomes|)]
    requires forall j | 0 <= j < |outcomes| :: after[|results| + j].outcome == outcomes[j]
    ensures Agree(e', after, groups + [outcomes])
  {
    AgreeExtends(e, results, after, groups);
    forall k | 0 <= k < |groups| + 1
      ensures GroupAgrees(e', after, groups + [outcomes], k)
    {
      if k < |groups| {
        assert GroupAgrees(e, after, groups, k);
        assert e'.images[k] == e.images[k];
      }
    }
  }

  lemma {:induction false} Unrolled(env: Env, steps: seq<Step>, items: seq<SelectedItem>, registry: Registry,
                                    trace: seq<Call>)
    requires Numbered(steps) && Backward(steps)
    requires items != [] && PlainItems(items)
    requires Expand(steps, items, registry).Some?
    ensures var e := Expand(steps, items, registry).value;
            var direct := RunDirect(env, steps, items, registry, trace);
            && |direct.groups| == |steps|
            && Simulates(e, RunPlan(env, e.steps, trace), direct)
  {
    hide RunInstances, Instances, Agree, NotOk, InjectSelection, RunStep, StepSources, WellExpanded, Width,
         Expandable, Interval;
    if steps == [] {
      EmptyAgrees();
    } else {
      var init := steps[..|steps| - 1];
      var step := steps[|init|];
      Unrolled(env, init, items, registry, trace);
      var e := Expand(init, items, registry).value;
      var run := RunPlan(env, e.steps, trace);
      var direct := RunDirect(env, init, items, registry, trace);
      var args := InjectSelection(step, registry);
      InjectedSources(step, registry);
      LastEdges(steps, step, args);
      var w := Width(args, items);
      InstancesRun(env, step, args, items, e, run, direct, trace, w);
      AgreeIsWell(e, run.results, direct.groups);
      hide Simulates, RunPlan, InstancesDone;
      ExpandedShape(step, args, items, e, |init|);
      var e' := Expand(steps, items, registry).value;
      var after := RunPlan(env, e'.steps, trace);
      var (outcomes, t) := RunInstances(env, step, args, items, direct.groups, w, direct.trace);
      GroupSimulates(e, e', run, after, direct, outcomes, t);
    }
  }

  lemma GroupSimulates(e: Expansion, e': Expansion, run: Run, after: Run, direct: GroupRun, outcomes: seq<Outcome>,
                       t: seq<Call>)
    requires Simulates(e, run, direct) && InstancesDone(run, after, outcomes, t)
    requires WellExpanded(e', |direct.groups| + 1) && |e'.steps| == |e.steps| + |outcomes|
    requires e'.images == e.images[|direct.groups| := Interval(|e.steps|, |outcomes|)]
    ensures Simulates(e', after, GroupRun(direct.groups + [outcomes], t))
  {
    hide Agree, NotOk, WellExpanded, NumberedResults;
    NewGroupAgrees(e, e', run.results, after.results, direct.groups, outcomes);
    OutcomesExtend(run.results, after.results, outcomes);
    assert (direct.groups + [outcomes])[..|direct.groups|] == direct.groups;
  }

  lemma EmptyAgrees()
    ensures WellExpanded(Expansion([], map[]), 0)
    ensures Agree(Expansion([], map[]), [], [])
    ensures NotOk([]) == {}
  {
  }

  lemma AgreeIsWell(e: Expansion, results: seq<StepResult>, groups: seq<seq<Outcome>>)
    requires Agree(e, results, groups)
    ensures WellExpanded(e, |groups|)
  {
  }

  lemma LastEdges(steps: seq<Step>, step: Step, args: Args)
    requires steps != [] && Backward(steps) && step == steps[|steps| - 1]
    requires StepSources(args) <= StepSources(step.args)
    ensures forall d | d in step.dependsOn :: 0 <= d < |steps| - 1
    ensures forall s | s in StepSources(args) :: 0 <= s < |steps| - 1
    ensures Backward(steps[..|steps| - 1])
  {
    forall e | e in step.dependsOn || e in StepSources(args)
      ensures 0 <= e < |steps| - 1
    {
      assert e in Edges(step);
    }
  }

  /** Unrolling preserves meaning: executing the unrolled plan makes exactly the calls of the
      direct run, in the same order, and its results are the flattened results of that run. */
  lemma SelectionUnrolling(env: Env, steps: seq<Step>, items: seq<SelectedItem>, registry: Registry,
                           trace: seq<Call>)
    requires Numbered(steps) && Backward(steps)
    requires items != [] && PlainItems(items)
    requires Expand(steps, items, registry).Some?
    ensures var run := RunPlan(env, Expand(steps, items, registry).value.steps, trace);
            var direct := RunDirect(env, steps, items, registry, trace);
            && run.trace == direct.trace
            && |direct.groups| == |steps|
            && Outcomes(run.results) == Flatten(direct.groups)
            && NumberedResults(run.results)
  {
    hide RunPlan, RunDirect, Agree;
    Unrolled(env, steps, items, registry, trace);
  }

  // ----- the unrolled plan -----

  /** Steps are sent to consecutive intervals that cover the unrolled plan. */
  ghost predicate Tiled(images: map<int, seq<int>>, n: nat, total: nat) {
    && (forall k :: k in images <==> 0 <= k < n)
    && (forall k :: 0 <= k < n ==> images[k] != [] && images[k] == Interval(images[k][0], |images[k]|))
    && (n == 0 ==> total == 0)
    && (n > 0 ==> images[0][0] == 0 && images[n - 1][0] + |images[n - 1]| == total)
    && (forall k :: 0 < k < n ==> images[k][0] == images[k - 1][0] + |images[k - 1]|)
  }

  /** The instances of a step keep its skill and its approval flag. */
  predicate SameSkill(a: Step, b: Step) {
    a.skill == b.skill && a.tier == b.tier && a.requiresApproval == b.requiresApproval
  }

  ghost predicate KeepsSkill(e: Expansion, step: Step, k: int) {
    k in e.images &&
    forall j :: 0 <= j < |e.images[k]| ==>
      0 <= e.images[k][j] < |e.steps| && SameSkill(e.steps[e.images[k][j]], step)
  }

  predicate NoSelection(args: Args) {
    forall k :: k in args ==> !IsSelectionRef(args[k])
  }

  ghost predicate FreshInstance(inst: Step, step: Step, base: nat) {
    && SameSkill(inst, step)
    && NoSelection(inst.args)
    && forall e :: e in Edges(inst) ==> 0 <= e < base
  }

  lemma InstanceIsFresh(steps: seq<Step>, items: seq<SelectedItem>, registry: Registry, step: Step, i: nat)
    requires Numbered(steps + [step]) && Backward(steps + [step])
    requires items != [] && PlainItems(items)
    requires Expand(steps, items, registry).Some?
    requires var e := Expand(steps, items, registry).value;
             var args := InjectSelection(step, registry);
             Expandable(args, items, e.images) && i < Width(args, items)
    ensures var e := Expand(steps, items, registry).value;
            var args := InjectSelection(step, registry);
            FreshInstance(Instance(step, args, items, e, i), step, |e.steps|)
  {
    hide RunDirect, RunPlan, InjectSelection, StepSources, InstanceArgs, ChosenArgs, Bind, Expand, NotOk, GroupAgrees;
    var plan := steps + [step];
    assert plan[..|steps|] == steps;
    InjectedSources(step, registry);
    var e := Expand(steps, items, registry).value;
    var args := InjectSelection(step, registry);
    LastEdges(plan, step, args);
    var env: Env := (t: seq<Call>, c: Call) => None;
    Unrolled(env, steps, items, registry, []);
    var direct := RunDirect(env, steps, items, registry, []);
    var results := RunPlan(env, e.steps, []).results;
    InstanceArguments(args, items, Forced(args, i), e, results, direct.groups);
    var inst := Instance(step, args, items, e, i);
    forall x | x in Edges(inst)
      ensures 0 <= x < |e.steps|
    {
      if x in StepSources(inst.args) {
        var s :| s in StepSources(args) && e.images[s][0] == x;
        assert x in e.images[s];
      } else {
        RemappedDeps(step.dependsOn, e.images, x);
      }
    }
  }

  /** The unrolled plan is numbered 0, 1, ..., its steps are consecutive runs of instances that
      keep skill and approval, every edge points back and no selection reference is left. */
  lemma {:induction false} UnrolledPlan(steps: seq<Step>, items: seq<SelectedItem>, registry: Registry)
    requires Numbered(steps) && Backward(steps)
    requires items != [] && PlainItems(items)
    requires Expand(steps, items, registry).Some?
    ensures var e := Expand(steps, items, registry).value;
            && Numbered(e.steps) && Backward(e.steps)
            && Tiled(e.images, |steps|, |e.steps|)
            && (forall p :: 0 <= p < |e.steps| ==> NoSelection(e.steps[p].args))
            && forall k :: 0 <= k < |steps| ==> KeepsSkill(e, steps[k], k)
  {
    hide RunDirect, RunPlan, InjectSelection, StepSources, InstanceArgs, Expandable, Width, Edges, NoSelection,
         SameSkill;
    hide KeepsSkill, FreshInstance;
    if steps != [] {
      var init := steps[..|steps| - 1];
      var step := steps[|init|];
      assert init + [step] == steps;
      var args := InjectSelection(step, registry);
      InjectedSources(step, registry);
      LastEdges(steps, step, args);
      UnrolledPlan(init, items, registry);
      var e := Expand(init, items, registry).value;
      var w := Width(args, items);
      WidthPositive(args, items);
      var added := Instances(step, args, items, e, w);
      forall i | 0 <= i < w
        ensures FreshInstance(added[i], step, |e.steps|) && added[i].index == |e.steps| + i
      {
        InstanceIsFresh(init, items, registry, step, i);
        InstanceIndex(step, args, items, e, i);
      }
      ExtendPlan(e, added, init, step);
    }
  }

  lemma WidthPositive(args: Args, items: seq<SelectedItem>)
    requires items != []
    ensures Width(args, items) > 0
  {
  }

  lemma FreshSkill(inst: Step, step: Step, base: nat)
    requires FreshInstance(inst, step, base)
    ensures SameSkill(inst, step)
  {
  }

  lemma ExtendTiled(images: map<int, seq<int>>, n: nat, total: nat, w: nat)
    requires Tiled(images, n, total) && w > 0
    ensures Tiled(images[n := Interval(total, w)], n + 1, total + w)
  {
  }

  lemma ExtendEdges(steps: seq<Step>, added: seq<Step>, step: Step)
    requires Numbered(steps) && Backward(steps)
    requires forall p :: 0 <= p < |steps| ==> NoSelection(steps[p].args)
    requires forall i | 0 <= i < |added| ::
               FreshInstance(added[i], step, |steps|) && added[i].index == |steps| + i
    ensures Numbered(steps + added) && Backward(steps + added)
    ensures forall p :: 0 <= p < |steps + added| ==> NoSelection((steps + added)[p].args)
  {
    hide Edges, NoSelection, SameSkill;
  }

  lemma ExtendPlan(e: Expansion, added: seq<Step>, steps: seq<Step>, step: Step)
    requires Numbered(e.steps) && Backward(e.steps) && Tiled(e.images, |steps|, |e.steps|)
    requires forall p :: 0 <= p < |e.steps| ==> NoSelection(e.steps[p].args)
    requires forall k :: 0 <= k < |steps| ==> KeepsSkill(e, steps[k], k)
    requires added != []
    requires forall i | 0 <= i < |added| ::
               FreshInstance(added[i], step, |e.steps|) && added[i].index == |e.steps| + i
    ensures var e' := Expansion(e.steps + added, e.images[|steps| := Interval(|e.steps|, |added|)]);
            var plan := steps + [step];
            && Numbered(e'.steps) && Backward(e'.steps)
            && Tiled(e'.images, |plan|, |e'.steps|)
            && (forall p :: 0 <= p < |e'.steps| ==> NoSelection(e'.steps[p].args))
            && forall k :: 0 <= k < |plan| ==> KeepsSkill(e', plan[k], k)
  {
    hide Edges, NoSelection, SameSkill, Tiled, FreshInstance, Numbered, Backward;
    ExtendTiled(e.images, |steps|, |e.steps|, |added|);
    ExtendEdges(e.steps, added, step);
    var e' := Expansion(e.steps + added, e.images[|steps| := Interval(|e.steps|, |added|)]);
    var plan := steps + [step];
    forall k | 0 <= k < |plan|
      ensures KeepsSkill(e', plan[k], k)
    {
      if k == |steps| {
        forall j | 0 <= j < |added|
          ensures e'.images[k][j] == |e.steps| + j && SameSkill(e'.steps[|e.steps| + j], step)
        {
          FreshSkill(added[j], step, |e.steps|);
        }
      } else {
        assert KeepsSkill(e, steps[k], k);
      }
    }
  }

  /** Unrolling succeeds exactly when every selection reference resolves for every item. */
  lemma {:induction false} UnrollingSucceeds(steps: seq<Step>, items: seq<SelectedItem>, registry: Registry)
    requires Numbered(steps) && Backward(steps)
    requires items != [] && PlainItems(items)
    ensures Expand(steps, items, registry).Some? <==>
            forall k, i :: 0 <= k < |steps| && 0 <= i < Width(InjectSelection(steps[k], registry), items) ==>
              ChosenArgs(InjectSelection(steps[k], registry), items,
                         Forced(InjectSelection(steps[k], registry), i)).Some?
  {
    hide RunDirect, RunPlan, InjectSelection, StepSources, InstanceArgs, ChosenArgs, Width, Forced, Agree, Bind;
    if steps != [] {
      var init := steps[..|steps| - 1];
      var step := steps[|init|];
      var args := InjectSelection(step, registry);
      InjectedSources(step, registry);
      LastEdges(steps, step, args);
      UnrollingSucceeds(init, items, registry);
      if Expand(init, items, registry).Some? {
        var e := Expand(init, items, registry).value;
        var env: Env := (t: seq<Call>, c: Call) => None;
        Unrolled(env, init, items, registry, []);
        forall i | 0 <= i < Width(args, items) {
          InstanceArguments(args, items, Forced(args, i), e, RunPlan(env, e.steps, []).results,
                            RunDirect(env, init, items, registry, []).groups);
        }
      }
    }
  }
}
