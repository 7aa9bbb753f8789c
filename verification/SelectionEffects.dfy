/** What a selection turns a plan into, argument by argument. */
module SelectionEffects {
  import opened Text
  import opened Json
  import opened References
  import opened Executor
  import opened Isolation
  import opened Plans
  import opened Selection
  import opened Unrolling

  // ----- which item, and what of it -----

  /** The reference asks for a part of the item; without a path it asks for its id. */
  predicate HasPath(ref: Value)
    requires ref.Obj?
  {
    "path" in ref.fields && Truthy(ref.fields["path"])
  }

  /** `r` is what the reference asks for of selected item `n`. */
  predicate Picks(items: seq<SelectedItem>, n: int, ref: Value, r: Value)
    requires ref.Obj?
  {
    && 0 <= n < |items|
    && if HasPath(ref) then PathValue(Obj(items[n]), PyStr(ref.fields["path"])) == Some(r)
       else "id" in items[n] && items[n]["id"] == r && r != Null
  }

  /** The reference stands for every item in turn. */
  predicate ForEach(v: Value) {
    v.Obj? && "each" in v.fields && Truthy(v.fields["each"])
  }

  /** `r` is what a selection reference becomes in instance `i`: item `i` for an `each` reference,
      else the item named, the first when none is. */
  predicate Chosen(items: seq<SelectedItem>, i: nat, v: Value, r: Value)
    requires v.Obj?
  {
    if ForEach(v) then Picks(items, i, v, r)
    else if "item" in v.fields then v.fields["item"].Num? && Picks(items, v.fields["item"].n, v, r)
    else Picks(items, 0, v, r)
  }

  /** The skill acts on the selection and the plan does not say on what. */
  predicate Unbound(step: Step, registry: Registry) {
    && step.skill in registry && registry[step.skill].requiresSelection
    && !("item_id" in step.args &&
         (IsReference(step.args["item_id"]) ||
          (step.args["item_id"].Str? && Strip(step.args["item_id"].s) != "")))
  }

  predicate FannedOver(step: Step, registry: Registry) {
    Unbound(step, registry) || exists k | k in step.args :: IsSelectionRef(step.args[k]) && ForEach(step.args[k])
  }

  /** `r` is argument `key` of instance `i` of the step: an unbound `item_id` is the id of item
      `i`, a selection reference what it chooses, a reference to an earlier step one to its
      first instance, and anything else itself. */
  predicate ArgumentIs(step: Step, registry: Registry, items: seq<SelectedItem>, images: map<int, seq<int>>,
                       before: nat, key: string, i: nat, r: Value) {
    if Unbound(step, registry) && key == "item_id" then
      i < |items| && "id" in items[i] && items[i]["id"] == r && r != Null
    else
      key in step.args &&
      var v := step.args[key];
      if IsSelectionRef(v) then Chosen(items, i, v, r)
      else if IsStepRef(v) && 0 <= RefSource(v).n < before then
        && RefSource(v).n in images && images[RefSource(v).n] != []
        && r == Obj((v.fields - {"from_step"})["from" := Num(images[RefSource(v).n][0])])
      else r == v
  }

  /** The step in position `p` is instance `i` of step `k` of the plan. */
  ghost predicate InstanceOf(steps: seq<Step>, items: seq<SelectedItem>, registry: Registry, e: Expansion,
                             k: nat, i: nat, p: int)
    requires k < |steps|
  {
    && 0 <= p < |e.steps|
    && var step, inst := steps[k], e.steps[p];
       && inst.index == p && inst.skill == step.skill && inst.tier == step.tier
       && inst.requiresApproval == step.requiresApproval
       && inst.args.Keys == step.args.Keys + (if Unbound(step, registry) then {"item_id"} else {})
       && (forall key :: key in inst.args ==> ArgumentIs(step, registry, items, e.images, k, key, i, inst.args[key]))
       && forall x :: x in inst.dependsOn <==>
            exists d :: d in step.dependsOn && if 0 <= d < k then d in e.images && x in e.images[d] else x == d
  }

  // ----- the unrolled plan -----

  lemma PicksIs(items: seq<SelectedItem>, ref: Value, forced: Option<nat>, n: int)
    requires IsSelectionRef(ref)
    requires match forced
             case Some(i) => n == i
             case None => if "item" in ref.fields then ref.fields["item"] == Num(n) else n == 0
    ensures forall r :: SelectionValue(ref, items, forced) == Some(r) <==> Picks(items, n, ref, r)
  {
  }

  lemma ChosenIs(items: seq<SelectedItem>, key: string, v: Value, each: set<string>, forced: Option<nat>, i: nat)
    requires IsSelectionRef(v) && (key in each <==> ForEach(v))
    requires key in each ==> forced == Some(i)
    ensures forall r :: SelectionValue(v, items, ForcedItem(each, key, forced)) == Some(r) <==> Chosen(items, i, v, r)
  {
    hide PathValue;
    if ForEach(v) {
      PicksIs(items, v, Some(i), i);
    } else if "item" !in v.fields {
      PicksIs(items, v, None, 0);
    } else if v.fields["item"].Num? {
      PicksIs(items, v, None, v.fields["item"].n);
    }
  }

  lemma InjectedIs(step: Step, registry: Registry)
    ensures var args := InjectSelection(step, registry);
            && args.Keys == step.args.Keys + (if Unbound(step, registry) then {"item_id"} else {})
            && (forall key :: key in step.args && !(Unbound(step, registry) && key == "item_id") ==>
                  args[key] == step.args[key])
            && (Unbound(step, registry) ==>
                  args["item_id"] == Obj(map["from" := Str("selection"), "each" := Bool(true)]))
            && (EachKeys(args) != {} <==> FannedOver(step, registry))
  {
    hide Strip;
    var args := InjectSelection(step, registry);
    assert "from"[0] != "each"[0];
    if Unbound(step, registry) {
      assert "item_id" in EachKeys(args);
    }
    if k :| k in EachKeys(args) {
      assert !Unbound(step, registry) ==> IsSelectionRef(step.args[k]) && ForEach(step.args[k]);
    }
    if k :| k in step.args && IsSelectionRef(step.args[k]) && ForEach(step.args[k]) {
      assert !Unbound(step, registry) ==> k in EachKeys(args);
    }
  }

  lemma CellIs(step: Step, registry: Registry, items: seq<SelectedItem>, images: map<int, seq<int>>, before: nat,
               key: string, i: nat, each: set<string>, forced: Option<nat>)
    requires forall d :: d in images <==> 0 <= d < before
    requires key in InjectSelection(step, registry) && each == EachKeys(InjectSelection(step, registry))
    requires each != {} ==> forced == Some(i)
    ensures var v := InjectSelection(step, registry)[key];
            forall r :: InstanceCell(key, v, items, each, forced, images) == Some(r) <==>
                        ArgumentIs(step, registry, items, images, before, key, i, r)
  {
    InjectedIs(step, registry);
    var v := InjectSelection(step, registry)[key];
    hide InjectSelection, PathValue, SelectionValue, Strip;
    if IsSelectionRef(v) {
      assert key in each <==> ForEach(v);
      ChosenIs(items, key, v, each, forced, i);
      if Unbound(step, registry) && key == "item_id" {
        UnboundPath();
      }
    }
  }

  lemma UnboundPath()
    ensures var v := Obj(map["from" := Str("selection"), "each" := Bool(true)]);
            IsSelectionRef(v) && ForEach(v) && !HasPath(v)
  {
    assert "from"[0] != "path"[0] && "each"[0] != "path"[0] && "from"[0] != "each"[0];
  }

  lemma AllSomeIs(cells: map<string, Option<Value>>, r: Args)
    ensures AllSome(cells) == Some(r) <==> r.Keys == cells.Keys && forall k :: k in cells ==> cells[k] == Some(r[k])
  {
    if r.Keys == cells.Keys && forall k :: k in cells ==> cells[k] == Some(r[k]) {
      assert AllSome(cells).value == r;
    }
  }

  lemma InstanceArgsAre(step: Step, registry: Registry, items: seq<SelectedItem>, images: map<int, seq<int>>,
                        before: nat, i: nat, r: Args)
    requires forall d :: d in images <==> 0 <= d < before
    ensures var args := InjectSelection(step, registry);
            InstanceArgs(args, items, Forced(args, i), images) == Some(r) <==>
            && r.Keys == args.Keys
            && forall key :: key in r ==> ArgumentIs(step, registry, items, images, before, key, i, r[key])
  {
    var args := InjectSelection(step, registry);
    var each, forced := EachKeys(args), Forced(args, i);
    var cells := map k | k in args :: InstanceCell(k, args[k], items, each, forced, images);
    forall key | key in args
      ensures forall v :: cells[key] == Some(v) <==> ArgumentIs(step, registry, items, images, before, key, i, v)
    {
      CellIs(step, registry, items, images, before, key, i, each, forced);
    }
    AllSomeIs(cells, r);
    hide InstanceCell, ArgumentIs, AllSome, InjectSelection, EachKeys;
  }

  lemma {:induction false} DepsAre(deps: seq<int>, images: map<int, seq<int>>, x: int)
    ensures x in RemapDeps(deps, images) <==> exists d :: d in deps && if d in images then x in images[d] else x == d
  {
    if deps != [] {
      DepsAre(deps[..|deps| - 1], images, x);
      assert deps == deps[..|deps| - 1] + [deps[|deps| - 1]];
    }
  }

  /** How many instances a step has. */
  function HowMany(step: Step, registry: Registry, items: seq<SelectedItem>): nat {
    if FannedOver(step, registry) then |items| else 1
  }

  lemma LastInstances(steps: seq<Step>, items: seq<SelectedItem>, registry: Registry, e: Expansion, f: Expansion,
                      i: nat)
    requires steps != [] && Numbered(steps)
    requires forall d :: d in e.images <==> 0 <= d < |steps| - 1
    requires ExpandStep(steps[|steps| - 1], items, registry, e) == Some(f)
    ensures var k := |steps| - 1;
            var n := HowMany(steps[k], registry, items);
            && f.steps[..|e.steps|] == e.steps && |f.steps| == |e.steps| + n
            && f.images == e.images[k := Interval(|e.steps|, n)]
            && (i < n ==> InstanceOf(steps, items, registry, f, k, i, |e.steps| + i))
  {
    var k := |steps| - 1;
    Widens(steps[k], items, registry, e, f);
    if i < HowMany(steps[k], registry, items) {
      LastInstance(steps, items, registry, e, f, i);
    }
    assert steps[k].index == k;
    hide *;
  }

  lemma Widens(step: Step, items: seq<SelectedItem>, registry: Registry, e: Expansion, f: Expansion)
    requires ExpandStep(step, items, registry, e) == Some(f)
    ensures var n := HowMany(step, registry, items);
            && f.steps[..|e.steps|] == e.steps && |f.steps| == |e.steps| + n
            && f.images == e.images[step.index := Interval(|e.steps|, n)]
  {
    InjectedIs(step, registry);
    hide InjectSelection, EachKeys, InstanceArgs, RemapDeps, Expandable, FannedOver;
  }

  lemma LastInstance(steps: seq<Step>, items: seq<SelectedItem>, registry: Registry, e: Expansion, f: Expansion, i: nat)
    requires steps != [] && Numbered(steps)
    requires forall d :: d in e.images <==> 0 <= d < |steps| - 1
    requires ExpandStep(steps[|steps| - 1], items, registry, e) == Some(f)
    requires i < HowMany(steps[|steps| - 1], registry, items)
    ensures InstanceOf(steps, items, registry, f, |steps| - 1, i, |e.steps| + i)
  {
    var k := |steps| - 1;
    var step := steps[k];
    var args := InjectSelection(step, registry);
    InjectedIs(step, registry);
    InstanceAt(step, items, registry, e, f, i);
    var inst := Instance(step, args, items, e, i);
    InstanceArgsAre(step, registry, items, e.images, k, i, inst.args);
    SameArguments(step, registry, items, e.images, f.images, k, i);
    forall x
      ensures x in inst.dependsOn <==>
              exists d :: d in step.dependsOn && if 0 <= d < k then d in f.images && x in f.images[d] else x == d
    {
      DepsAre(step.dependsOn, e.images, x);
    }
    hide InjectSelection, EachKeys, InstanceArgs, ArgumentIs, RemapDeps, Expandable, ExpandStep;
  }

  lemma InstanceAt(step: Step, items: seq<SelectedItem>, registry: Registry, e: Expansion, f: Expansion, i: nat)
    requires ExpandStep(step, items, registry, e) == Some(f) && i < Width(InjectSelection(step, registry), items)
    ensures Expandable(InjectSelection(step, registry), items, e.images)
    ensures |f.steps| > |e.steps| + i
    ensures f.steps[|e.steps| + i] == Instance(step, InjectSelection(step, registry), items, e, i)
    ensures f.images == e.images[step.index := Interval(|e.steps|, Width(InjectSelection(step, registry), items))]
  {
    hide InjectSelection, InstanceArgs, RemapDeps, Expandable;
  }

  /** Images from this step on make no difference to its arguments. */
  lemma SameArguments(step: Step, registry: Registry, items: seq<SelectedItem>, a: map<int, seq<int>>,
                      b: map<int, seq<int>>, before: nat, i: nat)
    requires forall d :: 0 <= d < before ==> d in a && d in b && a[d] == b[d]
    ensures forall key, r :: ArgumentIs(step, registry, items, a, before, key, i, r) <==>
                             ArgumentIs(step, registry, items, b, before, key, i, r)
  {
    hide Chosen, Unbound;
  }

  lemma SameInstance(steps: seq<Step>, longer: seq<Step>, items: seq<SelectedItem>, registry: Registry,
                     e: Expansion, f: Expansion, k: nat, i: nat, p: int)
    requires k < |steps| && steps <= longer && InstanceOf(steps, items, registry, e, k, i, p)
    requires e.steps <= f.steps
    requires forall d :: 0 <= d < |steps| ==> d in e.images && d in f.images && e.images[d] == f.images[d]
    ensures InstanceOf(longer, items, registry, f, k, i, p)
  {
    SameArguments(steps[k], registry, items, e.images, f.images, k, i);
    hide ArgumentIs, Unbound;
  }

  /** Every step before `n` has its instances. */
  ghost predicate Covers(images: map<int, seq<int>>, n: int) {
    forall d :: d in images <==> 0 <= d < n
  }

  lemma {:induction false} UnrolledDomain(steps: seq<Step>, items: seq<SelectedItem>, registry: Registry)
    requires Numbered(steps) && Expand(steps, items, registry).Some?
    ensures Covers(Expand(steps, items, registry).value.images, |steps|)
  {
    if steps != [] {
      hide ExpandStep;
      UnrolledDomain(steps[..|steps| - 1], items, registry);
      LastStep(steps, items, registry, 0);
    }
  }

  /** The last step of the plan is expanded after the others. */
  lemma LastStep(steps: seq<Step>, items: seq<SelectedItem>, registry: Registry, i: nat)
    requires steps != [] && Numbered(steps) && Expand(steps, items, registry).Some?
    requires Covers(Expand(steps[..|steps| - 1], items, registry).value.images, |steps| - 1)
    ensures var k := |steps| - 1;
            var e, f := Expand(steps[..k], items, registry).value, Expand(steps, items, registry).value;
            var n := HowMany(steps[k], registry, items);
            && f.steps[..|e.steps|] == e.steps && |f.steps| == |e.steps| + n
            && f.images == e.images[k := Interval(|e.steps|, n)]
            && (i < n ==> InstanceOf(steps, items, registry, f, k, i, |e.steps| + i))
  {
    hide InstanceOf, ExpandStep, HowMany;
    var e, f := Expand(steps[..|steps| - 1], items, registry).value, Expand(steps, items, registry).value;
    LastInstances(steps, items, registry, e, f, i);
  }

  lemma {:induction false} UnrolledAt(steps: seq<Step>, items: seq<SelectedItem>, registry: Registry, k: nat, i: nat)
    requires Numbered(steps) && Expand(steps, items, registry).Some? && k < |steps|
    ensures var e := Expand(steps, items, registry).value;
            && k in e.images && |e.images[k]| == HowMany(steps[k], registry, items)
            && (i < |e.images[k]| ==> InstanceOf(steps, items, registry, e, k, i, e.images[k][i]))
  {
    hide InstanceOf, Expand, ExpandStep, HowMany, Numbered;
    var init := steps[..|steps| - 1];
    Earlier(steps, items, registry);
    UnrolledDomain(init, items, registry);
    LastStep(steps, items, registry, i);
    if k < |init| {
      UnrolledAt(init, items, registry, k, i);
      var e, f := Expand(init, items, registry).value, Expand(steps, items, registry).value;
      if i < |e.images[k]| {
        SameInstance(init, steps, items, registry, e, f, k, i, e.images[k][i]);
      }
    }
  }

  lemma Earlier(steps: seq<Step>, items: seq<SelectedItem>, registry: Registry)
    requires steps != [] && Numbered(steps) && Expand(steps, items, registry).Some?
    ensures Numbered(steps[..|steps| - 1]) && Expand(steps[..|steps| - 1], items, registry).Some?
  {
  }

  /** The unrolled plan, step by step: step `k` becomes one instance, or one per selected item, in
      order, with the same skill, tier and approval, the arguments said above, and the
      dependencies led to all instances of the earlier steps. */
  lemma UnrolledIs(steps: seq<Step>, items: seq<SelectedItem>, registry: Registry)
    requires Numbered(steps) && Expand(steps, items, registry).Some?
    ensures var e := Expand(steps, items, registry).value;
            && Covers(e.images, |steps|)
            && forall k: nat :: k < |steps| ==>
                 && |e.images[k]| == HowMany(steps[k], registry, items)
                 && forall i: nat :: i < |e.images[k]| ==> InstanceOf(steps, items, registry, e, k, i, e.images[k][i])
  {
    UnrolledDomain(steps, items, registry);
    hide InstanceOf, Expand, HowMany, Numbered;
    var e := Expand(steps, items, registry).value;
    forall k: nat | k < |steps|
      ensures k in e.images && |e.images[k]| == HowMany(steps[k], registry, items)
      ensures forall i: nat :: i < |e.images[k]| ==> InstanceOf(steps, items, registry, e, k, i, e.images[k][i])
    {
      UnrolledAt(steps, items, registry, k, 0);
      forall i: nat | i < |e.images[k]|
        ensures InstanceOf(steps, items, registry, e, k, i, e.images[k][i])
      {
        UnrolledAt(steps, items, registry, k, i);
      }
    }
  }

  // ----- when it fails -----

  /** Instance `i` of the step has a selection reference that chooses nothing: its item is no number
      or out of range, or that item lacks the id or the path asked for. */
  ghost predicate ChoosesNothing(step: Step, registry: Registry, items: seq<SelectedItem>, i: nat)
    requires i < |items|
  {
    || (Unbound(step, registry) && !("id" in items[i] && items[i]["id"] != Null))
    || exists k :: k in step.args && !(Unbound(step, registry) && k == "item_id") && Empty(items, i, step.args[k])
  }

  ghost predicate Empty(items: seq<SelectedItem>, i: nat, v: Value) {
    IsSelectionRef(v) && forall r :: !Chosen(items, i, v, r)
  }

  lemma ChosenArgsFail(step: Step, registry: Registry, items: seq<SelectedItem>, i: nat)
    requires i < |items|
    ensures var args := InjectSelection(step, registry);
            ChosenArgs(args, items, Forced(args, i)).None? <==> ChoosesNothing(step, registry, items, i)
  {
    var args := InjectSelection(step, registry);
    var each, forced := EachKeys(args), Forced(args, i);
    var cells := map k | k in args :: ChosenCell(k, args[k], items, each, forced);
    InjectedIs(step, registry);
    UnboundPath();
    forall k | k in args && IsSelectionRef(args[k])
      ensures forall r :: cells[k] == Some(r) <==> Chosen(items, i, args[k], r)
    {
      ChosenIs(items, k, args[k], each, forced, i);
    }
    hide InjectSelection, SelectionValue, EachKeys;
    UnboundChooses(step, registry, items, i);
    hide Chosen, Unbound;
    if ChoosesNothing(step, registry, items, i) {
      if k :| k in step.args && !(Unbound(step, registry) && k == "item_id") && Empty(items, i, step.args[k]) {
        assert k in args && cells[k].None?;
      } else {
        assert cells["item_id"].None?;
      }
    }
    if k :| k in args && cells[k].None? {
      assert IsSelectionRef(args[k]);
      forall r
        ensures !Chosen(items, i, args[k], r)
      {
        assert cells[k] != Some(r);
      }
      assert Empty(items, i, args[k]);
    }
  }

  lemma UnboundChooses(step: Step, registry: Registry, items: seq<SelectedItem>, i: nat)
    requires i < |items|
    ensures var v := Obj(map["from" := Str("selection"), "each" := Bool(true)]);
            (exists r :: Chosen(items, i, v, r)) <==> "id" in items[i] && items[i]["id"] != Null
  {
    UnboundPath();
    var v := Obj(map["from" := Str("selection"), "each" := Bool(true)]);
    if "id" in items[i] && items[i]["id"] != Null {
      assert Chosen(items, i, v, items[i]["id"]);
    }
  }

  /** With some item selected, unrolling fails exactly when an instance of some step chooses
      nothing. */
  lemma FailsExactly(steps: seq<Step>, items: seq<SelectedItem>, registry: Registry)
    requires Numbered(steps) && Backward(steps) && items != [] && PlainItems(items)
    ensures Expand(steps, items, registry).None? <==>
            exists k: nat, i: nat :: k < |steps| && i < |items| && i < HowMany(steps[k], registry, items) &&
              ChoosesNothing(steps[k], registry, items, i)
  {
    UnrollingSucceeds(steps, items, registry);
    hide ChoosesNothing, InjectSelection, ChosenArgs, Expand;
    forall k: nat | k < |steps|
      ensures Width(InjectSelection(steps[k], registry), items) == HowMany(steps[k], registry, items)
    {
      InjectedIs(steps[k], registry);
    }
    forall k: nat, i: nat | k < |steps| && i < |items|
      ensures ChosenArgs(InjectSelection(steps[k], registry), items,
                         Forced(InjectSelection(steps[k], registry), i)).None? <==>
              ChoosesNothing(steps[k], registry, items, i)
    {
      ChosenArgsFail(steps[k], registry, items, i);
    }
  }
}
