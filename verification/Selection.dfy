/** Static resolution of selection references: `each` steps are unrolled into one step per
    selected item and every dependency and reference is renumbered. */
module Selection {
  import opened Text
  import opened Json
  import opened References
  import opened Executor
  import opened Isolation
  import opened Plans

  /** A selected item, as its named fields. */
  type SelectedItem = map<string, Value>

  // ----- one reference -----

  /** A self-built skill whose `item_id` is unbound acts on every selected file. */
  function InjectSelection(step: Step, registry: Registry): Args {
    if step.skill in registry && registry[step.skill].requiresSelection then
      var current := if "item_id" in step.args then step.args["item_id"] else Null;
      if !IsReference(current) && !(current.Str? && Strip(current.s) != "")
      then step.args["item_id" := Obj(map["from" := Str("selection"), "each" := Bool(true)])]
      else step.args
    else step.args
  }

  predicate IsEach(v: Value) {
    IsSelectionRef(v) && "each" in v.fields && Truthy(v.fields["each"])
  }

  function EachKeys(args: Args): set<string> {
    set k | k in args && IsEach(args[k])
  }

  /** The value a selection reference stands for; `forced` is the item of an `each` step. */
  function SelectionValue(ref: Value, items: seq<SelectedItem>, forced: Option<nat>): Option<Value>
    requires ref.Obj?
  {
    var index := match forced
                 case Some(i) => Num(i)
                 case None => if "item" in ref.fields then ref.fields["item"] else Num(0);
    if !index.Num? || !(0 <= index.n < |items|) then None
    else
      var item := items[index.n];
      if "path" !in ref.fields || !Truthy(ref.fields["path"]) then
        if "id" in item && item["id"] != Null then Some(item["id"]) else None
      else PathValue(Obj(item), PyStr(ref.fields["path"]))
  }

  /** Concatenated images of the dependencies. */
  function RemapDeps(deps: seq<int>, images: map<int, seq<int>>): seq<int> {
    if deps == [] then []
    else
      var d := deps[|deps| - 1];
      RemapDeps(deps[..|deps| - 1], images) + if d in images then images[d] else [d]
  }

  /** A step reference rewritten to the first image of its source. */
  function RemapRef(v: Value, images: map<int, seq<int>>): Option<Value> {
    if !IsStepRef(v) || RefSource(v).n !in images then Some(v)
    else if images[RefSource(v).n] == [] then None
    else Some(Obj((v.fields - {"from_step"})["from" := Num(images[RefSource(v).n][0])]))
  }

  // ----- one step -----

  function ForcedItem(each: set<string>, key: string, forced: Option<nat>): Option<nat> {
    if key in each then forced else None
  }

  function InstanceCell(key: string, v: Value, items: seq<SelectedItem>, each: set<string>,
                        forced: Option<nat>, images: map<int, seq<int>>): Option<Value> {
    if IsSelectionRef(v) then SelectionValue(v, items, ForcedItem(each, key, forced))
    else RemapRef(v, images)
  }

  function InstanceArgs(args: Args, items: seq<SelectedItem>, forced: Option<nat>,
                        images: map<int, seq<int>>): Option<Args> {
    AllSome(map k | k in args :: InstanceCell(k, args[k], items, EachKeys(args), forced, images))
  }

  /** How many steps a step becomes. */
  function Width(args: Args, items: seq<SelectedItem>): nat {
    if EachKeys(args) == {} then 1 else |items|
  }

  function Forced(args: Args, i: nat): Option<nat> {
    if EachKeys(args) == {} then None else Some(i)
  }

  datatype Expansion = Expansion(steps: seq<Step>, images: map<int, seq<int>>)

  predicate Expandable(args: Args, items: seq<SelectedItem>, images: map<int, seq<int>>) {
    forall i | 0 <= i < Width(args, items) :: InstanceArgs(args, items, Forced(args, i), images).Some?
  }

  function Instance(step: Step, args: Args, items: seq<SelectedItem>, e: Expansion, i: nat): Step
    requires Expandable(args, items, e.images) && i < Width(args, items)
  {
    step.(index := |e.steps| + i,
          args := InstanceArgs(args, items, Forced(args, i), e.images).value,
          dependsOn := RemapDeps(step.dependsOn, e.images))
  }

  function Interval(from: int, n: nat): seq<int> {
    seq(n, i => from + i)
  }

  function Instances(step: Step, args: Args, items: seq<SelectedItem>, e: Expansion, n: nat): seq<Step>
    requires Expandable(args, items, e.images) && n <= Width(args, items)
  {
    seq(n, i requires 0 <= i < n => Instance(step, args, items, e, i))
  }

  function ExpandStep(step: Step, items: seq<SelectedItem>, registry: Registry, e: Expansion): Option<Expansion> {
    var args := InjectSelection(step, registry);
    if !Expandable(args, items, e.images) then None
    else Some(Expansion(e.steps + Instances(step, args, items, e, Width(args, items)),
                        e.images[step.index := Interval(|e.steps|, Width(args, items))]))
  }

  // ----- a plan -----

  /** The unrolled plan and where each step went; `None` when a reference cannot be resolved. */
  function Expand(steps: seq<Step>, items: seq<SelectedItem>, registry: Registry): Option<Expansion> {
    if steps == [] then Some(Expansion([], map[]))
    else match Expand(steps[..|steps| - 1], items, registry)
         case None => None
         case Some(e) => ExpandStep(steps[|steps| - 1], items, registry, e)
  }

  lemma {:induction false} ExpandFails(steps: seq<Step>, items: seq<SelectedItem>, registry: Registry, i: nat)
    requires i <= |steps| && Expand(steps[..i], items, registry).None?
    ensures Expand(steps, items, registry).None?
  {
    if i == |steps| {
      assert steps[..i] == steps;
    } else {
      var shorter := steps[..|steps| - 1];
      assert shorter[..i] == steps[..i];
      ExpandFails(shorter, items, registry, i);
    }
  }

  method ResolveInstance(args: Args, items: seq<SelectedItem>, forced: Option<nat>,
                         images: map<int, seq<int>>) returns (r: Option<Args>)
    ensures r == InstanceArgs(args, items, forced, images)
  {
    ghost var cells := map k | k in args :: InstanceCell(k, args[k], items, EachKeys(args), forced, images);
    var each := EachKeys(args);
    var resolved: Args := map[];
    var todo := args.Keys;
    while todo != {}
      invariant todo <= args.Keys && resolved.Keys == args.Keys - todo
      invariant forall k | k in resolved :: cells[k] == Some(resolved[k])
      decreases todo
    {
      var key :| key in todo;
      var cell := InstanceCell(key, args[key], items, each, forced, images);
      if cell.None? {
        assert cells[key].None?;
        return None;
      }
      resolved := resolved[key := cell.value];
      todo := todo - {key};
    }
    FilledRow(cells, resolved);
    r := Some(resolved);
  }

  /** `apply_selection`. */
  method ApplySelection(steps: seq<Step>, items: seq<SelectedItem>, registry: Registry)
    returns (r: Option<seq<Step>>)
    ensures r.Some? <==> Expand(steps, items, registry).Some?
    ensures r.Some? ==> r.value == Expand(steps, items, registry).value.steps
  {
    hide InstanceArgs, InjectSelection, Width, Forced, RemapDeps;
    var expanded: seq<Step> := [];
    var images: map<int, seq<int>> := map[];
    for i := 0 to |steps|
      invariant Expand(steps[..i], items, registry) == Some(Expansion(expanded, images))
    {
      assert steps[..i + 1][..i] == steps[..i];
      var step := steps[i];
      ghost var e := Expansion(expanded, images);
      var args := InjectSelection(step, registry);
      var newDeps := RemapDeps(step.dependsOn, images);
      var fanned: seq<Step> := [];
      var n := Width(args, items);
      for j := 0 to n
        invariant |fanned| == j
        invariant forall k :: 0 <= k < j ==> InstanceArgs(args, items, Forced(args, k), images).Some?
        invariant forall k :: 0 <= k < j ==> (
            fanned[k] == step.(index := |expanded| + k,
                               args := InstanceArgs(args, items, Forced(args, k), images).value,
                               dependsOn := newDeps))
      {
        var resolved := ResolveInstance(args, items, Forced(args, j), images);
        if resolved.None? {
          assert !Expandable(args, items, images);
          ExpandFails(steps, items, registry, i + 1);
          return None;
        }
        fanned := fanned + [step.(index := |expanded| + j, args := resolved.value, dependsOn := newDeps)];
      }
      assert fanned == Instances(step, args, items, e, n);
      images := images[step.index := Interval(|expanded|, n)];
      expanded := expanded + fanned;
    }
    assert steps[..|steps|] == steps;
    r := Some(expanded);
  }
}
