/** Semantic validation of a planned workflow and the planner's repair loop. */
module Planner {
  import opened Text
  import opened Json
  import opened References
  import opened Executor
  import opened Isolation
  import opened Plans

  // ----- corrupted text -----

  predicate IsHex(c: char) {
    IsDigit(c) || 'a' <= c <= 'f' || 'A' <= c <= 'F'
  }

  /** A byte-fallback token `<0xHH>` at position `i`. */
  predicate ByteTokenAt(s: string, i: int) {
    0 <= i && i + 6 <= |s| && s[i] == '<' && s[i + 1] == '0' && s[i + 2] == 'x'
    && IsHex(s[i + 3]) && IsHex(s[i + 4]) && s[i + 5] == '>'
  }

  predicate HasByteTokens(v: Value) {
    v.Str? && exists i :: 0 <= i < |v.s| && ByteTokenAt(v.s, i)
  }

  // ----- references against declared shapes -----

  function PathHead(path: string): string {
    var parts := Parts(path);
    if parts == [] then "" else parts[0]
  }

  predicate IsIndex(s: string) {
    s != "" && forall i :: 0 <= i < |s| ==> IsDigit(s[i])
  }

  /** The first path segment cannot belong to an output of this shape. */
  predicate HeadMismatch(shape: OutputShape, head: string) {
    match shape
    case Opaque => false
    case PagedItems => head != "items"
    case ItemList => !IsIndex(head) && head != "*"
    case _ => head == "items" || head == "*" || IsIndex(head)
  }

  predicate MisusedDestination(shape: OutputShape, argName: string) {
    argName == "parent_id" && shape.MutatedItem?
  }

  datatype Problem =
    | UnknownSkill(step: int)
    | BadDependency(step: int, dependency: int)
    | CorruptText(step: int, arg: string)
    | NotEarlier(step: int, arg: string, from: int)
    | WrongPath(step: int, arg: string, from: int)
    | MutatedDestination(step: int, arg: string, from: int)
    | MissingArgument(step: int, arg: string)

  /** `_reference_problems` */
  function ReferenceProblems(index: int, arg: string, path: string, source: Option<Skill>, from: int): seq<Problem> {
    if source.None? || source.value.output.Opaque? then []
    else
      (if HeadMismatch(source.value.output, PathHead(path)) then [WrongPath(index, arg, from)] else []) +
      (if MisusedDestination(source.value.output, arg) then [MutatedDestination(index, arg, from)] else [])
  }

  function Lookup(registry: Registry, skill: string): Option<Skill> {
    if skill in registry then Some(registry[skill]) else None
  }

  // ----- what a valid plan is -----

  /** A reference names an earlier step whose declared output its path can enter. */
  predicate ReferenceOk(all: seq<PlannedStep>, i: int, arg: string, v: Value, registry: Registry)
    requires IsStepRef(v) && 0 <= i <= |all|
  {
    var from := RefSource(v).n;
    && 0 <= from < i
    && var source := Lookup(registry, all[from].skill);
       source.None? || source.value.output.Opaque? ||
       (!HeadMismatch(source.value.output, PathHead(RefPath(v))) && !MisusedDestination(source.value.output, arg))
  }

  predicate ArgumentOk(all: seq<PlannedStep>, i: int, arg: string, v: Value, registry: Registry)
    requires 0 <= i <= |all|
  {
    !HasByteTokens(v) && (IsStepRef(v) ==> ReferenceOk(all, i, arg, v, registry))
  }

  /** A required argument is neither absent, null nor blank; a reference counts as supplied. */
  predicate Supplied(args: Args, arg: string) {
    arg in args && args[arg] != Null && (args[arg].Str? ==> Strip(args[arg].s) != "")
  }

  predicate StepOk(all: seq<PlannedStep>, i: int, registry: Registry)
    requires 0 <= i < |all|
  {
    var step := all[i];
    && step.skill in registry
    && (forall d | d in step.dependsOn :: 0 <= d < i)
    && (forall k | k in step.args :: ArgumentOk(all, i, k, step.args[k], registry))
    && forall arg | arg in registry[step.skill].required :: Supplied(step.args, arg)
  }

  /** The steps after `preceding` pass every check. */
  predicate ValidSteps(steps: seq<PlannedStep>, registry: Registry, preceding: seq<PlannedStep>) {
    forall i :: |preceding| <= i < |preceding + steps| ==> StepOk(preceding + steps, i, registry)
  }

  // ----- what is wrong with a step -----

  /** Problem `p` is one of argument `k`: corrupted text, a reference that does not point back, a
      path that does not suit the source, or a changed item used as a destination. */
  predicate ArgumentHas(all: seq<PlannedStep>, i: int, k: string, registry: Registry, p: Problem)
    requires 0 <= i < |all| && k in all[i].args
  {
    var v := all[i].args[k];
    match p
    case CorruptText(step, arg) => step == i && arg == k && HasByteTokens(v)
    case NotEarlier(step, arg, from) =>
      step == i && arg == k && IsStepRef(v) && from == RefSource(v).n && !(0 <= from < i)
    case WrongPath(step, arg, from) =>
      && step == i && arg == k && IsStepRef(v) && from == RefSource(v).n && 0 <= from < i
      && all[from].skill in registry && HeadMismatch(registry[all[from].skill].output, PathHead(RefPath(v)))
    case MutatedDestination(step, arg, from) =>
      && step == i && arg == k && IsStepRef(v) && from == RefSource(v).n && 0 <= from < i
      && k == "parent_id" && all[from].skill in registry && registry[all[from].skill].output.MutatedItem?
    case _ => false
  }

  /** Problem `p` is one of step `i`: its skill is unknown, a dependency does not point back, an
      argument has it, or a required argument is absent, null or blank. */
  ghost predicate Has(all: seq<PlannedStep>, i: int, registry: Registry, p: Problem)
    requires 0 <= i < |all|
  {
    var step := all[i];
    if step.skill !in registry then p == UnknownSkill(i)
    else
      || (p.BadDependency? && p.step == i && p.dependency in step.dependsOn && !(0 <= p.dependency < i))
      || (exists k :: k in step.args && ArgumentHas(all, i, k, registry, p))
      || (p.MissingArgument? && p.step == i && p.arg in registry[step.skill].required && IsMissing(step.args, p.arg))
  }

  lemma ReferenceHas(all: seq<PlannedStep>, i: int, k: string, registry: Registry, p: Problem)
    requires 0 <= i < |all| && k in all[i].args && IsStepRef(all[i].args[k])
    requires 0 <= RefSource(all[i].args[k]).n < i
    ensures var v := all[i].args[k];
            var from := RefSource(v).n;
            p in ReferenceProblems(i, k, RefPath(v), Lookup(registry, all[from].skill), from) <==>
            ArgumentHas(all, i, k, registry, p)
  {
    hide PathHead;
  }

  lemma ArgumentOkIs(all: seq<PlannedStep>, i: int, k: string, registry: Registry)
    requires 0 <= i < |all| && k in all[i].args
    ensures ArgumentOk(all, i, k, all[i].args[k], registry) <==> forall p :: !ArgumentHas(all, i, k, registry, p)
  {
    var v := all[i].args[k];
    hide PathHead, HasByteTokens;
    if !ArgumentOk(all, i, k, v, registry) {
      var from := if IsStepRef(v) then RefSource(v).n else 0;
      assert HasByteTokens(v) ==> ArgumentHas(all, i, k, registry, CorruptText(i, k));
      assert ArgumentHas(all, i, k, registry, CorruptText(i, k)) ||
             ArgumentHas(all, i, k, registry, NotEarlier(i, k, from)) ||
             ArgumentHas(all, i, k, registry, WrongPath(i, k, from)) ||
             ArgumentHas(all, i, k, registry, MutatedDestination(i, k, from));
    }
  }

  /** A step is valid exactly when it has no problem. */
  lemma ValidStepIs(all: seq<PlannedStep>, i: int, registry: Registry)
    requires 0 <= i < |all|
    ensures StepOk(all, i, registry) <==> forall p :: !Has(all, i, registry, p)
  {
    var step := all[i];
    hide ArgumentOk, ArgumentHas, Strip;
    forall k | k in step.args
      ensures ArgumentOk(all, i, k, step.args[k], registry) <==> forall p :: !ArgumentHas(all, i, k, registry, p)
    {
      ArgumentOkIs(all, i, k, registry);
    }
    if forall p :: !Has(all, i, registry, p) {
      assert !Has(all, i, registry, UnknownSkill(i));
      forall d | d in step.dependsOn
        ensures 0 <= d < i
      {
        assert !Has(all, i, registry, BadDependency(i, d));
      }
      forall k, p | k in step.args
        ensures !ArgumentHas(all, i, k, registry, p)
      {
        assert !Has(all, i, registry, p);
      }
      forall arg | arg in registry[step.skill].required
        ensures Supplied(step.args, arg)
      {
        assert !Has(all, i, registry, MissingArgument(i, arg));
      }
    }
  }

  // ----- validation -----

  method ArgumentProblems(all: seq<PlannedStep>, i: int, registry: Registry) returns (problems: seq<Problem>)
    requires 0 <= i < |all|
    ensures forall p :: p in problems <==> exists k :: k in all[i].args && ArgumentHas(all, i, k, registry, p)
  {
    problems := [];
    var args := all[i].args;
    var todo := args.Keys;
    while todo != {}
      invariant todo <= args.Keys
      invariant forall p :: p in problems <==>
                  exists k :: k in args && k !in todo && ArgumentHas(all, i, k, registry, p)
      decreases todo
    {
      var k :| k in todo;
      var v := args[k];
      var more: seq<Problem> := [];
      if HasByteTokens(v) {
        more := [CorruptText(i, k)];
      } else if IsStepRef(v) {
        var from := RefSource(v).n;
        if from < 0 || from >= i {
          more := [NotEarlier(i, k, from)];
        } else {
          more := ReferenceProblems(i, k, RefPath(v), Lookup(registry, all[from].skill), from);
        }
      }
      ArgumentReport(all, i, k, registry, more);
      problems := problems + more;
      todo := todo - {k};
    }
  }

  lemma ArgumentReport(all: seq<PlannedStep>, i: int, k: string, registry: Registry, more: seq<Problem>)
    requires 0 <= i < |all| && k in all[i].args
    requires var v := all[i].args[k];
             more == if HasByteTokens(v) then [CorruptText(i, k)]
                     else if !IsStepRef(v) then []
                     else if !(0 <= RefSource(v).n < i) then [NotEarlier(i, k, RefSource(v).n)]
                     else
                       ReferenceProblems(i, k, RefPath(v), Lookup(registry, all[RefSource(v).n].skill), RefSource(v).n)
    ensures forall p :: p in more <==> ArgumentHas(all, i, k, registry, p)
  {
    var v := all[i].args[k];
    hide PathHead;
    if IsStepRef(v) && 0 <= RefSource(v).n < i {
      forall p
        ensures p in more <==> ArgumentHas(all, i, k, registry, p)
      {
        ReferenceHas(all, i, k, registry, p);
      }
    }
  }

  method StepProblems(all: seq<PlannedStep>, i: int, registry: Registry) returns (problems: seq<Problem>)
    requires 0 <= i < |all|
    ensures forall p :: p in problems <==> Has(all, i, registry, p)
  {
    hide ArgumentHas, Strip;
    var step := all[i];
    if step.skill !in registry {
      return [UnknownSkill(i)];
    }
    problems := [];
    for d := 0 to |step.dependsOn|
      invariant forall p :: p in problems <==>
                  p.BadDependency? && p.step == i && p.dependency in step.dependsOn[..d] && !(0 <= p.dependency < i)
    {
      var dependency := step.dependsOn[d];
      if dependency < 0 || dependency >= i {
        problems := problems + [BadDependency(i, dependency)];
      }
      assert step.dependsOn[..d + 1] == step.dependsOn[..d] + [dependency];
    }
    assert step.dependsOn[..|step.dependsOn|] == step.dependsOn;
    var more := ArgumentProblems(all, i, registry);
    var required := registry[step.skill].required;
    var absent: seq<Problem> := [];
    for r := 0 to |required|
      invariant forall p :: p in absent <==>
                  p.MissingArgument? && p.step == i && p.arg in required[..r] && IsMissing(step.args, p.arg)
    {
      var arg := required[r];
      var value := if arg in step.args then step.args[arg] else Null;
      var missing := value == Null || (value.Str? && Strip(value.s) == "");
      if missing && !IsReference(value) {
        absent := absent + [MissingArgument(i, arg)];
      }
      assert required[..r + 1] == required[..r] + [arg];
    }
    assert required[..|required|] == required;
    problems := problems + more + absent;
  }

  predicate IsMissing(args: Args, arg: string) {
    arg !in args || args[arg] == Null || (args[arg].Str? && Strip(args[arg].s) == "")
  }

  /** `validate_plan`: exactly the problems that the new steps have. */
  method ValidatePlan(steps: seq<PlannedStep>, registry: Registry, preceding: seq<PlannedStep>)
    returns (problems: seq<Problem>)
    ensures problems == [] <==> ValidSteps(steps, registry, preceding)
    ensures forall p :: p in problems <==>
              exists i :: |preceding| <= i < |preceding + steps| && Has(preceding + steps, i, registry, p)
  {
    hide Has;
    var all := preceding + steps;
    problems := [];
    for position := 0 to |steps|
      invariant forall p :: p in problems <==>
                  exists i :: |preceding| <= i < |preceding| + position && Has(all, i, registry, p)
    {
      var more := StepProblems(all, |preceding| + position, registry);
      problems := problems + more;
    }
    NoneMeansValid(steps, registry, preceding, problems);
  }

  lemma NoneMeansValid(steps: seq<PlannedStep>, registry: Registry, preceding: seq<PlannedStep>, problems: seq<Problem>)
    requires forall p :: p in problems <==>
               exists i :: |preceding| <= i < |preceding + steps| && Has(preceding + steps, i, registry, p)
    ensures problems == [] <==> ValidSteps(steps, registry, preceding)
  {
    hide Has, StepOk;
    var all := preceding + steps;
    forall i | |preceding| <= i < |all|
      ensures StepOk(all, i, registry) <==> forall p :: !Has(all, i, registry, p)
    {
      ValidStepIs(all, i, registry);
    }
    if problems != [] {
      assert problems[0] in problems;
      var i :| |preceding| <= i < |all| && Has(all, i, registry, problems[0]);
      assert !StepOk(all, i, registry);
    }
    if !ValidSteps(steps, registry, preceding) {
      var i :| |preceding| <= i < |all| && !StepOk(all, i, registry);
      var p :| Has(all, i, registry, p);
      assert p in problems;
    }
  }

  // ----- soundness of the static check -----

  /** Classification cannot reject a validated continuation of a classifiable plan, and all
      references of the whole point back. */
  lemma ValidationSuffices(steps: seq<PlannedStep>, registry: Registry, preceding: seq<PlannedStep>)
    requires ValidSteps(steps, registry, preceding)
    requires ClassifiablePlan(preceding, registry) && BackwardReferences(preceding)
    ensures ClassifiablePlan(preceding + steps, registry)
    ensures BackwardReferences(preceding + steps)
    ensures Backward(Classified(preceding + steps, registry))
  {
    var all := preceding + steps;
    forall i | 0 <= i < |all|
      ensures Classifiable(all[i], i, registry)
    {
      if i < |preceding| {
        assert Classifiable(preceding[i], i, registry);
      } else {
        assert StepOk(all, i, registry);
      }
    }
    forall i, s | 0 <= i < |all| && s in StepSources(all[i].args)
      ensures 0 <= s < i
    {
      if i < |preceding| {
        assert s in StepSources(preceding[i].args);
      } else {
        var k :| k in all[i].args && IsStepRef(all[i].args[k]) && RefSource(all[i].args[k]).n == s;
        assert StepOk(all, i, registry) && ArgumentOk(all, i, k, all[i].args[k], registry);
      }
    }
    ClassifiedPlan(all, registry);
  }

  /** What an output of a declared shape looks like. */
  predicate HasShape(shape: OutputShape, v: Value) {
    match shape
    case Opaque => true
    case PagedItems =>
      && v.Obj? && "items" in v.fields && v.fields["items"].Arr?
      && "total" in v.fields && v.fields["total"].Num?
    case ItemList => v.Arr?
    case _ => v.Obj? && forall k | k in v.fields :: k != "items" && k != "*" && !IsIndex(k)
  }

  /** Some output of the shape can be entered at this head. */
  ghost predicate Enterable(shape: OutputShape, head: string) {
    exists v :: HasShape(shape, v) && Follow(v, head).Some?
  }

  /** A list of elements hangs at this head. */
  predicate ListAt(v: Value, head: string) {
    Follow(v, head).Some? && Follow(v, head).value.Arr?
  }

  /** The head check is exact: an item's is passed exactly by heads at which some item can be
      entered, a paged listing's exactly by heads at which every listing has a list. */
  lemma HeadCheckIsExact(shape: OutputShape, head: string)
    ensures shape.Item? || shape.NewFolder? || shape.MutatedItem? ==>
              (HeadMismatch(shape, head) <==> !Enterable(shape, head))
    ensures shape.PagedItems? ==>
              (HeadMismatch(shape, head) <==> !forall v :: HasShape(shape, v) ==> ListAt(v, head))
  {
    var item := Obj(map[head := Null]);
    if (shape.Item? || shape.NewFolder? || shape.MutatedItem?) && !HeadMismatch(shape, head) {
      assert HasShape(shape, item) && Follow(item, head).Some?;
    }
    assert |"items"| == 5 && "items"[0] == 'i' && "total"[0] == 't';
    var listing := Obj(map["items" := Arr([]), "total" := Num(0)]);
    assert HasShape(PagedItems, listing) && (ListAt(listing, head) <==> head == "items");
  }

  /** One head is rejected although every listing can be entered there: `total`, which leads to a
      number. */
  lemma TotalIsRejected(head: string)
    ensures HeadMismatch(PagedItems, "total")
    ensures (forall v :: HasShape(PagedItems, v) ==> Follow(v, head).Some?) <==> head == "items" || head == "total"
  {
    assert |"items"| == 5 && "items"[0] == 'i' && "total"[0] == 't';
    var listing := Obj(map["items" := Arr([]), "total" := Num(0)]);
    assert HasShape(PagedItems, listing) && (Follow(listing, head).Some? <==> head == "items" || head == "total");
  }

  /** The output with one more field. */
  function WithField(v: Value, head: string, field: Value): Value
    requires v.Obj?
  {
    Obj(v.fields[head := field])
  }

  /** The first hop of a path is one this output supports: a paged listing is entered through
      its list, a list at an index or for every element, an item by a name under which it keeps
      its shape whatever field it holds there. */
  ghost predicate HeadFits(shape: OutputShape, v: Value, head: string) {
    match shape
    case Opaque => true
    case PagedItems => ListAt(v, head)
    case ItemList =>
      v.Arr? && (head == "*" ||
                 (ParseInt(head).Some? && ParseInt(head).value >= 0 &&
                  (ParseInt(head).value < |v.items| ==> Follow(v, head) == Some(v.items[ParseInt(head).value]))))
    case _ => v.Obj? && forall field :: HasShape(shape, WithField(v, head, field))
  }

  lemma IndexParses(head: string)
    requires IsIndex(head)
    ensures ParseInt(head).Some? && ParseInt(head).value >= 0
  {
    assert Strip(head) == head;
  }

  /** Accepted heads fit, and for items rejected ones do not. */
  lemma AcceptedHeadFits(shape: OutputShape, v: Value, head: string)
    requires HasShape(shape, v)
    ensures !HeadMismatch(shape, head) ==> HeadFits(shape, v, head)
    ensures shape.Item? || shape.NewFolder? || shape.MutatedItem? ==>
              (HeadFits(shape, v, head) ==> !HeadMismatch(shape, head))
  {
    if shape.ItemList? && IsIndex(head) {
      IndexParses(head);
    }
    if shape.Item? || shape.NewFolder? || shape.MutatedItem? {
      var extended := WithField(v, head, Null);
      assert head in extended.fields;
      assert HasShape(shape, extended) ==> !HeadMismatch(shape, head);
    }
  }

  /** The reference rejected for a single item could never have resolved. */
  lemma RejectedItemPathFails(shape: OutputShape, v: Value, path: string)
    requires shape.Item? || shape.NewFolder? || shape.MutatedItem?
    requires HasShape(shape, v) && HeadMismatch(shape, PathHead(path))
    ensures PathValue(v, path).None?
  {
    var parts := Parts(path);
    assert parts != [] by {
      assert |"items"| == 5 && |"*"| == 1;
    }
    assert parts[0] !in v.fields;
  }

  /** The skills return what they declare. */
  ghost predicate Conforms(env: Env, registry: Registry) {
    forall t, c {:trigger env(t, c)} :: env(t, c).Some? && c.skill in registry ==>
      HasShape(registry[c.skill].output, env(t, c).value)
  }

  /** Fanned-out steps, whatever the results so far. */
  predicate FannedOut(args: Args) {
    exists k | k in args :: IsStepRef(args[k]) && WildcardSplit(RefPath(args[k])).Some?
  }

  lemma FannedOutIsStatic(args: Args, ok: map<int, Value>)
    ensures HasFanout(Bind(args, ok)) <==> FannedOut(args)
  {
    hide WildcardSplit, RefPath;
    if k :| k in args && IsStepRef(args[k]) && WildcardSplit(RefPath(args[k])).Some? {
      assert k in WildKeys(Bind(args, ok));
    } else {
      assert WildKeys(Bind(args, ok)) == {};
    }
  }

  lemma PlainOutput(env: Env, registry: Registry, step: Step, ok: map<int, Value>, trace: seq<Call>)
    requires Conforms(env, registry) && step.skill in registry && !FannedOut(step.args)
    ensures var a := AttemptStep(env, step.skill, Bind(step.args, ok), trace);
            a.output.Some? ==> HasShape(registry[step.skill].output, a.output.value)
  {
    hide BoundArguments, HasShape;
    FannedOutIsStatic(step.args, ok);
  }

  lemma OutputHasShape(env: Env, registry: Registry, steps: seq<Step>, trace: seq<Call>, s: nat)
    requires Conforms(env, registry) && Numbered(steps) && s < |steps|
    requires steps[s].skill in registry && !FannedOut(steps[s].args)
    requires |RunPlan(env, steps, trace).results| == |steps|
    ensures var outcome := RunPlan(env, steps, trace).results[s].outcome;
            outcome.Ok? ==> HasShape(registry[steps[s].skill].output, outcome.output)
  {
    hide RunPlan, HasShape, AttemptStep, Bind, OkOutputs, FannedOut, Conforms;
    StepResultIs(env, steps, trace, s);
    var before := Before(env, steps, trace, s);
    AttemptedOutcome(env, steps[s], before);
    PlainOutput(env, registry, steps[s], OkOutputs(before.results), before.trace);
  }

  /** The static check is sound at run time: in every run of a validated plan, with skills that
      return their declared shapes, a reference into the output of a step that is not fanned
      out enters it at a head that fits. */
  lemma ValidatedReferencesFit(env: Env, planned: seq<PlannedStep>, registry: Registry, trace: seq<Call>,
                               i: nat, k: string)
    requires Conforms(env, registry) && ValidSteps(planned, registry, [])
    requires i < |planned| && k in planned[i].args && IsStepRef(planned[i].args[k])
    ensures ClassifiablePlan(planned, registry)
    ensures var v := planned[i].args[k];
            var s := RefSource(v).n;
            var results := RunPlan(env, Classified(planned, registry), trace).results;
            && |results| == |planned| && 0 <= s < i
            && (!FannedOut(planned[s].args) && results[s].outcome.Ok? ==>
                HeadFits(registry[planned[s].skill].output, results[s].outcome.output, PathHead(RefPath(v))))
  {
    hide RunPlan, HasShape, FannedOut, HeadFits, Conforms, PathHead, HeadMismatch, RefPath;
    assert [] + planned == planned;
    ValidationSuffices(planned, registry, []);
    var steps := Classified(planned, registry);
    ClassifiedPlan(planned, registry);
    RunShape(env, steps, trace);
    var v := planned[i].args[k];
    assert StepOk(planned, i, registry) && ArgumentOk(planned, i, k, v, registry);
    var s := RefSource(v).n;
    assert Classifiable(planned[s], s, registry);
    var shape := registry[planned[s].skill].output;
    var results := RunPlan(env, steps, trace).results;
    if !FannedOut(planned[s].args) && results[s].outcome.Ok? {
      OutputHasShape(env, registry, steps, trace, s);
      if shape.Opaque? {
        OpaqueFits(results[s].outcome.output, PathHead(RefPath(v)));
      } else {
        AcceptedHeadFits(shape, results[s].outcome.output, PathHead(RefPath(v)));
      }
    }
  }

  lemma OpaqueFits(v: Value, head: string)
    ensures HeadFits(Opaque, v, head)
  {
  }

  /** What the check cannot see: the output of a fanned-out step can be entered exactly through
      `items` and `count`, whatever shape its skill declares. */
  lemma FannedOutputHeads(outputs: seq<Value>, head: string)
    ensures Follow(FanoutOutput(outputs), head).Some? <==> head == "items" || head == "count"
  {
    assert |"items"| == 5 && |"count"| == 5 && "items"[0] == 'i' && "count"[0] == 'c';
  }

  /** A fanned-out source puts out `{"items", "count"}` whatever its skill declares: a path the
      check accepts for an item does not resolve. */
  lemma FannedSourceMisfits(outputs: seq<Value>)
    ensures !HeadMismatch(Item, PathHead("id"))
    ensures PathValue(FanoutOutput(outputs), "id").None?
  {
    SplitSegment("id", '.');
    assert Split("id", '.') == ["id"];
    NonEmptyKeepsSegments(["id"]);
    assert Parts("id") == ["id"];
    assert |"id"| == 2 && |"items"| == 5 && |"count"| == 5;
    assert !IsIndex("id") by { assert "id"[0] == 'i'; }
  }

  // ----- the repair loop -----

  datatype Reply = Unparsable | Parsed(steps: seq<PlannedStep>)

  datatype Message = Framing | Answer(reply: Reply) | Repair(problems: seq<Problem>)

  /** What the model is shown at its `i`-th answer: the framing, then each answer so far with the
      report about it. */
  function Shown(replies: seq<Reply>, reports: seq<seq<Problem>>, i: nat): seq<Message>
    requires i <= |replies| && i <= |reports|
  {
    if i == 0 then [Framing]
    else Shown(replies, reports, i - 1) + [Answer(replies[i - 1]), Repair(reports[i - 1])]
  }

  lemma {:induction false} ShownGrows(replies: seq<Reply>, reports: seq<seq<Problem>>, more: seq<Reply>,
                                      moreReports: seq<seq<Problem>>, i: nat)
    requires i <= |replies| && i <= |reports|
    ensures Shown(replies + more, reports + moreReports, i) == Shown(replies, reports, i)
  {
    if i > 0 {
      ShownGrows(replies, reports, more, moreReports, i - 1);
    }
  }

  /** Each answer is the model's to what it was shown. */
  ghost predicate Asked(model: seq<Message> -> Reply, replies: seq<Reply>, reports: seq<seq<Problem>>) {
    |replies| <= |reports| + 1 && forall i: nat :: i < |replies| ==> replies[i] == model(Shown(replies, reports, i))
  }

  /** A report names exactly the problems of its answer, and there are some. */
  ghost predicate ReportsOn(report: seq<Problem>, reply: Reply, registry: Registry, preceding: seq<PlannedStep>) {
    && reply.Parsed? && report != []
    && forall p :: p in report <==>
         exists i :: |preceding| <= i < |preceding + reply.steps| && Has(preceding + reply.steps, i, registry, p)
  }

  lemma NothingAsked(model: seq<Message> -> Reply)
    ensures Asked(model, [], []) && Shown([], [], 0) == [Framing]
  {
  }

  lemma AskedOnce(model: seq<Message> -> Reply, replies: seq<Reply>, reports: seq<seq<Problem>>, reply: Reply)
    requires Asked(model, replies, reports) && |reports| == |replies|
    requires reply == model(Shown(replies, reports, |replies|))
    ensures Asked(model, replies + [reply], reports)
  {
    hide Shown;
    assert reports + [] == reports;
    forall i: nat | i < |replies + [reply]|
      ensures (replies + [reply])[i] == model(Shown(replies + [reply], reports, i))
    {
      ShownGrows(replies, reports, [reply], [], i);
    }
  }

  lemma Told(model: seq<Message> -> Reply, replies: seq<Reply>, reports: seq<seq<Problem>>, report: seq<Problem>)
    requires Asked(model, replies, reports) && |replies| == |reports| + 1
    ensures Asked(model, replies, reports + [report])
  {
    hide Shown;
    assert replies + [] == replies;
    forall i: nat | i < |replies|
      ensures replies[i] == model(Shown(replies, reports + [report], i))
    {
      ShownGrows(replies, reports, [], [report], i);
    }
  }

  lemma ShownNext(replies: seq<Reply>, reports: seq<seq<Problem>>, reply: Reply, report: seq<Problem>)
    requires |replies| == |reports|
    ensures Shown(replies + [reply], reports + [report], |replies| + 1)
            == Shown(replies, reports, |replies|) + [Answer(reply), Repair(report)]
  {
    ShownGrows(replies, reports, [reply], [report], |replies|);
  }

  /** `WorkflowPlanner.plan` against an arbitrary model. `replies` are its answers, each to the
      framing and everything said since; `reports` what it was told about all but the last. */
  method Plan(model: seq<Message> -> Reply, registry: Registry, preceding: seq<PlannedStep>, maxRepair: int)
    returns (steps: seq<PlannedStep>, replies: seq<Reply>, reports: seq<seq<Problem>>)
    ensures 1 <= |replies| <= (if maxRepair < 0 then 0 else maxRepair) + 1 && |reports| == |replies| - 1
    ensures Asked(model, replies, reports)
    ensures forall i :: 0 <= i < |reports| ==> ReportsOn(reports[i], replies[i], registry, preceding)
    ensures var last := replies[|replies| - 1];
            if last.Parsed? && ValidSteps(last.steps, registry, preceding) then steps == last.steps
            else steps == [] && (last.Unparsable? || |replies| == (if maxRepair < 0 then 0 else maxRepair) + 1)
    ensures steps != [] ==> ValidSteps(steps, registry, preceding)
  {
    NothingAsked(model);
    hide *;
    var repairs := if maxRepair < 0 then 0 else maxRepair;
    var messages := [Framing];
    replies, reports := [], [];
    for attempt := 0 to repairs + 1
      invariant |replies| == attempt && |reports| == if attempt <= repairs then attempt else repairs
      invariant Asked(model, replies, reports)
      invariant attempt <= repairs ==> messages == Shown(replies, reports, attempt)
      invariant forall i :: 0 <= i < |reports| ==> ReportsOn(reports[i], replies[i], registry, preceding)
      invariant attempt > repairs ==>
                  replies[repairs].Parsed? && !ValidSteps(replies[repairs].steps, registry, preceding)
    {
      var reply := model(messages);
      AskedOnce(model, replies, reports, reply);
      ghost var before := replies;
      replies := replies + [reply];
      if reply.Unparsable? {
        return [], replies, reports;
      }
      var problems := ValidatePlan(reply.steps, registry, preceding);
      if problems == [] {
        return reply.steps, replies, reports;
      }
      if attempt < repairs {
        assert ReportsOn(problems, reply, registry, preceding) by { Reports(problems, reply, registry, preceding); }
        Told(model, replies, reports, problems);
        ShownNext(before, reports, reply, problems);
        messages := messages + [Answer(reply), Repair(problems)];
        reports := reports + [problems];
      }
    }
    steps := [];
  }

  lemma Reports(problems: seq<Problem>, reply: Reply, registry: Registry, preceding: seq<PlannedStep>)
    requires reply.Parsed? && problems != []
    requires forall p :: p in problems <==>
               exists i :: |preceding| <= i < |preceding + reply.steps| && Has(preceding + reply.steps, i, registry, p)
    ensures ReportsOn(problems, reply, registry, preceding)
  {
    hide Has;
  }
}
