/** What references resolve to and what executing a step does, call by call. */
module ExecutionEffects {
  import opened Text
  import opened Json
  import opened References
  import opened Executor
  import opened Isolation
  import opened Scenarios

  // ----- paths -----

  /** One hop: a field of an object, or an element of a list, counted from the end when negative. */
  predicate Hop(v: Value, part: string, w: Value) {
    match v
    case Obj(fields) => part in fields && fields[part] == w
    case Arr(items) =>
      var i := ParseInt(part);
      i.Some? && -|items| <= i.value < |items| &&
      w == if i.value < 0 then items[|items| + i.value] else items[i.value]
    case _ => false
  }

  lemma {:induction false} SplitConcat(a: string, b: string, sep: char)
    ensures Split(a + [sep] + b, sep) == Split(a, sep) + Split(b, sep)
  {
    hide Split;
    if a == [] {
      assert [] + [sep] + b == [sep] + b;
      SplitCons(sep, b, sep);
      NothingSplit(sep);
    } else {
      var rest := a[1..];
      SplitConcat(rest, b, sep);
      var whole := rest + [sep] + b;
      assert a + [sep] + b == [a[0]] + whole && a == [a[0]] + rest;
      SplitCons(a[0], rest, sep);
      SplitCons(a[0], whole, sep);
      FrontOf(a[0], Split(rest, sep), Split(b, sep));
    }
  }

  lemma NothingSplit(sep: char)
    ensures Split("", sep) == [""]
  {
  }

  lemma FrontOf(c: char, p: seq<string>, q: seq<string>)
    requires p != []
    ensures [""] + (p + q) == ([""] + p) + q
    ensures [[c] + (p + q)[0]] + (p + q)[1..] == ([[c] + p[0]] + p[1..]) + q
  {
  }

  lemma SplitCons(c: char, s: string, sep: char)
    ensures Split([c] + s, sep) ==
            if c == sep then [""] + Split(s, sep) else [[c] + Split(s, sep)[0]] + Split(s, sep)[1..]
    ensures Split(s, sep) != []
  {
    assert ([c] + s)[1..] == s;
  }

  lemma {:induction false} NonEmptyConcat(a: seq<string>, b: seq<string>)
    ensures NonEmpty(a + b) == NonEmpty(a) + NonEmpty(b)
  {
    hide NonEmpty;
    if a == [] {
      assert a + b == b;
      NothingLeft();
    } else {
      var rest := a[1..];
      NonEmptyConcat(rest, b);
      NonEmptyCons(a[0], rest);
      NonEmptyCons(a[0], rest + b);
      assert a + b == [a[0]] + (rest + b) && a == [a[0]] + rest;
    }
  }

  lemma NothingLeft()
    ensures NonEmpty([]) == []
  {
  }

  lemma NonEmptyCons(part: string, rest: seq<string>)
    ensures NonEmpty([part] + rest) == (if part == "" then [] else [part]) + NonEmpty(rest)
  {
    assert ([part] + rest)[1..] == rest;
  }

  lemma PartsConcat(a: string, b: string)
    ensures Parts(a + "." + b) == Parts(a) + Parts(b)
  {
    SplitConcat(a, b, '.');
    NonEmptyConcat(Split(a, '.'), Split(b, '.'));
  }

  lemma PartsOfSegment(part: string)
    requires part != "" && '.' !in part
    ensures Parts(part) == [part]
  {
    SplitSegment(part, '.');
    NonEmptyKeepsSegments([part]);
  }

  lemma PartsOfNothing()
    ensures Parts("") == []
  {
    assert Split("", '.') == [""];
  }

  /** Walking a path: nowhere for the empty one, one hop for a segment, and one part after the
      other where a dot joins two. */
  lemma PathIs(v: Value)
    ensures PathValue(v, "") == Some(v)
    ensures forall part, w: Value :: part != "" && '.' !in part ==> (PathValue(v, part) == Some(w) <==> Hop(v, part, w))
    ensures forall a, b :: PathValue(v, a + "." + b) ==
              match PathValue(v, a) case Some(w) => PathValue(w, b) case None => None
  {
    PartsOfNothing();
    forall part, w: Value | part != "" && '.' !in part
      ensures PathValue(v, part) == Some(w) <==> Hop(v, part, w)
    {
      PartsOfSegment(part);
      OneHop(v, part, w);
    }
    hide Parts, Descend;
    forall a, b
      ensures PathValue(v, a + "." + b) == match PathValue(v, a) case Some(w) => PathValue(w, b) case None => None
    {
      PartsConcat(a, b);
      DescendConcat(v, Parts(a), Parts(b));
    }
    assert Descend(v, []) == Some(v) by { DescendNothing(v); }
  }

  lemma OneHop(v: Value, part: string, w: Value)
    ensures Descend(v, [part]) == Some(w) <==> Hop(v, part, w)
  {
    hide ParseInt;
    assert [part][1..] == [];
  }

  // ----- values as Python reads them -----

  lemma TruthyIs(v: Value)
    ensures !Truthy(v) <==>
            v == Null || v == Bool(false) || v == Num(0) || v == Float(0.0) || v == Str("") ||
            v == Arr([]) || v == Obj(map[])
  {
  }

  lemma {:induction false} UpperIs(s: string)
    ensures |Upper(s)| == |s|
    ensures forall i :: 0 <= i < |s| ==>
              Upper(s)[i] as int == if 'a' <= s[i] <= 'z' then s[i] as int - 32 else s[i] as int
  {
    if s != [] {
      UpperIs(s[1..]);
    }
  }

  /** An integer is written without a plus sign, and read back as itself. */
  lemma IntegersRead(n: int)
    ensures PyStr(Num(n)) == if n >= 0 then Numeral(n) else "-" + Numeral(-n)
    ensures ParseInt(PyStr(Num(n))) == Some(n)
  {
    if n >= 0 {
      ParseNumeral(n);
    } else {
      NumeralDenotes(-n);
      assert Strip("-" + Numeral(-n)) == "-" + Numeral(-n);
      assert ("-" + Numeral(-n))[1..] == Numeral(-n);
    }
  }

  /** The text is a sign or none, and digits. */
  predicate Denotes(s: string, sign: string, digits: string, n: int) {
    && s == sign + digits && sign in {"", "+", "-"} && ValidDigits(digits)
    && n == if sign == "-" then -(DigitsValue(digits) as int) else DigitsValue(digits) as int
  }

  /** Reading an integer: white space around it does not matter. */
  lemma IntegerIs(text: string, n: int)
    ensures ParseInt(text) == Some(n) <==> exists sign, digits :: Denotes(Strip(text), sign, digits, n)
  {
    hide Strip, DigitsValue, ValidDigits;
    var s := Strip(text);
    if ParseInt(text) == Some(n) {
      if s != [] && (s[0] == '-' || s[0] == '+') {
        assert Denotes(s, [s[0]], s[1..], n);
      } else {
        assert Denotes(s, "", s, n);
      }
    }
    if exists sign, digits :: Denotes(s, sign, digits, n) {
      var sign, digits :| Denotes(s, sign, digits, n);
      StartsWithDigit(digits);
      assert s[|sign|..] == digits && digits[0] == s[|sign|];
    }
  }

  lemma StartsWithDigit(s: string)
    requires ValidDigits(s)
    ensures s != "" && IsDigit(s[0])
  {
    assert FitsAt(s, 0);
  }

  lemma DigitAdded(t: string, d: char)
    requires t != ""
    ensures ValidDigits(t + [d]) <==> IsDigit(d) && (ValidDigits(t) || (t[|t| - 1] == '_' && ValidDigits(t[..|t| - 1])))
  {
    var s, u := t + [d], t[..|t| - 1];
    assert FitsAt(s, |t|) <==> IsDigit(d);
    assert forall i :: 0 <= i < |t| - 1 ==> FitsAt(s, i) == FitsAt(t, i);
    assert forall i :: 0 <= i < |u| - 1 ==> FitsAt(t, i) == FitsAt(u, i);
    assert FitsAt(t, |t| - 1) <==> IsDigit(t[|t| - 1]);
    if t[|t| - 1] == '_' {
      assert FitsAt(s, |t| - 1) <==> u != "" && IsDigit(u[|u| - 1]) && IsDigit(d);
      assert u != "" ==> (FitsAt(u, |u| - 1) <==> IsDigit(u[|u| - 1]));
      assert u != "" && IsDigit(u[|u| - 1]) ==> FitsAt(t, |u| - 1);
    } else {
      assert FitsAt(s, |t| - 1) == FitsAt(t, |t| - 1);
    }
  }

  /** Digits end with a digit, and what is before it is nothing, digits, or digits and an underscore. */
  lemma DigitsAre(t: string, d: char)
    ensures ValidDigits(t + [d]) <==>
            IsDigit(d) && (t == "" || ValidDigits(t) || (t[|t| - 1] == '_' && ValidDigits(t[..|t| - 1])))
    ensures DigitsValue("") == 0
    ensures IsDigit(d) ==> DigitsValue(t + [d]) == 10 * DigitsValue(t) + (d as int - '0' as int)
    ensures DigitsValue(t + ['_']) == DigitsValue(t)
  {
    assert (t + [d])[..|t|] == t && (t + ['_'])[..|t|] == t;
    if t != "" {
      DigitAdded(t, d);
    } else {
      assert t + [d] == [d] && (FitsAt([d], 0) <==> IsDigit(d));
    }
  }

  // ----- one argument -----

  /** A reference is an object with a source: `from`, or else `from_step`. It leads to the selection
      when that is the text `selection`, and to a step when it is an integer; its path is empty
      when it has none. */
  lemma SourceIs(v: Value)
    ensures IsReference(v) <==> v.Obj? && exists f :: f in v.fields && (f == "from" || f == "from_step")
    ensures RefSource(v) ==
            match v
            case Obj(fields) =>
              (if "from" in fields then fields["from"]
               else if "from_step" in fields then fields["from_step"] else Null)
            case _ => Null
    ensures IsSelectionRef(v) <==> IsReference(v) && RefSource(v) == Str("selection")
    ensures IsStepRef(v) <==> IsReference(v) && exists n :: RefSource(v) == Num(n)
    ensures v.Obj? && "path" !in v.fields ==> RefPath(v) == ""
    ensures v.Obj? ==> forall p :: "path" in v.fields && v.fields["path"] == Str(p) ==> RefPath(v) == p
  {
  }

  /** A destination is refused when it is taken from an object that says it is no folder. */
  predicate Refused(key: string, holder: Value) {
    && key == "parent_id" && holder.Obj? && "item_type" in holder.fields
    && holder.fields["item_type"] != Null && Upper(PyStr(holder.fields["item_type"])) != "FOLDER"
  }

  /** What a reference reads: the whole output for an empty path, else the value at the path,
      refused when the object that holds it is no destination. */
  lemma ReferenceIs(key: string, output: Value)
    ensures CheckedLeaf(key, output, "") == Some(output)
    ensures forall part :: part != "" && '.' !in part ==>
              CheckedLeaf(key, output, part) == if Refused(key, output) then None else PathValue(output, part)
    ensures forall a, part :: part != "" && '.' !in part ==>
              CheckedLeaf(key, output, a + "." + part) ==
              match PathValue(output, a)
              case Some(holder) => (if Refused(key, holder) then None else PathValue(holder, part))
              case None => None
  {
    PartsOfNothing();
    PathIs(output);
    assert Parts("") == [];
    hide Parts, PathValue, Join;
    assert CheckedLeaf(key, output, "") == Some(output) by { assert !DestinationProblem(key, Null); }
    forall part | part != "" && '.' !in part
      ensures CheckedLeaf(key, output, part) == if Refused(key, output) then None else PathValue(output, part)
    {
      PartsOfSegment(part);
      assert [part][..0] == [];
      assert Join([], '.') == "";
    }
    forall a, part | part != "" && '.' !in part
      ensures CheckedLeaf(key, output, a + "." + part) ==
              match PathValue(output, a)
              case Some(holder) => (if Refused(key, holder) then None else PathValue(holder, part))
              case None => None
    {
      PartsConcat(a, part);
      PartsOfSegment(part);
      assert (Parts(a) + [part])[..|Parts(a)|] == Parts(a);
      JoinParts(output, a);
    }
  }

  /** Empty segments make no difference. */
  lemma JoinParts(v: Value, a: string)
    ensures PathValue(v, Join(Parts(a), '.')) == PathValue(v, a)
  {
    PartsJoin(Parts(a));
  }

  /** All arguments of a call: literals as they are, references as they read, or nothing. */
  lemma ArgumentsAre(args: Args, ok: map<int, Value>, r: Args)
    ensures BoundArguments(Bind(args, ok)) == Some(r) <==>
            && r.Keys == args.Keys
            && forall k | k in args ::
                 if IsStepRef(args[k]) then
                   RefSource(args[k]).n in ok &&
                   CheckedLeaf(k, ok[RefSource(args[k]).n], RefPath(args[k])) == Some(r[k])
                 else r[k] == args[k]
  {
    hide CheckedLeaf, RefPath;
    var cells := BoundCells(Bind(args, ok));
    if r.Keys == args.Keys && forall k | k in args :: cells[k] == Some(r[k]) {
      assert AllSome(cells).value == r;
    }
  }

  // ----- fan-out -----

  predicate Starred(v: Value) {
    IsStepRef(v) && "*" in Parts(RefPath(v))
  }

  /** The source is ok, and what stands before the first `*` of the path leads to the list. */
  predicate LeadsTo(v: Value, ok: map<int, Value>, before: seq<string>, after: seq<string>, items: seq<Value>)
    requires IsStepRef(v)
  {
    && Parts(RefPath(v)) == before + ["*"] + after && "*" !in before
    && RefSource(v).n in ok && PathValue(ok[RefSource(v).n], Join(before, '.')) == Some(Arr(items))
  }

  ghost predicate Spans(v: Value, ok: map<int, Value>, n: nat)
    requires IsStepRef(v)
  {
    exists before, after, items :: LeadsTo(v, ok, before, after, items) && |items| == n
  }

  lemma FirstStarIs(parts: seq<string>, before: seq<string>, after: seq<string>)
    requires parts == before + ["*"] + after && "*" !in before
    ensures FirstStar(parts) == Some(|before|) && parts[..|before|] == before
  {
    hide FirstStar;
    var i := FirstStar(parts).value;
    assert parts[|before|] == "*" && forall j :: 0 <= j < |before| ==> parts[j] == before[j];
    assert forall j :: 0 <= j < i ==> parts[..i][j] == parts[j];
  }

  lemma SpansIs(v: Value, ok: map<int, Value>, n: nat)
    requires IsStepRef(v)
    ensures IsWild(BindOne(v, ok)) <==> Starred(v)
    ensures Starred(v) ==> (RangesOver(BindOne(v, ok), n) <==> Spans(v, ok, n))
  {
    hide Parts, PathValue, Join, FirstStar, RefPath;
    var parts := Parts(RefPath(v));
    if Starred(v) {
      var i := FirstStar(parts).value;
      assert parts == parts[..i] + ["*"] + parts[i + 1..];
      if RangesOver(BindOne(v, ok), n) {
        assert LeadsTo(v, ok, parts[..i], parts[i + 1..], Collection(BindOne(v, ok)).value);
      }
      if Spans(v, ok, n) {
        var before, after, items :| LeadsTo(v, ok, before, after, items) && |items| == n;
        FirstStarIs(parts, before, after);
      }
    }
  }

  /** A call can be fanned out over `n` elements when every argument with a `*` leads to a list of that
      length and all others resolve. */
  lemma FanoutReadyIs(args: Args, ok: map<int, Value>, n: nat)
    ensures FanoutReady(Bind(args, ok), n) <==>
            forall k | k in args && IsStepRef(args[k]) ::
              if Starred(args[k]) then Spans(args[k], ok, n)
              else RefSource(args[k]).n in ok &&
                   CheckedLeaf(k, ok[RefSource(args[k]).n], RefPath(args[k])).Some?
  {
    var b := Bind(args, ok);
    hide CheckedLeaf, RefPath, Starred, Spans, RangesOver, IsWild;
    forall k | k in args
      ensures k in b && b[k] == BindOne(args[k], ok)
      ensures IsWild(b[k]) ==> IsStepRef(args[k])
      ensures IsStepRef(args[k]) ==>
                && (IsWild(b[k]) <==> Starred(args[k]))
                && (Starred(args[k]) ==> (RangesOver(b[k], n) <==> Spans(args[k], ok, n)))
    {
      LiteralIsNotWild(args[k], ok);
      if IsStepRef(args[k]) {
        SpansIs(args[k], ok, n);
      }
    }
    var cells := BoundCells(Shared(b));
    assert BoundArguments(Shared(b)).Some? <==> forall k | k in cells :: cells[k].Some?;
    assert forall k :: k in cells <==> k in args && !IsWild(b[k]);
  }

  lemma LiteralIsNotWild(v: Value, ok: map<int, Value>)
    ensures IsWild(BindOne(v, ok)) ==> IsStepRef(v)
  {
  }

  // ----- one step -----

  /** The calls of a skill with the given argument sets, in order. */
  function CallsOf(skill: string, rows: seq<Args>): seq<Call> {
    seq(|rows|, i requires 0 <= i < |rows| => Call(skill, rows[i]))
  }

  /** Every call is made and answered, in turn. */
  ghost predicate AllAnswered(env: Env, trace: seq<Call>, calls: seq<Call>, outputs: seq<Value>) {
    && |outputs| == |calls|
    && forall i :: 0 <= i < |calls| ==> env(trace + calls[..i], calls[i]) == Some(outputs[i])
  }

  /** Call `n` is the first that raises. */
  ghost predicate FirstRaises(env: Env, trace: seq<Call>, calls: seq<Call>, n: nat) {
    && n < |calls| && env(trace + calls[..n], calls[n]) == None
    && forall i :: 0 <= i < n ==> env(trace + calls[..i], calls[i]).Some?
  }

  /** Calling the skill once per argument set: every call is made and answered in turn, or the
      first that raises is the last. */
  lemma {:induction false} RowsAre(env: Env, skill: string, rows: seq<Args>, trace: seq<Call>)
    ensures var r := RunRows(env, skill, rows, trace);
            var calls := CallsOf(skill, rows);
            && (r.0.Some? ==> AllAnswered(env, trace, calls, r.0.value) && r.1 == trace + calls)
            && (r.0.None? ==> exists n: nat :: FirstRaises(env, trace, calls, n) && r.1 == trace + calls[..n + 1])
  {
    var calls := CallsOf(skill, rows);
    if rows == [] {
      assert trace + calls == trace;
    } else {
      var m := |rows| - 1;
      RowsAre(env, skill, rows[..m], trace);
      assert CallsOf(skill, rows[..m]) == calls[..m];
      assert forall i :: 0 <= i <= m ==> calls[..m][..i] == calls[..i];
      assert trace + calls == trace + calls[..m] + [calls[m]];
      assert calls[..m + 1] == calls;
      var r := RunRows(env, skill, rows[..m], trace);
      if r.0.None? {
        var n: nat :| FirstRaises(env, trace, calls[..m], n) && r.1 == trace + calls[..m][..n + 1];
        assert FirstRaises(env, trace, calls, n);
      } else if env(r.1, calls[m]).None? {
        assert FirstRaises(env, trace, calls, m);
      }
    }
  }

  /** A step whose arguments do not resolve fails without a call. One call: its output is the
      answer. Fanned out: the list of answers and their number, unless a call raises. */
  lemma AttemptIs(env: Env, skill: string, b: map<string, Bound>, trace: seq<Call>)
    ensures var a := AttemptStep(env, skill, b, trace);
            if !HasFanout(b) then
              match BoundArguments(b)
              case None => a == Attempt(None, trace)
              case Some(args) => a == Attempt(env(trace, Call(skill, args)), trace + [Call(skill, args)])
            else
              match FanoutRows(b)
              case None => a == Attempt(None, trace)
              case Some(rows) =>
                var calls := CallsOf(skill, rows);
                if a.output.Some? then
                  a.trace == trace + calls &&
                  exists outputs: seq<Value> :: AllAnswered(env, trace, calls, outputs) &&
                    a.output.value == Obj(map["items" := Arr(outputs), "count" := Num(|rows|)])
                else
                  exists n: nat :: FirstRaises(env, trace, calls, n) && a.trace == trace + calls[..n + 1]
  {
    hide BoundArguments, FanoutRows, HasFanout;
    if HasFanout(b) && FanoutRows(b).Some? {
      RowsAre(env, skill, FanoutRows(b).value, trace);
      hide RunRows, CallsOf;
    }
  }

  /** Step `i` of a run: skipped without a call when something it depends on is not ok, else attempted
      on the outputs of the ok steps before it. */
  lemma StepIs(env: Env, steps: seq<Step>, trace: seq<Call>, i: nat)
    requires Numbered(steps) && Backward(steps) && i < |steps|
    ensures var results := RunPlan(env, steps, trace).results;
            var before, after := Before(env, steps, trace, i), Before(env, steps, trace, i + 1);
            && |results| == |steps| && results[i].index == i && results[i].skill == steps[i].skill
            && if exists e :: e in Edges(steps[i]) && !results[e].outcome.Ok? then
                 results[i].outcome == Skipped && after.trace == before.trace
               else
                 var a := AttemptStep(env, steps[i].skill, Bind(steps[i].args, OkOutputs(results[..i])), before.trace);
                 && after.trace == a.trace
                 && results[i].outcome == match a.output case Some(v) => Ok(v) case None => Failed
  {
    SkippedWhenBlocked(env, steps, trace, i);
    StepAt(env, steps, trace, i);
    StepMoves(env, steps[i], Before(env, steps, trace, i));
    hide *;
  }

  lemma StepAt(env: Env, steps: seq<Step>, trace: seq<Call>, i: nat)
    requires Numbered(steps) && i < |steps|
    ensures var results := RunPlan(env, steps, trace).results;
            var before := Before(env, steps, trace, i);
            && |results| == |steps| && steps[i].index == i
            && before.results == results[..i] && |before.results| == i
            && Before(env, steps, trace, i + 1) == RunStep(env, steps[i], before)
            && |RunStep(env, steps[i], before).results| > i
            && results[i] == RunStep(env, steps[i], before).results[i]
  {
    StepResultIs(env, steps, trace, i);
    NextState(env, steps, trace, i);
    StepMoves(env, steps[i], Before(env, steps, trace, i));
    assert steps[i].index == i;
    hide *;
  }

  lemma NextState(env: Env, steps: seq<Step>, trace: seq<Call>, i: nat)
    requires i < |steps|
    ensures Before(env, steps, trace, i + 1) == RunStep(env, steps[i], Before(env, steps, trace, i))
  {
    assert steps[..i + 1] == steps[..i] + [steps[i]];
    RunSnoc(env, steps[..i], steps[i], trace);
    hide RunPlan, RunStep;
  }

  lemma StepMoves(env: Env, step: Step, run: Run)
    ensures var next := RunStep(env, step, run);
            && |next.results| == |run.results| + 1
            && var r := next.results[|run.results|];
            && r.index == step.index && r.skill == step.skill
            && if r.outcome.Skipped? then next.trace == run.trace
               else
                 var a := AttemptStep(env, step.skill, Bind(step.args, OkOutputs(run.results)), run.trace);
                 && next.trace == a.trace
                 && r.outcome == match a.output case Some(v) => Ok(v) case None => Failed
  {
    hide AttemptStep, Bind, OkOutputs, Blocked;
  }

  /** What a dependency is: a declared one, or a step that an argument refers to. */
  lemma EdgesAre(step: Step)
    ensures forall e :: e in Edges(step) <==>
              e in step.dependsOn || exists k | k in step.args :: RefSource(step.args[k]) == Num(e)
  {
    forall e
      ensures e in Edges(step) <==>
              e in step.dependsOn || exists k | k in step.args :: RefSource(step.args[k]) == Num(e)
    {
      if k :| k in step.args && RefSource(step.args[k]) == Num(e) {
        assert IsStepRef(step.args[k]);
      }
    }
  }
}
