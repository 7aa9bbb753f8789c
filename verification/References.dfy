/** Item references inside step arguments: what they point at, how a path into an
    output is followed, and the `*` broadcast over a referenced list. */
module References {
  import opened Text
  import opened Json

  // ----- reference syntax -----

  /** The source a reference names, `Null` when `v` is no reference. */
  function RefSource(v: Value): Value {
    if !v.Obj? then Null
    else if "from" in v.fields then v.fields["from"]
    else if "from_step" in v.fields then v.fields["from_step"]
    else Null
  }

  predicate IsReference(v: Value) {
    v.Obj? && ("from" in v.fields || "from_step" in v.fields)
  }

  predicate IsSelectionRef(v: Value) {
    RefSource(v) == Str("selection")
  }

  /** A reference to an earlier step's output; a boolean source is no step index. */
  predicate IsStepRef(v: Value) {
    RefSource(v).Num?
  }

  /** `str(value.get("path", ""))` */
  function RefPath(v: Value): string
    requires v.Obj?
  {
    if "path" in v.fields then PyStr(v.fields["path"]) else ""
  }

  /** The step indices the arguments refer to. */
  function StepSources(args: Args): set<int> {
    set k | k in args && IsStepRef(args[k]) :: RefSource(args[k]).n
  }

  // ----- following a path -----

  /** Python's `xs[i]`, negative indices counting from the end. */
  function ListItem(xs: seq<Value>, i: int): Option<Value> {
    if 0 <= i < |xs| then Some(xs[i])
    else if -|xs| <= i < 0 then Some(xs[|xs| + i])
    else None
  }

  function Follow(v: Value, part: string): Option<Value> {
    match v
    case Arr(items) => (match ParseInt(part) case Some(i) => ListItem(items, i) case None => None)
    case Obj(fields) => if part in fields then Some(fields[part]) else None
    case _ => None
  }

  function Descend(v: Value, parts: seq<string>): Option<Value> {
    if parts == [] then Some(v)
    else match Follow(v, parts[0])
         case Some(w) => Descend(w, parts[1..])
         case None => None
  }

  /** The value a dotted path leads to. */
  function PathValue(output: Value, path: string): Option<Value> {
    Descend(output, Parts(path))
  }

  method ResolvePath(output: Value, path: string) returns (r: Option<Value>)
    ensures r == PathValue(output, path)
  {
    var parts := Parts(path);
    var current := output;
    for i := 0 to |parts|
      invariant Descend(current, parts[i..]) == PathValue(output, path)
    {
      var next := Follow(current, parts[i]);
      assert parts[i..][1..] == parts[i + 1..];
      if next.None? {
        return None;
      }
      current := next.value;
    }
    r := Some(current);
  }

  lemma {:induction false} DescendConcat(v: Value, a: seq<string>, b: seq<string>)
    ensures Descend(v, a + b) ==
            match Descend(v, a) case Some(w) => Descend(w, b) case None => None
  {
    if a == [] {
      assert [] + b == b;
    } else {
      assert (a + b)[1..] == a[1..] + b;
      match Follow(v, a[0])
      case Some(w) => DescendConcat(w, a[1..], b);
      case None =>
    }
  }

  // ----- destinations -----

  /** True when a destination argument is taken from something known not to be a folder. */
  predicate DestinationProblem(argName: string, item: Value) {
    && argName == "parent_id"
    && item.Obj?
    && "item_type" in item.fields
    && item.fields["item_type"] != Null
    && Upper(PyStr(item.fields["item_type"])) != "FOLDER"
  }

  /** The object that holds the leaf of the path; `Null` for the empty path. */
  function ReferenceParent(output: Value, path: string): Option<Value> {
    var parts := Parts(path);
    if parts == [] then Some(Null)
    else PathValue(output, Join(parts[..|parts| - 1], '.'))
  }

  function CheckedLeaf(argName: string, output: Value, path: string): Option<Value> {
    match (PathValue(output, path), ReferenceParent(output, path))
    case (Some(leaf), Some(parent)) =>
      if DestinationProblem(argName, parent) then None else Some(leaf)
    case _ => None
  }

  method ResolveChecked(argName: string, output: Value, path: string) returns (r: Option<Value>)
    ensures r == CheckedLeaf(argName, output, path)
  {
    var leaf := ResolvePath(output, path);
    if leaf.None? {
      return None;
    }
    var parts := Parts(path);
    var parent := Some(Null);
    if parts != [] {
      parent := ResolvePath(output, Join(parts[..|parts| - 1], '.'));
    }
    if parent.None? || DestinationProblem(argName, parent.value) {
      return None;
    }
    r := leaf;
  }

  // ----- arguments bound to the results so far -----

  /** An argument together with the output it reads: what resolution depends on. */
  datatype Bound = Literal(value: Value) | Output(source: Option<Value>, path: string)

  function BindOne(v: Value, ok: map<int, Value>): Bound {
    if !IsStepRef(v) then Literal(v)
    else
      var from := RefSource(v).n;
      Output(if from in ok then Some(ok[from]) else None, RefPath(v))
  }

  function Bind(args: Args, ok: map<int, Value>): map<string, Bound> {
    map k | k in args :: BindOne(args[k], ok)
  }

  function BoundValue(key: string, b: Bound): Option<Value> {
    match b
    case Literal(v) => Some(v)
    case Output(None, _) => None
    case Output(Some(output), path) => CheckedLeaf(key, output, path)
  }

  /** Every cell filled, or nothing. */
  function AllSome(cells: map<string, Option<Value>>): Option<Args> {
    if forall k | k in cells :: cells[k].Some?
    then Some(map k | k in cells :: cells[k].value)
    else None
  }

  function BoundCells(b: map<string, Bound>): map<string, Option<Value>> {
    map k | k in b :: BoundValue(k, b[k])
  }

  /** All arguments resolved, or nothing when one of them cannot be. */
  function BoundArguments(b: map<string, Bound>): Option<Args> {
    AllSome(BoundCells(b))
  }

  method ResolveArguments(args: Args, ok: map<int, Value>) returns (r: Option<Args>)
    ensures r == BoundArguments(Bind(args, ok))
  {
    hide CheckedLeaf;
    ghost var b := Bind(args, ok);
    ghost var cells := BoundCells(b);
    var resolved: Args := map[];
    var todo := args.Keys;
    while todo != {}
      invariant todo <= args.Keys
      invariant resolved.Keys == args.Keys - todo
      invariant forall k | k in resolved :: cells[k] == Some(resolved[k])
      decreases todo
    {
      var key :| key in todo;
      var v := args[key];
      if !IsStepRef(v) {
        resolved := resolved[key := v];
      } else if RefSource(v).n !in ok {
        assert cells[key].None?;
        return None;
      } else {
        var leaf := ResolveChecked(key, ok[RefSource(v).n], RefPath(v));
        if leaf.None? {
          assert cells[key].None?;
          return None;
        }
        resolved := resolved[key := leaf.value];
      }
      todo := todo - {key};
    }
    assert resolved == AllSome(cells).value;
    r := Some(resolved);
  }

  // ----- the wildcard -----

  /** Position of the first `*` segment. */
  function FirstStar(parts: seq<string>): (r: Option<nat>)
    ensures r.None? <==> "*" !in parts
    ensures r.Some? ==> r.value < |parts| && parts[r.value] == "*" && "*" !in parts[..r.value]
  {
    if parts == [] then None
    else if parts[0] == "*" then Some(0)
    else match FirstStar(parts[1..]) case None => None case Some(i) => Some(i + 1)
  }

  /** The path before and after its first `*`. */
  function WildcardSplit(path: string): Option<(string, string)> {
    var parts := Parts(path);
    match FirstStar(parts)
    case None => None
    case Some(i) => Some((Join(parts[..i], '.'), Join(parts[i + 1..], '.')))
  }

  predicate IsWild(b: Bound) {
    b.Output? && WildcardSplit(b.path).Some?
  }

  function WildKeys(b: map<string, Bound>): set<string> {
    set k | k in b && IsWild(b[k])
  }

  predicate HasFanout(b: map<string, Bound>) {
    WildKeys(b) != {}
  }

  function Shared(b: map<string, Bound>): map<string, Bound> {
    map k | k in b && !IsWild(b[k]) :: b[k]
  }

  /** The list a wildcard argument ranges over. */
  function Collection(b: Bound): Option<seq<Value>>
    requires IsWild(b)
  {
    match b.source
    case None => None
    case Some(output) =>
      match PathValue(output, WildcardSplit(b.path).value.0)
      case Some(Arr(items)) => Some(items)
      case _ => None
  }

  /** The value a wildcard argument takes for one element of its list. */
  function ElementValue(key: string, b: Bound, element: Value): Option<Value>
    requires IsWild(b)
  {
    var post := WildcardSplit(b.path).value.1;
    if post == "" then Some(element) else CheckedLeaf(key, element, post)
  }

  /** Cell `key` of row `i`: an element for a wildcard argument, the shared value otherwise. */
  function RowCell(key: string, b: Bound, i: nat): Option<Value> {
    if !IsWild(b) then BoundValue(key, b)
    else match Collection(b)
         case Some(items) => if i < |items| then ElementValue(key, b, items[i]) else None
         case None => None
  }

  function RowCells(b: map<string, Bound>, i: nat): map<string, Option<Value>> {
    map k | k in b :: RowCell(k, b[k], i)
  }

  predicate RangesOver(b: Bound, n: nat)
    requires IsWild(b)
  {
    Collection(b).Some? && |Collection(b).value| == n
  }

  /** The shared arguments resolve and every wildcard ranges over a list of length `n`. */
  predicate FanoutReady(b: map<string, Bound>, n: nat) {
    && BoundArguments(Shared(b)).Some?
    && forall k | k in WildKeys(b) :: RangesOver(b[k], n)
  }

  ghost function FanoutLength(b: map<string, Bound>): nat {
    if WildKeys(b) == {} then 0
    else
      var k :| k in WildKeys(b);
      if Collection(b[k]).Some? then |Collection(b[k]).value| else 0
  }

  function Row(b: map<string, Bound>, i: nat): Option<Args> {
    AllSome(RowCells(b, i))
  }

  ghost predicate FanoutResolves(b: map<string, Bound>, n: nat) {
    FanoutReady(b, n) && forall i | 0 <= i < n :: Row(b, i).Some?
  }

  /** One argument set per element of the referenced lists. */
  ghost function FanoutRows(b: map<string, Bound>): Option<seq<Args>> {
    var n := FanoutLength(b);
    if FanoutResolves(b, n)
    then Some(seq(n, i requires 0 <= i < n && FanoutResolves(b, n) => Row(b, i).value))
    else None
  }

  lemma FanoutLengthIs(b: map<string, Bound>, n: nat)
    requires FanoutReady(b, n) && HasFanout(b)
    ensures FanoutLength(b) == n
  {
    hide BoundArguments, Collection, IsWild;
  }

  lemma FanoutFails(b: map<string, Bound>, k: string, other: string)
    requires k in WildKeys(b) && other in WildKeys(b)
    requires Collection(b[k]).None? ||
             (Collection(b[other]).Some? && |Collection(b[k]).value| != |Collection(b[other]).value|)
    ensures FanoutRows(b).None?
  {
    hide BoundArguments, Collection, IsWild;
    assert !exists n: nat {:trigger RangesOver(b[k], n)} :: RangesOver(b[k], n) && RangesOver(b[other], n);
  }

  lemma NoFanout(b: map<string, Bound>)
    requires !HasFanout(b)
    ensures FanoutLength(b) == 0
  {
  }

  method ResolveFanout(args: Args, ok: map<int, Value>) returns (r: Option<seq<Args>>)
    ensures r == FanoutRows(Bind(args, ok))
  {
    var b := Bind(args, ok);
    hide AllSome, Collection, RowCells, FanoutLength, BindOne, IsWild, BoundCells;
    var shared := map k | k in args && !IsWild(b[k]) :: args[k];
    assert Bind(shared, ok) == Shared(b);
    var base := ResolveArguments(shared, ok);
    if base.None? {
      return None;
    }
    var lists, n, same := ResolveLists(b);
    if !same {
      return None;
    }
    var rows: seq<Args> := [];
    for i := 0 to n
      invariant |rows| == i
      invariant forall j | 0 <= j < i :: Row(b, j) == Some(rows[j])
    {
      var row := ResolveRow(b, base.value, lists, i);
      if row.None? {
        return None;
      }
      rows := rows + [row.value];
    }
    assert FanoutResolves(b, n);
    assert rows == FanoutRows(b).value;
    r := Some(rows);
  }

  /** The list each wildcard ranges over and their common length; `same` is false when one
      is no list or the lengths differ. */
  method ResolveLists(b: map<string, Bound>)
    returns (lists: map<string, seq<Value>>, n: nat, same: bool)
    requires BoundArguments(Shared(b)).Some?
    ensures !same ==> FanoutRows(b).None?
    ensures same ==> FanoutReady(b, n) && FanoutLength(b) == n && lists.Keys == WildKeys(b)
    ensures same ==> forall k | k in WildKeys(b) :: Collection(b[k]) == Some(lists[k])
  {
    hide BoundArguments, FanoutRows, FanoutLength, Descend, Parts, Join, FirstStar;
    lists, n, same := map[], 0, false;
    var wild := WildKeys(b);
    var todo := wild;
    while todo != {}
      invariant todo <= wild && lists.Keys == wild - todo
      invariant forall k | k in lists :: Collection(b[k]) == Some(lists[k]) && |lists[k]| == n
      invariant todo == wild ==> n == 0
      decreases todo
    {
      var key :| key in todo;
      if b[key].source.None? {
        FanoutFails(b, key, key);
        return;
      }
      var collection := ResolvePath(b[key].source.value, WildcardSplit(b[key].path).value.0);
      if collection.None? || !collection.value.Arr? {
        FanoutFails(b, key, key);
        return;
      }
      var items := collection.value.items;
      assert Collection(b[key]) == Some(items);
      if lists != map[] && n != |items| {
        ghost var other :| other in lists.Keys;
        FanoutFails(b, key, other);
        return;
      }
      n := |items|;
      lists := lists[key := items];
      todo := todo - {key};
    }
    same := true;
    if wild != {} {
      FanoutLengthIs(b, n);
    } else {
      NoFanout(b);
    }
  }

  lemma SharedCells(b: map<string, Bound>, base: Args, i: nat)
    requires BoundArguments(Shared(b)) == Some(base)
    ensures base.Keys + WildKeys(b) == RowCells(b, i).Keys
    ensures forall k | k in base :: RowCells(b, i)[k] == Some(base[k])
  {
    hide BoundValue, IsWild;
    forall k | k in base
      ensures k in b && RowCells(b, i)[k] == Some(base[k])
    {
      assert BoundCells(Shared(b))[k] == BoundValue(k, b[k]);
    }
  }

  lemma WildCell(b: map<string, Bound>, items: seq<Value>, key: string, i: nat)
    requires key in WildKeys(b) && Collection(b[key]) == Some(items) && i < |items|
    ensures key in RowCells(b, i) && RowCells(b, i)[key] == ElementValue(key, b[key], items[i])
  {
  }

  method ResolveElement(key: string, b: Bound, element: Value) returns (r: Option<Value>)
    requires IsWild(b)
    ensures r == ElementValue(key, b, element)
  {
    var post := WildcardSplit(b.path).value.1;
    if post == "" {
      return Some(element);
    }
    r := ResolveChecked(key, element, post);
  }

  /** The cells filled so far. */
  ghost predicate Filling(cells: map<string, Option<Value>>, row: Args, todo: set<string>) {
    && row.Keys + todo == cells.Keys
    && forall k | k in row :: cells[k] == Some(row[k])
  }

  lemma FillOne(cells: map<string, Option<Value>>, row: Args, todo: set<string>, key: string, v: Value)
    requires Filling(cells, row, todo) && key in todo && cells[key] == Some(v)
    ensures Filling(cells, row[key := v], todo - {key})
  {
  }

  /** The argument set for element `i`: the shared arguments and one value per wildcard. */
  method ResolveRow(b: map<string, Bound>, base: Args, lists: map<string, seq<Value>>, i: nat)
    returns (r: Option<Args>)
    requires BoundArguments(Shared(b)) == Some(base)
    requires lists.Keys == WildKeys(b)
    requires forall k | k in lists :: Collection(b[k]) == Some(lists[k]) && i < |lists[k]|
    ensures r == Row(b, i)
  {
    SharedCells(b, base, i);
    ghost var cells := RowCells(b, i);
    WildKeysBound(b);
    hide BoundArguments, Collection, ElementValue, IsWild, Shared, RowCells, AllSome, WildKeys;
    var row := base;
    var todo := lists.Keys;
    assert Filling(cells, row, todo);
    while todo != {}
      invariant todo <= lists.Keys && Filling(cells, row, todo)
      decreases todo
    {
      hide Filling;
      var key :| key in todo;
      var leaf := ResolveElement(key, b[key], lists[key][i]);
      WildCell(b, lists[key], key, i);
      if leaf.None? {
        EmptyCell(cells, key);
        return None;
      }
      FillOne(cells, row, todo, key, leaf.value);
      row := row[key := leaf.value];
      todo := todo - {key};
    }
    FilledRow(cells, row);
    r := Some(row);
  }

  lemma WildKeysBound(b: map<string, Bound>)
    ensures forall k | k in WildKeys(b) :: k in b && IsWild(b[k])
  {
  }

  lemma EmptyCell(cells: map<string, Option<Value>>, key: string)
    requires key in cells && cells[key].None?
    ensures AllSome(cells).None?
  {
  }

  lemma FilledRow(cells: map<string, Option<Value>>, row: Args)
    requires Filling(cells, row, {})
    ensures AllSome(cells) == Some(row)
  {
    assert row == map k | k in cells :: cells[k].value;
  }

  // ----- fan-out refines single references -----

  /** The same path with its first `*` replaced by the index `i`. */
  function AtIndex(path: string, i: nat): string
    requires WildcardSplit(path).Some?
  {
    var parts := Parts(path);
    Join(parts[FirstStar(parts).value := Numeral(i)], '.')
  }

  function BoundAt(b: map<string, Bound>, i: nat): map<string, Bound> {
    map k | k in b :: if IsWild(b[k]) then b[k].(path := AtIndex(b[k].path, i)) else b[k]
  }

  /** The arguments with element `i` of every wildcard list written out. */
  function ArgsAt(args: Args, i: nat): Args {
    map k | k in args ::
      if IsStepRef(args[k]) && WildcardSplit(RefPath(args[k])).Some?
      then Obj(args[k].fields["path" := Str(AtIndex(RefPath(args[k]), i))])
      else args[k]
  }

  lemma StarFollow(items: seq<Value>, i: nat)
    requires i < |items|
    ensures Follow(Arr(items), Numeral(i)) == Some(items[i])
  {
    ParseNumeral(i);
  }

  function CheckedParts(argName: string, v: Value, parts: seq<string>): Option<Value> {
    match (Descend(v, parts), if parts == [] then Some(Null) else Descend(v, parts[..|parts| - 1]))
    case (Some(leaf), Some(parent)) =>
      if DestinationProblem(argName, parent) then None else Some(leaf)
    case _ => None
  }

  lemma CheckedJoin(argName: string, v: Value, parts: seq<string>)
    requires Segments(parts, '.')
    ensures CheckedLeaf(argName, v, Join(parts, '.')) == CheckedParts(argName, v, parts)
  {
    hide Descend, Join, Parts;
    PartsJoin(parts);
    if parts != [] {
      PartsJoin(parts[..|parts| - 1]);
    }
  }

  lemma DescendAtIndex(v: Value, pre: seq<string>, i: nat, rest: seq<string>, items: seq<Value>)
    requires Descend(v, pre) == Some(Arr(items)) && i < |items|
    ensures Descend(v, pre + [Numeral(i)] + rest) == Descend(items[i], rest)
  {
    assert pre + [Numeral(i)] + rest == pre + ([Numeral(i)] + rest);
    DescendConcat(v, pre, [Numeral(i)] + rest);
    StarFollow(items, i);
    assert ([Numeral(i)] + rest)[1..] == rest;
  }

  lemma CheckedAtIndex(argName: string, v: Value, pre: seq<string>, i: nat, rest: seq<string>,
                       items: seq<Value>)
    requires Descend(v, pre) == Some(Arr(items)) && i < |items|
    ensures CheckedParts(argName, v, pre + [Numeral(i)] + rest) ==
            if rest == [] then Some(items[i]) else CheckedParts(argName, items[i], rest)
  {
    var at := pre + [Numeral(i)] + rest;
    DescendAtIndex(v, pre, i, rest, items);
    hide Descend;
    if rest == [] {
      assert at[..|at| - 1] == pre;
      assert Descend(items[i], []) == Some(items[i]) by { DescendNothing(items[i]); }
    } else {
      assert at[..|at| - 1] == pre + [Numeral(i)] + rest[..|rest| - 1];
      DescendAtIndex(v, pre, i, rest[..|rest| - 1], items);
    }
  }

  lemma DescendNothing(v: Value)
    ensures Descend(v, []) == Some(v)
  {
  }

  lemma JoinNonEmpty(parts: seq<string>)
    requires Segments(parts, '.')
    ensures Join(parts, '.') == "" <==> parts == []
  {
  }

  lemma PutAt(parts: seq<string>, k: nat, part: string)
    requires k < |parts|
    ensures parts[k := part] == parts[..k] + [part] + parts[k + 1..]
  {
  }

  /** The reference with element `i` written out reads that element, then what follows. */
  lemma AtIndexChecked(key: string, output: Value, path: string, i: nat, items: seq<Value>)
    requires FirstStar(Parts(path)).Some? && i < |items|
    requires Descend(output, Parts(path)[..FirstStar(Parts(path)).value]) == Some(Arr(items))
    ensures var rest := Parts(path)[FirstStar(Parts(path)).value + 1..];
            CheckedLeaf(key, output, AtIndex(path, i)) ==
            if rest == [] then Some(items[i]) else CheckedParts(key, items[i], rest)
  {
    hide Descend, Join, CheckedLeaf, CheckedParts, Parts;
    var parts := Parts(path);
    var k := FirstStar(parts).value;
    NumeralDenotes(i);
    NumeralHasNo(i, '.');
    PutAt(parts, k, Numeral(i));
    CheckedJoin(key, output, parts[..k] + [Numeral(i)] + parts[k + 1..]);
    CheckedAtIndex(key, output, parts[..k], i, parts[k + 1..], items);
  }

  lemma RestChecked(key: string, element: Value, rest: seq<string>)
    requires Segments(rest, '.')
    ensures (if Join(rest, '.') == "" then Some(element) else CheckedLeaf(key, element, Join(rest, '.'))) ==
            if rest == [] then Some(element) else CheckedParts(key, element, rest)
  {
    hide CheckedLeaf, CheckedParts, Join;
    JoinNonEmpty(rest);
    CheckedJoin(key, element, rest);
  }

  /** One element of a broadcast is the single reference written out for its index,
      destination check included. */
  lemma ElementIsSingle(key: string, b: Bound, i: nat)
    requires IsWild(b)
    requires Collection(b).Some? && i < |Collection(b).value|
    ensures BoundValue(key, b.(path := AtIndex(b.path, i))) == ElementValue(key, b, Collection(b).value[i])
  {
    var output, items := b.source.value, Collection(b).value;
    var parts := Parts(b.path);
    var k := FirstStar(parts).value;
    hide Descend, Join, CheckedLeaf, CheckedParts, Parts, AtIndex;
    PartsJoin(parts[..k]);
    AtIndexChecked(key, output, b.path, i, items);
    RestChecked(key, items[i], parts[k + 1..]);
  }

  lemma BindWithPath(v: Value, path: string, ok: map<int, Value>)
    requires IsStepRef(v)
    ensures BindOne(Obj(v.fields["path" := Str(path)]), ok) == Output(BindOne(v, ok).source, path)
  {
    assert "path"[0] != "from"[0] && |"path"| != |"from_step"|;
  }

  lemma BindArgsAt(args: Args, ok: map<int, Value>, i: nat)
    ensures Bind(ArgsAt(args, i), ok) == BoundAt(Bind(args, ok), i)
  {
    forall k | k in args
      ensures BindOne(ArgsAt(args, i)[k], ok) == BoundAt(Bind(args, ok), i)[k]
    {
      if IsStepRef(args[k]) && WildcardSplit(RefPath(args[k])).Some? {
        BindWithPath(args[k], AtIndex(RefPath(args[k]), i), ok);
      }
    }
  }

  lemma RowIsSingle(b: map<string, Bound>, n: nat, i: nat)
    requires FanoutReady(b, n) && i < n
    ensures Row(b, i) == BoundArguments(BoundAt(b, i))
  {
    hide BoundArguments, BoundValue, ElementValue, AtIndex, Collection;
    forall k | k in b
      ensures RowCell(k, b[k], i) == BoundValue(k, BoundAt(b, i)[k])
    {
      if IsWild(b[k]) {
        assert k in WildKeys(b) && RangesOver(b[k], n);
        ElementIsSingle(k, b[k], i);
      }
    }
    assert RowCells(b, i) == BoundCells(BoundAt(b, i));
    ArgumentsOfCells(BoundAt(b, i));
  }

  lemma ArgumentsOfCells(b: map<string, Bound>)
    ensures BoundArguments(b) == AllSome(BoundCells(b))
  {
  }

  /** Fan-out succeeds exactly when the shared arguments resolve, every `*` ranges over a
      list, the lists have one length `n`, and for every `i < n` the arguments with `*`
      replaced by `i` resolve; row `i` is what they resolve to. */
  lemma FanoutRefinesSingle(args: Args, ok: map<int, Value>)
    requires HasFanout(Bind(args, ok))
    ensures FanoutRows(Bind(args, ok)).Some? <==>
            exists n: nat ::
              && FanoutReady(Bind(args, ok), n)
              && forall i | 0 <= i < n :: BoundArguments(Bind(ArgsAt(args, i), ok)).Some?
    ensures FanoutRows(Bind(args, ok)).Some? ==>
              var rows := FanoutRows(Bind(args, ok)).value;
              && FanoutReady(Bind(args, ok), |rows|)
              && forall i | 0 <= i < |rows| :: BoundArguments(Bind(ArgsAt(args, i), ok)) == Some(rows[i])
  {
    hide BoundArguments, Bind, ArgsAt, Row, FanoutReady, HasFanout, FanoutLength;
    var b := Bind(args, ok);
    forall n: nat, i | FanoutReady(b, n) && 0 <= i < n
      ensures BoundArguments(Bind(ArgsAt(args, i), ok)) == Row(b, i)
    {
      BindArgsAt(args, ok, i);
      RowIsSingle(b, n, i);
    }
    forall n: nat | FanoutReady(b, n)
      ensures FanoutLength(b) == n
    {
      FanoutLengthIs(b, n);
    }
  }
}
