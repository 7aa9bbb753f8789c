/** The restore loops: collecting the target, ordering parents first, writing row by row. */
module RestoreService {
  import opened Text
  import opened Sets
  import opened Sums
  import opened Forest
  import opened Drive
  import opened Store
  import opened Snapshots
  import opened SnapshotService
  import opened Restore

  // ----- the selected entries and everything below them -----

  function EntryChildren(entries: map<Id, Entry>, parent: Id): set<Id> {
    set x | x in entries && entries[x].parent == Some(parent)
  }

  /** What the worklist has found: reachable, containing the selection, and closed under
      children up to what is still on the stack. */
  ghost predicate Collecting(entries: map<Id, Entry>, selected: set<Id>, found: seq<Id>, stack: seq<Id>) {
    && NoDup(found)
    && (forall x :: x in found || x in stack ==> x in Reached(entries, selected))
    && (forall x :: x in selected && x in entries ==> x in found || x in stack)
    && (forall x, y :: x in found && y in EntryChildren(entries, x) ==> y in found || y in stack)
  }

  /** `_expand_with_descendants`: terminates on any entries and finds exactly what is reachable. */
  method ExpandWithDescendants(entries: map<Id, Entry>, selected: set<Id>) returns (found: seq<Id>)
    ensures Lists(found, Reached(entries, selected))
  {
    hide Reached, EntryChildren;
    found := [];
    var stack := ListRows(set x | x in entries && x in selected);
    SelectedReached(entries, selected);
    while stack != []
      invariant Collecting(entries, selected, found, stack)
      decreases Missing(entries, found), |stack|
    {
      var x := stack[|stack| - 1];
      var rest := stack[..|stack| - 1];
      assert stack == rest + [x];
      if x in found {
        assert forall y :: y in stack <==> y in rest || y == x;
        stack := rest;
      } else {
        var children := ListRows(EntryChildren(entries, x));
        CollectOne(entries, selected, found, rest, x, children);
        stack := rest + children;
        found := found + [x];
      }
    }
    CollectEnds(entries, selected, found);
  }

  function Missing(entries: map<Id, Entry>, found: seq<Id>): set<Id> {
    set x | x in entries && x !in found
  }

  lemma SelectedReached(entries: map<Id, Entry>, selected: set<Id>)
    ensures forall x :: x in entries && x in selected ==> x in Reached(entries, selected)
  {
    forall x | x in entries && x in selected
      ensures IsReached(entries, selected, x)
    {
      BelowSelf(EntryParents(entries), x);
    }
  }

  lemma ChildReached(entries: map<Id, Entry>, selected: set<Id>, x: Id, y: Id)
    requires x in Reached(entries, selected) && y in EntryChildren(entries, x)
    ensures y in Reached(entries, selected)
  {
    assert IsReached(entries, selected, x);
    var s :| s in selected && s in entries && Below(EntryParents(entries), s, x);
    BelowChild(EntryParents(entries), s, y);
    assert IsReached(entries, selected, y);
  }

  lemma CollectOne(entries: map<Id, Entry>, selected: set<Id>, found: seq<Id>, rest: seq<Id>, x: Id, children: seq<Id>)
    requires Collecting(entries, selected, found, rest + [x]) && x !in found
    requires Lists(children, EntryChildren(entries, x))
    ensures Collecting(entries, selected, found + [x], rest + children)
    ensures Missing(entries, found + [x]) < Missing(entries, found)
  {
    hide Reached, EntryChildren;
    assert x in rest + [x];
    forall y | y in children
      ensures y in Reached(entries, selected)
    {
      ChildReached(entries, selected, x, y);
    }
    assert x in entries by { ReachedInEntries(entries, selected, x); }
    assert x in Missing(entries, found) && x !in Missing(entries, found + [x]);
  }

  lemma ReachedInEntries(entries: map<Id, Entry>, selected: set<Id>, x: Id)
    requires x in Reached(entries, selected)
    ensures x in entries
  {
  }

  lemma CollectEnds(entries: map<Id, Entry>, selected: set<Id>, found: seq<Id>)
    requires Collecting(entries, selected, found, [])
    ensures Lists(found, Reached(entries, selected))
  {
    var empty: seq<Id> := [];
    forall x | x in Reached(entries, selected)
      ensures x in found
    {
      assert IsReached(entries, selected, x);
      var s :| s in selected && s in entries && Below(EntryParents(entries), s, x);
      var n: nat :| Ancestor(EntryParents(entries), x, n) == Some(s);
      assert s !in empty;
      FoundDownwards(entries, found, s, x, n);
    }
    forall x | x in found
      ensures x in Reached(entries, selected)
    {
    }
  }

  lemma {:induction false} FoundDownwards(entries: map<Id, Entry>, found: seq<Id>, s: Id, x: Id, n: nat)
    requires s in found && Ancestor(EntryParents(entries), x, n) == Some(s)
    requires forall y, z :: y in found && z in EntryChildren(entries, y) ==> z in found
    ensures x in found
    decreases n
  {
    if n > 0 {
      FoundDownwards(entries, found, s, entries[x].parent.value, n - 1);
      assert x in EntryChildren(entries, entries[x].parent.value);
    }
  }

  // ----- parents first -----

  /** The walk of `depth`: up while the parent is an entry not passed yet. */
  function DepthFrom(target: map<Id, Entry>, x: Id, seen: set<Id>): nat
    requires x in target && (x in seen ==> target[x].parent == Some(x))
    decreases target.Keys - seen, if x in seen then 0 else 1
  {
    var parent := target[x].parent;
    if parent.Some? && parent.value in target && parent.value !in seen
    then DepthFrom(target, parent.value, seen + {x}) + 1
    else 0
  }

  /** `depth`: terminates on any entries, cyclic ones included. */
  method DepthOf(target: map<Id, Entry>, x: Id) returns (d: nat)
    requires x in target
    ensures d == DepthFrom(target, x, {})
  {
    d := 0;
    var cur := x;
    var seen: set<Id> := {};
    while target[cur].parent.Some? && target[cur].parent.value in target && target[cur].parent.value !in seen
      invariant cur in target && (cur in seen ==> target[cur].parent == Some(cur))
      invariant d + DepthFrom(target, cur, seen) == DepthFrom(target, x, {})
      decreases target.Keys - seen, if cur in seen then 0 else 1
    {
      seen := seen + {cur};
      cur := target[cur].parent.value;
      d := d + 1;
    }
  }

  /** On acyclic entries the walk never meets what it has passed. */
  lemma {:induction false} DepthIgnoresSeen(target: map<Id, Entry>, rank: map<Id, nat>, x: Id, seen: set<Id>)
    requires IsRank(EntryParents(target), rank) && x in target && x !in seen
    requires forall s :: s in seen && s in target ==> rank[s] > rank[x]
    ensures DepthFrom(target, x, seen) == DepthFrom(target, x, {})
    decreases rank[x]
  {
    var parent := target[x].parent;
    if parent.Some? && parent.value in target {
      assert EntryParents(target)[x] == parent;
      DepthIgnoresSeen(target, rank, parent.value, seen + {x});
      DepthIgnoresSeen(target, rank, parent.value, {} + {x});
    }
  }

  /** On acyclic entries a child is one deeper than its parent. */
  lemma {:induction false} DepthOfChild(target: map<Id, Entry>, rank: map<Id, nat>, x: Id)
    requires IsRank(EntryParents(target), rank) && x in target
    requires target[x].parent.Some? && target[x].parent.value in target
    ensures DepthFrom(target, x, {}) == DepthFrom(target, target[x].parent.value, {}) + 1
  {
    var parent := target[x].parent;
    assert EntryParents(target)[x] == parent;
    DepthIgnoresSeen(target, rank, parent.value, {} + {x});
  }

  /** Depths do not go down along the list. */
  ghost predicate DepthSorted(depths: map<Id, nat>, xs: seq<Id>) {
    && (forall x :: x in xs ==> x in depths)
    && forall i, j :: 0 <= i < j < |xs| ==> depths[xs[i]] <= depths[xs[j]]
  }

  /** The stable sort by depth. */
  method SortByDepth(depths: map<Id, nat>, xs: seq<Id>) returns (sorted: seq<Id>)
    requires NoDup(xs) && forall x :: x in xs ==> x in depths
    ensures NoDup(sorted) && (forall x :: x in sorted <==> x in xs) && DepthSorted(depths, sorted)
  {
    sorted := [];
    for i := 0 to |xs|
      invariant NoDup(sorted) && DepthSorted(depths, sorted)
      invariant forall x :: x in sorted <==> x in xs[..i]
    {
      var x := xs[i];
      assert xs[i] in xs && x !in xs[..i];
      var j := |sorted|;
      while j > 0 && depths[sorted[j - 1]] > depths[x]
        invariant 0 <= j <= |sorted|
        invariant forall k :: j <= k < |sorted| ==> depths[sorted[k]] > depths[x]
      {
        j := j - 1;
      }
      InsertedSorted(depths, sorted, x, j);
      InsertedMembers(sorted, x, j);
      sorted := Inserted(sorted, x, j);
      assert xs[..i + 1] == xs[..i] + [x];
    }
    assert xs[..|xs|] == xs;
  }

  function Inserted(sorted: seq<Id>, x: Id, j: nat): seq<Id>
    requires j <= |sorted|
  {
    sorted[..j] + [x] + sorted[j..]
  }

  lemma InsertedAt(sorted: seq<Id>, x: Id, j: nat, k: nat)
    requires j <= |sorted| && k <= |sorted|
    ensures Inserted(sorted, x, j)[k] == if k < j then sorted[k] else if k == j then x else sorted[k - 1]
  {
  }

  lemma InsertedMembers(sorted: seq<Id>, x: Id, j: nat)
    requires j <= |sorted|
    ensures forall y :: y in Inserted(sorted, x, j) <==> y in sorted || y == x
  {
    assert sorted == sorted[..j] + sorted[j..];
    assert forall y :: y in sorted <==> y in sorted[..j] || y in sorted[j..];
  }

  lemma InsertedSorted(depths: map<Id, nat>, sorted: seq<Id>, x: Id, j: nat)
    requires NoDup(sorted) && DepthSorted(depths, sorted) && x in depths && x !in sorted && j <= |sorted|
    requires j > 0 ==> depths[sorted[j - 1]] <= depths[x]
    requires forall k :: j <= k < |sorted| ==> depths[sorted[k]] > depths[x]
    ensures NoDup(Inserted(sorted, x, j)) && DepthSorted(depths, Inserted(sorted, x, j))
  {
    hide Inserted;
    InsertedMembers(sorted, x, j);
    var longer := Inserted(sorted, x, j);
    assert |longer| == |sorted| + 1 by { InsertedLength(sorted, x, j); }
    forall a, b | 0 <= a < b < |longer|
      ensures longer[a] != longer[b] && depths[longer[a]] <= depths[longer[b]]
    {
      InsertedAt(sorted, x, j, a);
      InsertedAt(sorted, x, j, b);
    }
  }

  lemma InsertedLength(sorted: seq<Id>, x: Id, j: nat)
    requires j <= |sorted|
    ensures |Inserted(sorted, x, j)| == |sorted| + 1
  {
  }

  /** Every parent that is itself restored comes before its child. */
  ghost predicate ParentsFirstIn(target: map<Id, Entry>, xs: seq<Id>) {
    forall i :: 0 <= i < |xs| ==>
      xs[i] in target &&
      (target[xs[i]].parent.Some? && target[xs[i]].parent.value in target ==> target[xs[i]].parent.value in xs[..i])
  }

  /** `_parents_first`: a permutation of the target; on acyclic entries parents come first. */
  method ParentsFirst(target: map<Id, Entry>) returns (ordered: seq<Id>)
    ensures Lists(ordered, target.Keys)
    ensures Acyclic(EntryParents(target)) ==> ParentsFirstIn(target, ordered)
  {
    var rows := ListRows(target.Keys);
    var depths: map<Id, nat> := map[];
    for i := 0 to |rows|
      invariant depths.Keys == SetOf(rows[..i])
      invariant forall x :: x in depths ==> x in target && depths[x] == DepthFrom(target, x, {})
    {
      assert rows[i] in rows;
      var d := DepthOf(target, rows[i]);
      depths := depths[rows[i] := d];
    }
    assert rows[..|rows|] == rows;
    ordered := SortByDepth(depths, rows);
    if Acyclic(EntryParents(target)) {
      SortedIsParentsFirst(target, depths, ordered);
    }
  }

  lemma {:induction false} SortedIsParentsFirst(target: map<Id, Entry>, depths: map<Id, nat>, xs: seq<Id>)
    requires Acyclic(EntryParents(target)) && Lists(xs, target.Keys) && DepthSorted(depths, xs)
    requires forall x :: x in xs ==> depths[x] == DepthFrom(target, x, {})
    ensures ParentsFirstIn(target, xs)
  {
    hide Acyclic, DepthFrom;
    var rank := RankExists(EntryParents(target));
    hide IsRank;
    forall i | 0 <= i < |xs|
      ensures xs[i] in target
      ensures target[xs[i]].parent.Some? && target[xs[i]].parent.value in target ==>
          target[xs[i]].parent.value in xs[..i]
    {
      assert xs[i] in xs;
      var parent := target[xs[i]].parent;
      if parent.Some? && parent.value in target {
        DepthOfChild(target, rank, xs[i]);
        var j :| 0 <= j < |xs| && xs[j] == parent.value;
        assert xs[j] in xs && depths[xs[j]] < depths[xs[i]];
        assert j < i;
        assert xs[..i][j] == parent.value;
      }
    }
  }

  // ----- writing the rows -----

  /** The upsert loop on acyclic entries: whenever a row is written, its parent is the root or
      already a row, so the self-foreign-key is never violated. */
  method WriteRows(store: Store, target: map<Id, Entry>)
    requires Acyclic(EntryParents(target))
    modifies store`items
    ensures store.items == RestoreRows(old(store.items), target)
  {
    hide Acyclic, Lists, RowsUpTo, ParentsFirstIn, RestoreRows, SetOf, NoDup;
    ghost var before := store.items;
    var liveIds := store.items.Keys;
    var ordered := ParentsFirst(target);
    OrderedInTarget(target, ordered);
    NoRows(before, target, ordered);
    for i := 0 to |ordered|
      invariant store.items == RowsUpTo(before, target, SetOf(ordered[..i]))
    {
      var x := ordered[i];
      var e := target[x];
      var parent := e.parent;
      if parent.Some? && parent.value !in target && parent.value !in liveIds {
        parent := None;
      }
      var kind := if x in store.items then store.items[x].kind else e.kind;
      NextListed(ordered, i);
      RowsUntouched(before, target, SetOf(ordered[..i]), x);
      RowsGrow(before, target, SetOf(ordered[..i]), x);
      ParentIsRow(before, target, ordered, i);
      store.PutItem(x, Item(parent, kind, e.name, e.size, e.key, e.checksum, false));
    }
    assert ordered[..|ordered|] == ordered;
    AllRows(before, target, ordered);
  }

  /** The rows with the entries in `done` written. */
  function RowsUpTo(items: map<Id, Item>, target: map<Id, Entry>, done: set<Id>): map<Id, Item> {
    items + map x | x in target && x in done :: RestoredItem(items, target, x)
  }

  lemma OrderedInTarget(target: map<Id, Entry>, ordered: seq<Id>)
    requires Lists(ordered, target.Keys)
    ensures NoDup(ordered) && forall i :: 0 <= i < |ordered| ==> ordered[i] in target
  {
    forall i | 0 <= i < |ordered|
      ensures ordered[i] in target
    {
      assert ordered[i] in ordered;
    }
  }

  lemma NoRows(before: map<Id, Item>, target: map<Id, Entry>, ordered: seq<Id>)
    ensures RowsUpTo(before, target, SetOf(ordered[..0])) == before
  {
  }

  lemma RowsGrow(before: map<Id, Item>, target: map<Id, Entry>, done: set<Id>, x: Id)
    requires x in target
    ensures RowsUpTo(before, target, done + {x}) == RowsUpTo(before, target, done)[x := RestoredItem(before, target, x)]
  {
    hide RestoredItem;
  }

  lemma RowsUntouched(before: map<Id, Item>, target: map<Id, Entry>, done: set<Id>, x: Id)
    requires x !in done
    ensures var rows := RowsUpTo(before, target, done);
            (x in rows <==> x in before) && (x in rows ==> rows[x] == before[x])
  {
    hide RestoredItem;
  }

  /** The parent of the row to be written next is the root or already a row. */
  lemma ParentIsRow(before: map<Id, Item>, target: map<Id, Entry>, ordered: seq<Id>, i: nat)
    requires ParentsFirstIn(target, ordered) && i < |ordered| && ordered[i] in target
    ensures var parent := RestoredParent(before, target, ordered[i]);
            parent.Some? ==> parent.value in RowsUpTo(before, target, SetOf(ordered[..i]))
  {
    hide RestoredItem;
  }

  lemma AllRows(before: map<Id, Item>, target: map<Id, Entry>, ordered: seq<Id>)
    requires Lists(ordered, target.Keys)
    ensures RowsUpTo(before, target, SetOf(ordered)) == RestoreRows(before, target)
  {
    hide RestoredItem;
  }

  /** The mirror loop: trash what is live now but not in the snapshot. */
  method TrashRows(store: Store, keep: set<Id>, scope: Option<set<Id>>)
    modifies store`items
    ensures store.items == TrashExtras(old(store.items), keep, scope)
  {
    var before := store.items;
    var rows := ListRows(before.Keys);
    for i := 0 to |rows|
      invariant store.items.Keys == before.Keys
      invariant forall x :: x in before ==>
                  store.items[x] == if x in rows[..i] then TrashExtras(before, keep, scope)[x] else before[x]
    {
      var x := rows[i];
      assert x in rows && x !in rows[..i];
      assert rows[..i + 1] == rows[..i] + [x];
      if IsExtra(before, keep, scope, x) {
        store.items := store.items[x := before[x].(deleted := true)];
      }
    }
    assert rows[..|rows|] == rows;
  }

  // ----- restore -----

  /** `restore`: safety snapshot, target, rows, mirror. `found` is false when there is no such
      snapshot. */
  method RestoreFrom(store: Store, id: Id, safety: Id, selected: Option<set<Id>>, exact: bool) returns (found: bool)
    requires Inv(store.Now()) && FreshSnapshotId(store.Now(), safety) && store.retention >= 1
    modifies store
    ensures found <==> RestoreSnapshot(old(store.Now()), id, safety, selected, exact).Some?
    ensures store.Now() == if found then RestoreSnapshot(old(store.Now()), id, safety, selected, exact).value
                           else old(store.Now())
  {
    hide Inv, Capture, Prune;
    found := HasSnapshot(store.snapshots, id);
    if !found {
      return;
    }
    Create(store, safety, PreRestore, false);
    var entries := EntriesOf(store.snapshots, id);
    SnapshotsOfInv(store.Now());
    EntriesOk(store.Now(), id);
    hide SnapshotsOk, EntriesOf, IsForest, EntryOk;
    RestoreEntries(store, entries, selected, exact);
  }

  method RestoreEntries(store: Store, entries: map<Id, Entry>, selected: Option<set<Id>>, exact: bool)
    requires IsForest(EntryParents(entries))
    modifies store`items
    ensures store.items == RestoredItems(old(store.items), entries, selected, exact)
  {
    hide RestoreRows, TrashExtras, Reached;
    var target := entries;
    if selected.Some? {
      var found := ExpandWithDescendants(entries, selected.value);
      target := Only(entries, SetOf(found));
      assert SetOf(found) == Reached(entries, selected.value);
      AcyclicShrink(EntryParents(entries), EntryParents(target));
    }
    WriteRows(store, target);
    if exact {
      TrashRows(store, entries.Keys, if selected.None? then None else Some(target.Keys));
    }
  }
}
