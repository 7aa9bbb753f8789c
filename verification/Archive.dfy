/** Bundling a selection into a zip: which files are collected, and under which names. */
module Archive {
  import opened Text
  import opened Sets
  import opened Forest
  import opened Names
  import opened Drive
  import opened Siblings

  const FOLDER_PAGE := 500

  /** The items, the order in which the database lists each folder, and the stored blobs. */
  datatype View = View(items: map<Id, Item>, order: map<Id, seq<Id>>, stored: set<Key>)

  type File = (string, Key)

  datatype Bundle = Files(files: seq<File>) | NoBundle(error: Error)

  function LiveChildren(items: map<Id, Item>, folder: Id): set<Id> {
    set x | x in items && IsLive(items, x) && items[x].parent == Some(folder)
  }

  ghost predicate ViewOk(v: View) {
    && Acyclic(ItemParents(v.items))
    && v.order.Keys == v.items.Keys
    && forall x :: x in v.items ==> Lists(v.order[x], LiveChildren(v.items, x))
  }

  ghost predicate Ranked(v: View, rank: map<Id, nat>) {
    ViewOk(v) && IsRank(ItemParents(v.items), rank)
  }

  // ----- what is collected -----

  function OwnFile(v: View, x: Id, path: string): seq<File>
    requires x in v.items
  {
    var key := v.items[x].key;
    if key.Some? && key.value in v.stored then [(path, key.value)] else []
  }

  /** How far below the deepest rank an item can be. */
  ghost function Room(v: View, rank: map<Id, nat>, x: Id): nat
    requires Ranked(v, rank) && x in v.items
  {
    |ItemParents(v.items)| - rank[x]
  }

  /** The files of an item placed at `path`: its own, or those of the folder. */
  ghost function FilesAt(v: View, rank: map<Id, nat>, x: Id, path: string): seq<File>
    requires Ranked(v, rank) && x in v.items
    decreases Room(v, rank, x), 1, 0
  {
    if v.items[x].kind.File? then OwnFile(v, x, path) else Walk(v, rank, x, |v.order[x]|, path)
  }

  /** The files of the first `n` children of a folder. */
  ghost function Walk(v: View, rank: map<Id, nat>, folder: Id, n: nat, prefix: string): seq<File>
    requires Ranked(v, rank) && folder in v.items && n <= |v.order[folder]|
    decreases Room(v, rank, folder), 0, n
  {
    if n == 0 then []
    else
      ChildRoom(v, rank, folder, n - 1);
      var child := v.order[folder][n - 1];
      Walk(v, rank, folder, n - 1, prefix) + FilesAt(v, rank, child, prefix + "/" + v.items[child].name)
  }

  lemma ChildRoom(v: View, rank: map<Id, nat>, folder: Id, i: nat)
    requires Ranked(v, rank) && folder in v.items && i < |v.order[folder]|
    ensures var child := v.order[folder][i];
            && child in v.items && IsLive(v.items, child) && v.items[child].parent == Some(folder)
            && Room(v, rank, child) < Room(v, rank, folder)
  {
    var child := v.order[folder][i];
    assert child in v.order[folder];
    assert child in LiveChildren(v.items, folder);
    assert ItemParents(v.items)[child] == Some(folder);
  }

  // ----- the walk, page by page -----

  /** One page of `list_children` and the number of children. */
  method ListChildren(v: View, folder: Id, offset: nat, limit: nat) returns (page: seq<Id>, total: nat)
    requires folder in v.order && offset <= |v.order[folder]|
    ensures total == |v.order[folder]|
    ensures page == v.order[folder][offset..if offset + limit < total then offset + limit else total]
  {
    total := |v.order[folder]|;
    page := v.order[folder][offset..if offset + limit < total then offset + limit else total];
  }

  /** `_collect_folder`: terminates on a forest and collects every page of every folder. */
  method CollectFolder(v: View, ghost rank: map<Id, nat>, folder: Id, prefix: string, files: seq<File>)
    returns (more: seq<File>)
    requires Ranked(v, rank) && folder in v.items
    ensures more == files + Walk(v, rank, folder, |v.order[folder]|, prefix)
    decreases Room(v, rank, folder), 1
  {
    OrderKnown(v, rank, folder);
    assert Walk(v, rank, folder, 0, prefix) == [];
    hide Ranked, Room, Walk;
    more := files;
    var offset := 0;
    while true
      invariant offset <= |v.order[folder]|
      invariant more == files + Walk(v, rank, folder, offset, prefix)
      decreases |v.order[folder]| - offset
    {
      var children, total := ListChildren(v, folder, offset, FOLDER_PAGE);
      if children == [] {
        break;
      }
      more := CollectPage(v, rank, folder, offset, children, prefix, files, more);
      offset := offset + |children|;
      if offset >= total {
        break;
      }
    }
  }

  /** The children of one page, which starts at `offset`. */
  method CollectPage(v: View, ghost rank: map<Id, nat>, folder: Id, ghost offset: nat, children: seq<Id>,
                     prefix: string, ghost before: seq<File>, files: seq<File>) returns (more: seq<File>)
    requires Ranked(v, rank) && folder in v.items && offset + |children| <= |v.order[folder]|
    requires children == v.order[folder][offset..offset + |children|]
    requires files == before + Walk(v, rank, folder, offset, prefix)
    ensures more == before + Walk(v, rank, folder, offset + |children|, prefix)
    decreases Room(v, rank, folder), 0
  {
    hide Ranked, Room, Walk, FilesAt;
    more := files;
    for i := 0 to |children|
      invariant more == before + Walk(v, rank, folder, offset + i, prefix)
    {
      var child := children[i];
      ChildRoom(v, rank, folder, offset + i);
      WalkNext(v, rank, folder, offset + i, prefix);
      var path := prefix + "/" + v.items[child].name;
      AtOwn(v, rank, child, path);
      if v.items[child].kind.File? {
        more := more + OwnFile(v, child, path);
      } else {
        more := CollectFolder(v, rank, child, path, more);
      }
    }
  }

  lemma OrderKnown(v: View, rank: map<Id, nat>, folder: Id)
    requires Ranked(v, rank) && folder in v.items
    ensures v.order.Keys == v.items.Keys
  {
  }

  lemma WalkNext(v: View, rank: map<Id, nat>, folder: Id, n: nat, prefix: string)
    requires Ranked(v, rank) && folder in v.items && n < |v.order[folder]| && v.order[folder][n] in v.items
    ensures var child := v.order[folder][n];
            Walk(v, rank, folder, n + 1, prefix) ==
            Walk(v, rank, folder, n, prefix) + FilesAt(v, rank, child, prefix + "/" + v.items[child].name)
  {
    hide Room;
  }

  lemma AtOwn(v: View, rank: map<Id, nat>, x: Id, path: string)
    requires Ranked(v, rank) && x in v.items
    ensures FilesAt(v, rank, x, path) ==
            if v.items[x].kind.File? then OwnFile(v, x, path) else Walk(v, rank, x, |v.order[x]|, path)
  {
    hide Room;
  }

  // ----- the selection -----

  function SetOfNames(names: seq<string>): set<string> {
    set n | n in names
  }

  /** Top-level names after `_dedupe`. */
  ghost function TopNames(items: map<Id, Item>, ids: seq<Id>): (names: seq<string>)
    requires forall x :: x in ids ==> x in items
    ensures |names| == |ids|
  {
    if ids == [] then []
    else
      var before := TopNames(items, ids[..|ids| - 1]);
      var name := items[ids[|ids| - 1]].name;
      var (stem, ext) := SplitArchiveName(name);
      before + [FreeName(SetOfNames(before), name, stem, ext)]
  }

  ghost function Selected(v: View, rank: map<Id, nat>, ids: seq<Id>): seq<File>
    requires Ranked(v, rank) && forall x :: x in ids ==> x in v.items
  {
    if ids == [] then []
    else
      var last := |ids| - 1;
      Selected(v, rank, ids[..last]) + FilesAt(v, rank, ids[last], TopNames(v.items, ids)[last])
  }

  /** `archive` */
  method Bundled(v: View, ghost rank: map<Id, nat>, ids: seq<Id>) returns (result: Bundle)
    requires Ranked(v, rank)
    ensures ids == [] ==> result == NoBundle(InvalidOperation)
    ensures ids != [] && (exists x :: x in ids && !IsLive(v.items, x)) ==> result == NoBundle(NotFound)
    ensures ids != [] && (forall x :: x in ids ==> IsLive(v.items, x)) ==>
              result == if Selected(v, rank, ids) == [] then NoBundle(InvalidOperation)
                        else Files(Selected(v, rank, ids))
  {
    hide Ranked, Walk, FilesAt, Room, FreeName, IsFreeName;
    if ids == [] {
      return NoBundle(InvalidOperation);
    }
    var files: seq<File> := [];
    var used: set<string> := {};
    for i := 0 to |ids|
      invariant forall x :: x in ids[..i] ==> IsLive(v.items, x)
      invariant used == SetOfNames(TopNames(v.items, ids[..i]))
      invariant files == Selected(v, rank, ids[..i])
    {
      var x := ids[i];
      assert ids[i] in ids;
      if !IsLive(v.items, x) {
        return NoBundle(NotFound);
      }
      SelectedNext(v, rank, ids, i);
      hide Selected, TopNames, SetOfNames;
      var name := v.items[x].name;
      var (stem, ext) := SplitArchiveName(name);
      var top := ResolveConflict(used, name, stem, ext);
      used := used + {top};
      AtOwn(v, rank, x, top);
      if v.items[x].kind.File? {
        files := files + OwnFile(v, x, top);
      } else {
        files := CollectFolder(v, rank, x, top, files);
      }
    }
    assert ids[..|ids|] == ids;
    result := if files == [] then NoBundle(InvalidOperation) else Files(files);
  }

  /** One more selected item. */
  lemma SelectedNext(v: View, rank: map<Id, nat>, ids: seq<Id>, i: nat)
    requires Ranked(v, rank) && i < |ids| && (forall x :: x in ids[..i] ==> x in v.items) && ids[i] in v.items
    ensures forall x :: x in ids[..i + 1] ==> x in ids[..i] || x == ids[i]
    ensures var before := SetOfNames(TopNames(v.items, ids[..i]));
            var (stem, ext) := SplitArchiveName(v.items[ids[i]].name);
            var top := FreeName(before, v.items[ids[i]].name, stem, ext);
            && (forall x :: x in ids[..i + 1] ==> x in v.items)
            && SetOfNames(TopNames(v.items, ids[..i + 1])) == before + {top}
            && Selected(v, rank, ids[..i + 1]) == Selected(v, rank, ids[..i]) + FilesAt(v, rank, ids[i], top)
  {
    hide Ranked, FilesAt, FreeName, IsFreeName;
    assert ids[..i + 1] == ids[..i] + [ids[i]];
    assert ids[..i + 1][..i] == ids[..i];
  }

  // ----- every live file below the folder, once -----

  /** `x` is `n` levels below `folder` along live items. */
  ghost predicate LiveChain(items: map<Id, Item>, folder: Id, x: Id, n: nat)
    decreases n
  {
    if n == 0 then x == folder
    else IsLive(items, x) && items[x].parent.Some? && LiveChain(items, folder, items[x].parent.value, n - 1)
  }

  /** Where it lands in the archive. */
  ghost function ArcName(items: map<Id, Item>, folder: Id, prefix: string, x: Id, n: nat): string
    requires LiveChain(items, folder, x, n)
    decreases n
  {
    if n == 0 then prefix
    else ArcName(items, folder, prefix, items[x].parent.value, n - 1) + "/" + items[x].name
  }

  /** A chain may be taken apart at its top. */
  lemma {:induction false} ChainFromTop(items: map<Id, Item>, folder: Id, prefix: string, x: Id, n: nat)
    returns (child: Id)
    requires LiveChain(items, folder, x, n) && n > 0
    ensures IsLive(items, child) && items[child].parent == Some(folder) && LiveChain(items, child, x, n - 1)
    ensures ArcName(items, folder, prefix, x, n) ==
            ArcName(items, child, prefix + "/" + items[child].name, x, n - 1)
    decreases n
  {
    if n == 1 {
      child := x;
    } else {
      child := ChainFromTop(items, folder, prefix, items[x].parent.value, n - 1);
    }
  }

  lemma {:induction false} ChainExtendsUp(items: map<Id, Item>, folder: Id, prefix: string, child: Id, x: Id, n: nat)
    requires IsLive(items, child) && items[child].parent == Some(folder) && LiveChain(items, child, x, n)
    ensures LiveChain(items, folder, x, n + 1)
    ensures ArcName(items, folder, prefix, x, n + 1) == ArcName(items, child, prefix + "/" + items[child].name, x, n)
    decreases n
  {
    if n > 0 {
      ChainExtendsUp(items, folder, prefix, child, items[x].parent.value, n - 1);
    }
  }

  /** `f` is the stored blob of a live file below `folder`, at the path of folder names. */
  ghost predicate IsPlaced(v: View, folder: Id, prefix: string, f: File, x: Id, n: nat) {
    && LiveChain(v.items, folder, x, n) && x in v.items && v.items[x].kind.File?
    && v.items[x].key == Some(f.1) && f.1 in v.stored && f.0 == ArcName(v.items, folder, prefix, x, n)
  }

  /** Only folders have children. */
  ghost predicate FilesAreLeaves(items: map<Id, Item>) {
    forall x :: x in items && items[x].parent.Some? && items[x].parent.value in items ==>
      items[items[x].parent.value].kind.Folder?
  }

  /** Everything collected is a placed file. */
  lemma {:induction false} CollectsOnlyPlaced(v: View, rank: map<Id, nat>, x: Id, path: string, f: File)
    requires Ranked(v, rank) && x in v.items && f in FilesAt(v, rank, x, path)
    ensures exists y: Id, n: nat :: IsPlaced(v, x, path, f, y, n)
    decreases Room(v, rank, x), 1, 0
  {
    if v.items[x].kind.File? {
      assert IsPlaced(v, x, path, f, x, 0);
    } else {
      WalksOnlyPlaced(v, rank, x, |v.order[x]|, path, f);
    }
  }

  lemma {:induction false} WalksOnlyPlaced(v: View, rank: map<Id, nat>, folder: Id, n: nat, prefix: string, f: File)
    requires Ranked(v, rank) && folder in v.items && n <= |v.order[folder]| && f in Walk(v, rank, folder, n, prefix)
    ensures exists y: Id, k: nat :: IsPlaced(v, folder, prefix, f, y, k)
    decreases Room(v, rank, folder), 0, n
  {
    ChildRoom(v, rank, folder, n - 1);
    var child := v.order[folder][n - 1];
    var path := prefix + "/" + v.items[child].name;
    if f in Walk(v, rank, folder, n - 1, prefix) {
      WalksOnlyPlaced(v, rank, folder, n - 1, prefix, f);
    } else {
      CollectsOnlyPlaced(v, rank, child, path, f);
      var y: Id, k: nat :| IsPlaced(v, child, path, f, y, k);
      ChainExtendsUp(v.items, folder, prefix, child, y, k);
      assert IsPlaced(v, folder, prefix, f, y, k + 1);
    }
  }

  /** Every placed file is collected. */
  lemma {:induction false} CollectsAllPlaced(v: View, rank: map<Id, nat>, x: Id, path: string, f: File, y: Id, n: nat)
    requires Ranked(v, rank) && FilesAreLeaves(v.items) && x in v.items && IsPlaced(v, x, path, f, y, n)
    ensures f in FilesAt(v, rank, x, path)
    decreases n
  {
    if n > 0 {
      var child := ChainFromTop(v.items, x, path, y, n);
      assert child in LiveChildren(v.items, x);
      var i :| 0 <= i < |v.order[x]| && v.order[x][i] == child;
      CollectsAllPlaced(v, rank, child, path + "/" + v.items[child].name, f, y, n - 1);
      assert f in Walk(v, rank, x, i + 1, path);
      WalkGrows(v, rank, x, i + 1, |v.order[x]|, path);
    }
  }

  lemma {:induction false} WalkGrows(v: View, rank: map<Id, nat>, folder: Id, m: nat, n: nat, prefix: string)
    requires Ranked(v, rank) && folder in v.items && m <= n <= |v.order[folder]|
    ensures forall f :: f in Walk(v, rank, folder, m, prefix) ==> f in Walk(v, rank, folder, n, prefix)
    decreases n
  {
    if m < n {
      WalkGrows(v, rank, folder, m, n - 1, prefix);
    }
  }

  /** A folder's part of the archive is exactly the stored blobs of the live files that hang
      below it along live folders, each under the path of names that leads to it. */
  lemma CollectsExactly(v: View, rank: map<Id, nat>, folder: Id, prefix: string, f: File)
    requires Ranked(v, rank) && FilesAreLeaves(v.items) && folder in v.items
    ensures f in FilesAt(v, rank, folder, prefix) <==> exists x: Id, n: nat :: IsPlaced(v, folder, prefix, f, x, n)
  {
    if f in FilesAt(v, rank, folder, prefix) {
      CollectsOnlyPlaced(v, rank, folder, prefix, f);
    }
    if x: Id, n: nat :| IsPlaced(v, folder, prefix, f, x, n) {
      CollectsAllPlaced(v, rank, folder, prefix, f, x, n);
    }
  }

  // ----- names never collide -----

  /** `s` is `path` or lies under it. */
  ghost predicate Under(path: string, s: string) {
    path <= s && (|s| == |path| || s[|path|] == '/')
  }

  lemma UnderTwice(path: string, name: string, s: string)
    requires Under(path + "/" + name, s)
    ensures Under(path, s)
  {
    var longer := path + "/" + name;
    assert longer[..|path|] == path;
    assert s[..|path|] == s[..|longer|][..|path|];
    assert s[|path|] == longer[|path|];
  }

  /** Different slash-free names after one prefix have nothing under them in common. */
  lemma NamesSeparate(prefix: string, a: string, b: string, s: string)
    requires '/' !in a && '/' !in b && Under(prefix + a, s) && Under(prefix + b, s)
    ensures a == b
  {
    if |a| < |b| {
      SlashInside(prefix, a, b, s);
    } else if |b| < |a| {
      SlashInside(prefix, b, a, s);
    } else {
      assert s[..|prefix + a|] == prefix + a && s[..|prefix + b|] == prefix + b;
      assert a == (prefix + a)[|prefix|..] && b == (prefix + b)[|prefix|..];
    }
  }

  lemma SlashInside(prefix: string, a: string, b: string, s: string)
    requires |a| < |b| && Under(prefix + a, s) && Under(prefix + b, s)
    ensures '/' in b
  {
    assert s[|prefix + a|] == (prefix + b)[|prefix + a|];
    assert (prefix + b)[|prefix| + |a|] == b[|a|];
  }

  ghost predicate CleanNames(items: map<Id, Item>) {
    forall x :: x in items ==> '/' !in items[x].name
  }

  ghost predicate DistinctPaths(files: seq<File>) {
    forall i, j :: 0 <= i < j < |files| ==> files[i].0 != files[j].0
  }

  lemma {:induction false} FilesUnder(v: View, rank: map<Id, nat>, x: Id, path: string, f: File)
    requires Ranked(v, rank) && x in v.items && f in FilesAt(v, rank, x, path)
    ensures Under(path, f.0)
    decreases Room(v, rank, x), 1, 0
  {
    if v.items[x].kind.Folder? {
      var i := WalkUnder(v, rank, x, |v.order[x]|, path, f);
      ChildRoom(v, rank, x, i);
      UnderTwice(path, v.items[v.order[x][i]].name, f.0);
    }
  }

  lemma {:induction false} WalkUnder(v: View, rank: map<Id, nat>, folder: Id, n: nat, prefix: string, f: File)
    returns (i: nat)
    requires Ranked(v, rank) && folder in v.items && n <= |v.order[folder]| && f in Walk(v, rank, folder, n, prefix)
    ensures i < n && v.order[folder][i] in v.items
    ensures Under(prefix + "/" + v.items[v.order[folder][i]].name, f.0)
    decreases Room(v, rank, folder), 0, n
  {
    ChildRoom(v, rank, folder, n - 1);
    var child := v.order[folder][n - 1];
    if f in Walk(v, rank, folder, n - 1, prefix) {
      i := WalkUnder(v, rank, folder, n - 1, prefix, f);
    } else {
      FilesUnder(v, rank, child, prefix + "/" + v.items[child].name, f);
      i := n - 1;
    }
  }

  lemma DistinctConcat(a: seq<File>, b: seq<File>)
    requires DistinctPaths(a) && DistinctPaths(b)
    requires forall f, g :: f in a && g in b ==> f.0 != g.0
    ensures DistinctPaths(a + b)
  {
    forall i, j | 0 <= i < j < |a + b|
      ensures (a + b)[i].0 != (a + b)[j].0
    {
      if i < |a| && j >= |a| {
        assert a[i] in a && b[j - |a|] in b;
      }
    }
  }

  lemma {:induction false} DistinctAt(v: View, rank: map<Id, nat>, x: Id, path: string)
    requires Ranked(v, rank) && x in v.items && CleanNames(v.items) && DistinctNames(v.items)
    ensures DistinctPaths(FilesAt(v, rank, x, path))
    decreases Room(v, rank, x), 1, 0
  {
    if v.items[x].kind.Folder? {
      DistinctWalk(v, rank, x, |v.order[x]|, path);
    }
  }

  lemma {:induction false} DistinctWalk(v: View, rank: map<Id, nat>, folder: Id, n: nat, prefix: string)
    requires Ranked(v, rank) && folder in v.items && n <= |v.order[folder]|
    requires CleanNames(v.items) && DistinctNames(v.items)
    ensures DistinctPaths(Walk(v, rank, folder, n, prefix))
    decreases Room(v, rank, folder), 0, n
  {
    if n > 0 {
      ChildRoom(v, rank, folder, n - 1);
      var child := v.order[folder][n - 1];
      var path := prefix + "/" + v.items[child].name;
      DistinctWalk(v, rank, folder, n - 1, prefix);
      DistinctAt(v, rank, child, path);
      forall f, g | f in Walk(v, rank, folder, n - 1, prefix) && g in FilesAt(v, rank, child, path)
        ensures f.0 != g.0
      {
        CousinsDiffer(v, rank, folder, n, prefix, f, g);
      }
      DistinctConcat(Walk(v, rank, folder, n - 1, prefix), FilesAt(v, rank, child, path));
    }
  }

  /** A file under an earlier child and one under this child have different names. */
  lemma CousinsDiffer(v: View, rank: map<Id, nat>, folder: Id, n: nat, prefix: string, f: File, g: File)
    requires Ranked(v, rank) && folder in v.items && 0 < n <= |v.order[folder]| && v.order[folder][n - 1] in v.items
    requires CleanNames(v.items) && DistinctNames(v.items)
    requires f in Walk(v, rank, folder, n - 1, prefix)
    requires g in FilesAt(v, rank, v.order[folder][n - 1], prefix + "/" + v.items[v.order[folder][n - 1]].name)
    ensures f.0 != g.0
  {
    hide FilesAt, Walk;
    var child := v.order[folder][n - 1];
    var i := WalkUnder(v, rank, folder, n - 1, prefix, f);
    FilesUnder(v, rank, child, prefix + "/" + v.items[child].name, g);
    ChildRoom(v, rank, folder, i);
    ChildRoom(v, rank, folder, n - 1);
    assert v.order[folder][i] != child;
    if f.0 == g.0 {
      NamesSeparate(prefix + "/", v.items[v.order[folder][i]].name, v.items[child].name, f.0);
    }
  }

  /** Conflict counters bring no separator into a name. */
  lemma FreeNameClean(taken: set<string>, name: string, stem: string, ext: string)
    requires '/' !in name && stem + ext == name
    ensures '/' !in FreeName(taken, name, stem, ext)
  {
    var free := FreeName(taken, name, stem, ext);
    assert '/' !in stem && '/' !in ext by {
      assert forall c :: c in stem || c in ext ==> c in stem + ext;
    }
    if name in taken {
      var n: nat :| n >= 1 && free == Numbered(stem, ext, n) && Tried(stem, ext, n) <= taken;
      NumeralHasNo(n, '/');
    }
  }

  lemma {:induction false} TopNamesDiffer(items: map<Id, Item>, ids: seq<Id>)
    requires CleanNames(items) && forall x :: x in ids ==> x in items
    ensures NoDup(TopNames(items, ids))
    ensures forall i :: 0 <= i < |ids| ==> '/' !in TopNames(items, ids)[i]
  {
    if ids != [] {
      var last := |ids| - 1;
      assert ids[last] in ids;
      TopNamesDiffer(items, ids[..last]);
      var (stem, ext) := SplitArchiveName(items[ids[last]].name);
      FreeNameClean(SetOfNames(TopNames(items, ids[..last])), items[ids[last]].name, stem, ext);
      assert forall i :: 0 <= i < last ==> TopNames(items, ids[..last])[i] in SetOfNames(TopNames(items, ids[..last]));
    }
  }

  /** Every collected file lies under the top-level name of its selected item. */
  lemma {:induction false} SelectedUnder(v: View, rank: map<Id, nat>, ids: seq<Id>, f: File) returns (i: nat)
    requires Ranked(v, rank) && (forall x :: x in ids ==> x in v.items) && f in Selected(v, rank, ids)
    ensures i < |ids| && Under(TopNames(v.items, ids)[i], f.0)
  {
    hide FilesAt;
    var last := |ids| - 1;
    assert ids[last] in ids;
    if f in Selected(v, rank, ids[..last]) {
      i := SelectedUnder(v, rank, ids[..last], f);
    } else {
      FilesUnder(v, rank, ids[last], TopNames(v.items, ids)[last], f);
      i := last;
    }
  }

  /** Whatever is selected, repetitions and folders inside selected folders included, no two
      entries of the archive have the same name. */
  lemma {:induction false} ArchiveNamesDiffer(v: View, rank: map<Id, nat>, ids: seq<Id>)
    requires Ranked(v, rank) && (forall x :: x in ids ==> x in v.items)
    requires CleanNames(v.items) && DistinctNames(v.items)
    ensures DistinctPaths(Selected(v, rank, ids))
  {
    hide FilesAt, DistinctNames, CleanNames, Ranked, TopNames;
    if ids != [] {
      var last := |ids| - 1;
      assert ids[last] in ids;
      var top := TopNames(v.items, ids)[last];
      ArchiveNamesDiffer(v, rank, ids[..last]);
      DistinctAt(v, rank, ids[last], top);
      forall f, g | f in Selected(v, rank, ids[..last]) && g in FilesAt(v, rank, ids[last], top)
        ensures f.0 != g.0
      {
        TopsSeparate(v, rank, ids, f, g);
      }
      DistinctConcat(Selected(v, rank, ids[..last]), FilesAt(v, rank, ids[last], top));
    }
  }

  /** Files of different selected items lie under different top-level names. */
  lemma TopsSeparate(v: View, rank: map<Id, nat>, ids: seq<Id>, f: File, g: File)
    requires Ranked(v, rank) && (forall x :: x in ids ==> x in v.items) && CleanNames(v.items) && ids != []
    requires ids[|ids| - 1] in ids && f in Selected(v, rank, ids[..|ids| - 1])
    requires g in FilesAt(v, rank, ids[|ids| - 1], TopNames(v.items, ids)[|ids| - 1])
    ensures f.0 != g.0
  {
    hide FilesAt, Selected, CleanNames, Ranked, FreeName, IsFreeName;
    var last := |ids| - 1;
    var names := TopNames(v.items, ids);
    TopNamesDiffer(v.items, ids);
    var i := SelectedUnder(v, rank, ids[..last], f);
    FilesUnder(v, rank, ids[last], names[last], g);
    assert names[i] == TopNames(v.items, ids[..last])[i];
    var a, b := names[i], names[last];
    assert a != b;
    if f.0 == g.0 {
      NamesApart(a, b, f.0);
    }
  }

  lemma NamesApart(a: string, b: string, s: string)
    requires '/' !in a && '/' !in b && Under(a, s) && Under(b, s)
    ensures a == b
  {
    assert "" + a == a && "" + b == b;
    NamesSeparate("", a, b, s);
  }
}
