/** What an archive holds of a selection, and under which names. */
module ArchiveEffects {
  import opened Text
  import opened Forest
  import opened Names
  import opened Drive
  import opened Archive

  /** The archive splits a name at its last dot, wherever that is. */
  lemma ArchiveExtensionIs(name: string)
    ensures var (stem, ext) := SplitArchiveName(name);
            && stem + ext == name
            && (ext == "" <==> '.' !in name)
            && (ext != "" ==> ext[0] == '.' && '.' !in ext[1..])
  {
  }

  /** The name of selected item `i`: its own, or with the least counter that no earlier one took. */
  ghost predicate TopNameIs(items: map<Id, Item>, ids: seq<Id>, names: seq<string>, i: nat)
    requires |names| == |ids| && i < |ids| && ids[i] in items
  {
    var wanted := items[ids[i]].name;
    var (stem, ext) := SplitArchiveName(wanted);
    if wanted !in names[..i] then names[i] == wanted
    else exists n: nat :: n >= 1 && names[i] == Numbered(stem, ext, n) && names[i] !in names[..i] &&
           forall m: nat :: 1 <= m < n ==> Numbered(stem, ext, m) in names[..i]
  }

  lemma {:induction false} TopNamesPrefix(items: map<Id, Item>, ids: seq<Id>, i: nat)
    requires (forall x :: x in ids ==> x in items) && i <= |ids|
    ensures TopNames(items, ids)[..i] == TopNames(items, ids[..i])
    decreases |ids|
  {
    hide FreeName, IsFreeName;
    if i == |ids| {
      assert ids[..i] == ids;
    } else {
      assert ids[..|ids| - 1][..i] == ids[..i];
      TopNamesPrefix(items, ids[..|ids| - 1], i);
    }
  }

  lemma TopNamesAre(items: map<Id, Item>, ids: seq<Id>, i: nat)
    requires (forall x :: x in ids ==> x in items) && i < |ids|
    ensures TopNameIs(items, ids, TopNames(items, ids), i)
  {
    hide FreeName, Numbered;
    TopNamesPrefix(items, ids, i);
    TopNamesPrefix(items, ids, i + 1);
    assert ids[..i + 1][..i] == ids[..i];
    var wanted := items[ids[i]].name;
    var (stem, ext) := SplitArchiveName(wanted);
    var names := TopNames(items, ids);
    var taken := SetOfNames(names[..i]);
    assert names[i] == names[..i + 1][i] == FreeName(taken, wanted, stem, ext);
    if wanted in names[..i] {
      var n: nat :| n >= 1 && names[i] == Numbered(stem, ext, n) && Tried(stem, ext, n) <= taken;
      forall m: nat | 1 <= m < n
        ensures Numbered(stem, ext, m) in names[..i]
      {
        assert Numbered(stem, ext, m) in Tried(stem, ext, n);
      }
    }
  }

  lemma SelectedLast(v: View, rank: map<Id, nat>, ids: seq<Id>)
    requires ids != [] && Ranked(v, rank) && forall x :: x in ids ==> x in v.items
    ensures var last := |ids| - 1;
            Selected(v, rank, ids) ==
            Selected(v, rank, ids[..last]) + FilesAt(v, rank, ids[last], TopNames(v.items, ids)[last])
  {
    hide TopNames, FilesAt, Ranked;
  }

  /** The file comes from selected item `i`. */
  ghost predicate From(v: View, rank: map<Id, nat>, ids: seq<Id>, f: Archive.File, i: int)
    requires Ranked(v, rank) && forall x :: x in ids ==> x in v.items
  {
    0 <= i < |ids| && f in FilesAt(v, rank, ids[i], TopNames(v.items, ids)[i])
  }

  lemma FromEarlier(v: View, rank: map<Id, nat>, ids: seq<Id>, f: Archive.File, i: int)
    requires ids != [] && Ranked(v, rank) && (forall x :: x in ids ==> x in v.items) && 0 <= i < |ids| - 1
    ensures From(v, rank, ids[..|ids| - 1], f, i) <==> From(v, rank, ids, f, i)
  {
    hide TopNames, FilesAt, Ranked;
    TopNamesPrefix(v.items, ids, |ids| - 1);
    assert TopNames(v.items, ids)[..|ids| - 1][i] == TopNames(v.items, ids)[i];
  }

  lemma {:induction false} SelectedHolds(v: View, rank: map<Id, nat>, ids: seq<Id>, f: Archive.File)
    requires Ranked(v, rank) && forall x :: x in ids ==> x in v.items
    ensures f in Selected(v, rank, ids) <==> exists i :: From(v, rank, ids, f, i)
  {
    if ids == [] {
      assert Selected(v, rank, ids) == [];
    } else {
      var last := |ids| - 1;
      SelectedLast(v, rank, ids);
      hide TopNames, FilesAt, Ranked, Selected;
      SelectedHolds(v, rank, ids[..last], f);
      forall i | 0 <= i < last
        ensures From(v, rank, ids[..last], f, i) <==> From(v, rank, ids, f, i)
      {
        FromEarlier(v, rank, ids, f, i);
      }
      if f in FilesAt(v, rank, ids[last], TopNames(v.items, ids)[last]) {
        assert From(v, rank, ids, f, last);
      }
    }
  }

  /** The file is the stored blob of selected file `i`, or of a live file below selected folder `i`,
      under the top name and the names that lead to it. */
  ghost predicate PlacedBy(v: View, ids: seq<Id>, f: Archive.File, i: int)
    requires forall x :: x in ids ==> x in v.items
  {
    0 <= i < |ids| && exists y: Id, n: nat :: IsPlaced(v, ids[i], TopNames(v.items, ids)[i], f, y, n)
  }

  lemma FromIsPlaced(v: View, rank: map<Id, nat>, ids: seq<Id>, f: Archive.File, i: int)
    requires Ranked(v, rank) && FilesAreLeaves(v.items) && forall x :: x in ids ==> x in v.items
    ensures From(v, rank, ids, f, i) <==> PlacedBy(v, ids, f, i)
  {
    hide FilesAt, TopNames, Ranked, IsPlaced, FilesAreLeaves;
    if 0 <= i < |ids| {
      CollectsExactly(v, rank, ids[i], TopNames(v.items, ids)[i], f);
    }
  }

  /** An archive holds exactly those files. */
  lemma ArchiveHolds(v: View, rank: map<Id, nat>, ids: seq<Id>, f: Archive.File)
    requires Ranked(v, rank) && FilesAreLeaves(v.items) && forall x :: x in ids ==> x in v.items
    ensures f in Selected(v, rank, ids) <==> exists i :: PlacedBy(v, ids, f, i)
  {
    SelectedHolds(v, rank, ids, f);
    hide Selected, From, PlacedBy, Ranked, FilesAreLeaves;
    forall i
      ensures From(v, rank, ids, f, i) <==> PlacedBy(v, ids, f, i)
    {
      FromIsPlaced(v, rank, ids, f, i);
    }
  }
}
