/** Time Machine snapshots: capture, and pruning to the retention count and the quota. */
module Snapshots {
  import opened Text
  import opened Sums
  import opened Forest
  import opened Drive

  // ----- capture -----

  function Live(items: map<Id, Item>): set<Id> {
    set x | x in items && !items[x].deleted
  }

  /** One live item as a snapshot records it; a parent that is not captured becomes the root. */
  function CaptureItem(items: map<Id, Item>, x: Id): Entry
    requires x in items
  {
    var i := items[x];
    var parent := if i.parent.Some? && IsLive(items, i.parent.value) then i.parent else None;
    if i.kind.File? then Entry(parent, i.kind, i.name, i.size, i.key, i.checksum)
    else Entry(parent, i.kind, i.name, 0, None, None)
  }

  function Capture(items: map<Id, Item>): map<Id, Entry> {
    map x | x in Live(items) :: CaptureItem(items, x)
  }

  /** A capture is a forest of its own: parents are captured or the root. */
  lemma CaptureForest(items: map<Id, Item>)
    requires Acyclic(ItemParents(items))
    ensures IsForest(EntryParents(Capture(items)))
  {
    var p, q := ItemParents(items), EntryParents(Capture(items));
    forall s: set<Id> | s <= q.Keys && s != {}
      ensures Grounded(q, s)
    {
      assert Grounded(p, s);
      var y :| y in s && (p[y].None? || p[y].value !in s);
      assert q[y] == p[y] || q[y] == None;
    }
  }

  lemma CaptureOk(db: Db, id: Id, trigger: Trigger, pinned: bool)
    requires ItemsOk(db)
    ensures SnapshotOk(db, Snapshot(id, trigger, pinned, Capture(db.items)))
  {
    CaptureForest(db.items);
    var c := Capture(db.items);
    forall x | x in c
      ensures EntryOk(db, x, c[x])
    {
      assert ItemOk(db, x, db.items[x]);
    }
  }

  // ----- deduplicated usage -----

  /** The largest value in a map, 0 when it is empty. */
  ghost function MaxIn<K>(m: map<K, nat>): nat
    decreases |m|
  {
    if m == map[] then 0
    else
      var k :| k in m;
      var rest := MaxIn(m - {k});
      if m[k] > rest then m[k] else rest
  }

  /** Sizes of the entries with one checksum. */
  function SizesWith(entries: map<Id, Entry>, checksum: string): map<Id, nat> {
    map x | x in entries && entries[x].checksum == Some(checksum) :: entries[x].size
  }

  ghost function MaxSize(snaps: seq<Snapshot>, checksum: string): nat {
    if snaps == [] then 0
    else
      var before := MaxSize(snaps[..|snaps| - 1], checksum);
      var last := MaxIn(SizesWith(snaps[|snaps| - 1].entries, checksum));
      if last > before then last else before
  }

  function Checksums(snaps: seq<Snapshot>): set<string> {
    set i, x | 0 <= i < |snaps| && x in snaps[i].entries && snaps[i].entries[x].checksum.Some? ::
      snaps[i].entries[x].checksum.value
  }

  /** `used_snapshot_bytes`: one size per distinct content checksum. */
  ghost function UsedBytes(snaps: seq<Snapshot>): nat {
    Sum(map c | c in Checksums(snaps) :: MaxSize(snaps, c))
  }

  // ----- pruning, as a function of the list -----

  predicate Exempt(s: Snapshot) {
    s.pinned || s.trigger.PreRestore?
  }

  /** Keep the newest `n` and everything exempt. */
  function Retained(snaps: seq<Snapshot>, n: int): seq<Snapshot> {
    if snaps == [] then []
    else
      var last := snaps[|snaps| - 1];
      Retained(snaps[..|snaps| - 1], n) + if |snaps| - 1 < n || Exempt(last) then [last] else []
  }

  predicate Protected(s: Snapshot, newest: Id) {
    s.id == newest || Exempt(s)
  }

  function Without(snaps: seq<Snapshot>, i: nat): seq<Snapshot>
    requires i < |snaps|
  {
    snaps[..i] + snaps[i + 1..]
  }

  /** Oldest first from position `i` down, drop what is not protected until usage fits. */
  ghost function FitQuota(snaps: seq<Snapshot>, i: nat, newest: Id, quota: int): seq<Snapshot>
    requires i <= |snaps|
    decreases i
  {
    if i == 0 then snaps
    else if Protected(snaps[i - 1], newest) then FitQuota(snaps, i - 1, newest, quota)
    else if UsedBytes(snaps) <= quota then snaps
    else FitQuota(Without(snaps, i - 1), i - 1, newest, quota)
  }

  ghost function Prune(snaps: seq<Snapshot>, n: int, quota: int): seq<Snapshot> {
    var kept := Retained(snaps, n);
    if quota > 0 && snaps != [] then FitQuota(kept, |kept|, snaps[0].id, quota) else kept
  }

  // ----- what pruning does -----

  /** Position `i` of the list is one the quota pass may drop. */
  predicate Droppable(s: Snapshot, newest: Id) {
    !Protected(s, newest)
  }

  /** The list with everything droppable from position `c` on dropped. */
  function DroppedFrom(snaps: seq<Snapshot>, c: nat, newest: Id): seq<Snapshot> {
    if snaps == [] then []
    else
      var last := snaps[|snaps| - 1];
      DroppedFrom(snaps[..|snaps| - 1], c, newest) +
      if |snaps| - 1 < c || Protected(last, newest) then [last] else []
  }

  lemma {:induction false} DropNothing(snaps: seq<Snapshot>, c: nat, newest: Id)
    requires forall i :: c <= i < |snaps| ==> Protected(snaps[i], newest)
    ensures DroppedFrom(snaps, c, newest) == snaps
  {
    if snaps != [] {
      DropNothing(snaps[..|snaps| - 1], c, newest);
      assert snaps == snaps[..|snaps| - 1] + [snaps[|snaps| - 1]];
    }
  }

  /** A protected position makes no difference to where dropping starts. */
  lemma {:induction false} DropSkips(snaps: seq<Snapshot>, c: nat, newest: Id)
    requires c < |snaps| && Protected(snaps[c], newest)
    ensures DroppedFrom(snaps, c, newest) == DroppedFrom(snaps, c + 1, newest)
  {
    if |snaps| - 1 > c {
      DropSkips(snaps[..|snaps| - 1], c, newest);
    } else {
      DropPrefix(snaps[..|snaps| - 1], c, newest);
      DropPrefix(snaps[..|snaps| - 1], c + 1, newest);
    }
  }

  lemma {:induction false} DropPrefix(snaps: seq<Snapshot>, c: nat, newest: Id)
    requires |snaps| <= c
    ensures DroppedFrom(snaps, c, newest) == snaps
  {
    DropNothing(snaps, c, newest);
  }

  /** The first `c` stay in front; dropping one more removes exactly the one before. */
  lemma {:induction false} DropOneMore(snaps: seq<Snapshot>, c: nat, newest: Id)
    requires c < |snaps| && Droppable(snaps[c], newest)
    ensures |DroppedFrom(snaps, c + 1, newest)| > c
    ensures DroppedFrom(snaps, c + 1, newest)[..c + 1] == snaps[..c + 1]
    ensures DroppedFrom(snaps, c, newest) == Without(DroppedFrom(snaps, c + 1, newest), c)
  {
    hide DroppedFrom, Without;
    var init := snaps[..|snaps| - 1];
    var last := snaps[|snaps| - 1];
    DropLast(snaps, c, newest);
    DropLast(snaps, c + 1, newest);
    if |init| == c {
      DropPrefix(init, c, newest);
      DropPrefix(init, c + 1, newest);
      assert init + [last] == snaps;
      WithoutLast(init, last);
    } else {
      DropOneMore(init, c, newest);
      assert init[..c + 1] == snaps[..c + 1];
      var d := DroppedFrom(init, c + 1, newest);
      var tail := if Protected(last, newest) then [last] else [];
      assert (d + tail)[..c + 1] == d[..c + 1];
      WithoutAppend(d, c, tail);
    }
  }

  lemma DropLast(snaps: seq<Snapshot>, c: nat, newest: Id)
    requires snaps != []
    ensures DroppedFrom(snaps, c, newest) ==
            DroppedFrom(snaps[..|snaps| - 1], c, newest) +
            if |snaps| - 1 < c || Protected(snaps[|snaps| - 1], newest) then [snaps[|snaps| - 1]] else []
  {
  }

  lemma WithoutLast(init: seq<Snapshot>, last: Snapshot)
    ensures Without(init + [last], |init|) == init
  {
  }

  lemma WithoutAppend(d: seq<Snapshot>, c: nat, tail: seq<Snapshot>)
    requires c < |d|
    ensures Without(d + tail, c) == Without(d, c) + tail
  {
    assert (d + tail)[c + 1..] == d[c + 1..] + tail;
    assert (d + tail)[..c] == d[..c];
  }

  /** The quota pass drops an oldest-first run: there is a cut such that exactly the droppable
      snapshots from the cut on are gone, each was dropped while usage exceeded the quota, and
      below the cut usage fits or nothing droppable is left. */
  ghost predicate IsCut(kept: seq<Snapshot>, c: nat, newest: Id, quota: int) {
    && c <= |kept|
    && (forall i :: c <= i < |kept| && Droppable(kept[i], newest) ==>
          UsedBytes(DroppedFrom(kept, i + 1, newest)) > quota)
    && (UsedBytes(DroppedFrom(kept, c, newest)) <= quota ||
        forall i :: 0 <= i < c ==> Protected(kept[i], newest))
  }

  lemma {:induction false} FitQuotaCuts(kept: seq<Snapshot>, i: nat, newest: Id, quota: int) returns (c: nat)
    requires i <= |kept|
    requires forall j :: i <= j < |kept| && Droppable(kept[j], newest) ==>
               UsedBytes(DroppedFrom(kept, j + 1, newest)) > quota
    ensures |DroppedFrom(kept, i, newest)| >= i
    ensures IsCut(kept, c, newest, quota)
    ensures FitQuota(DroppedFrom(kept, i, newest), i, newest, quota) == DroppedFrom(kept, c, newest)
    decreases i
  {
    hide UsedBytes, DroppedFrom;
    var d := DroppedFrom(kept, i, newest);
    DropKeepsPrefix(kept, i, newest);
    if i == 0 {
      c := 0;
    } else if Protected(kept[i - 1], newest) {
      DropSkips(kept, i - 1, newest);
      c := FitQuotaCuts(kept, i - 1, newest, quota);
    } else if UsedBytes(d) <= quota {
      c := i;
    } else {
      DropOneMore(kept, i - 1, newest);
      c := FitQuotaCuts(kept, i - 1, newest, quota);
    }
  }

  lemma {:induction false} DropKeepsPrefix(snaps: seq<Snapshot>, c: nat, newest: Id)
    requires c <= |snaps|
    ensures |DroppedFrom(snaps, c, newest)| >= c
    ensures DroppedFrom(snaps, c, newest)[..c] == snaps[..c]
  {
    if c == |snaps| {
      DropPrefix(snaps, c, newest);
    } else {
      DropKeepsPrefix(snaps[..|snaps| - 1], c, newest);
      assert snaps[..|snaps| - 1][..c] == snaps[..c];
    }
  }

  // ----- survival and idempotence -----

  /** Positions beyond the retention count hold exempt snapshots only. */
  predicate WithinRetention(snaps: seq<Snapshot>, n: int) {
    forall i :: n <= i < |snaps| && 0 <= i ==> Exempt(snaps[i])
  }

  lemma {:induction false} RetainedWithin(snaps: seq<Snapshot>, n: int)
    ensures |Retained(snaps, n)| <= |snaps| && WithinRetention(Retained(snaps, n), n)
  {
    if snaps != [] {
      RetainedWithin(snaps[..|snaps| - 1], n);
    }
  }

  lemma {:induction false} DroppedWithin(snaps: seq<Snapshot>, c: nat, newest: Id, n: int)
    requires WithinRetention(snaps, n)
    ensures |DroppedFrom(snaps, c, newest)| <= |snaps| && WithinRetention(DroppedFrom(snaps, c, newest), n)
  {
    if snaps != [] {
      DroppedWithin(snaps[..|snaps| - 1], c, newest, n);
    }
  }

  lemma {:induction false} WithinIsRetained(snaps: seq<Snapshot>, n: int)
    requires WithinRetention(snaps, n)
    ensures Retained(snaps, n) == snaps
  {
    if snaps != [] {
      WithinIsRetained(snaps[..|snaps| - 1], n);
      assert snaps == snaps[..|snaps| - 1] + [snaps[|snaps| - 1]];
    }
  }

  /** Membership after retention, by position. */
  lemma {:induction false} RetainedMembers(snaps: seq<Snapshot>, n: int, s: Snapshot)
    ensures s in Retained(snaps, n) <==> exists i :: 0 <= i < |snaps| && snaps[i] == s && (i < n || Exempt(s))
  {
    if snaps != [] {
      RetainedMembers(snaps[..|snaps| - 1], n, s);
    }
  }

  lemma {:induction false} DroppedMembers(snaps: seq<Snapshot>, c: nat, newest: Id, s: Snapshot)
    ensures s in DroppedFrom(snaps, c, newest) <==>
            exists i :: 0 <= i < |snaps| && snaps[i] == s && (i < c || Protected(s, newest))
  {
    if snaps != [] {
      DroppedMembers(snaps[..|snaps| - 1], c, newest, s);
    }
  }

  lemma {:induction false} FirstRetained(snaps: seq<Snapshot>, n: int)
    requires snaps != [] && n >= 1
    ensures Retained(snaps, n) != [] && Retained(snaps, n)[0] == snaps[0]
  {
    if |snaps| > 1 {
      FirstRetained(snaps[..|snaps| - 1], n);
    } else {
      assert snaps[..0] == [];
    }
  }

  lemma {:induction false} FirstKept(snaps: seq<Snapshot>, c: nat, newest: Id)
    requires snaps != [] && snaps[0].id == newest
    ensures DroppedFrom(snaps, c, newest) != [] && DroppedFrom(snaps, c, newest)[0] == snaps[0]
  {
    if |snaps| > 1 {
      FirstKept(snaps[..|snaps| - 1], c, newest);
    } else {
      assert snaps[..0] == [];
    }
  }

  /** Pruning in one formula: retention, then an oldest-first cut. */
  lemma PruneCuts(snaps: seq<Snapshot>, n: int, quota: int) returns (c: nat)
    requires n >= 1 && snaps != [] && quota > 0
    ensures IsCut(Retained(snaps, n), c, snaps[0].id, quota)
    ensures Prune(snaps, n, quota) == DroppedFrom(Retained(snaps, n), c, snaps[0].id)
  {
    var kept := Retained(snaps, n);
    DropPrefix(kept, |kept|, snaps[0].id);
    c := FitQuotaCuts(kept, |kept|, snaps[0].id, quota);
  }

  /** The newest snapshot and every exempt one survive; nothing is invented. */
  lemma PruneSurvivors(snaps: seq<Snapshot>, n: int, quota: int)
    requires n >= 1 && snaps != []
    ensures Prune(snaps, n, quota) != [] && Prune(snaps, n, quota)[0] == snaps[0]
    ensures forall s :: s in snaps && Exempt(s) ==> s in Prune(snaps, n, quota)
    ensures forall s :: s in Prune(snaps, n, quota) ==> s in snaps
  {
    hide UsedBytes, FitQuota;
    var kept := Retained(snaps, n);
    FirstRetained(snaps, n);
    if quota > 0 {
      var c := PruneCuts(snaps, n, quota);
      FirstKept(kept, c, snaps[0].id);
      forall s | s in snaps
        ensures s in DroppedFrom(kept, c, snaps[0].id) ==> s in snaps
        ensures Exempt(s) ==> s in DroppedFrom(kept, c, snaps[0].id)
      {
        RetainedMembers(snaps, n, s);
        DroppedMembers(kept, c, snaps[0].id, s);
      }
    }
    forall s | s in Prune(snaps, n, quota)
      ensures s in snaps
    {
      RetainedMembers(snaps, n, s);
      if quota > 0 {
        var c := PruneCuts(snaps, n, quota);
        DroppedMembers(kept, c, snaps[0].id, s);
      }
    }
    forall s | s in snaps && Exempt(s)
      ensures s in kept
    {
      RetainedMembers(snaps, n, s);
    }
  }

  /** Afterwards usage fits the quota, or the quota is off, or only the newest and exempt
      snapshots are left. */
  lemma PruneMeetsQuota(snaps: seq<Snapshot>, n: int, quota: int)
    requires n >= 1 && snaps != []
    ensures quota <= 0 || UsedBytes(Prune(snaps, n, quota)) <= quota ||
            forall s :: s in Prune(snaps, n, quota) ==> Protected(s, snaps[0].id)
  {
    hide UsedBytes, FitQuota;
    if quota > 0 {
      var kept := Retained(snaps, n);
      var c := PruneCuts(snaps, n, quota);
      if UsedBytes(DroppedFrom(kept, c, snaps[0].id)) > quota {
        forall s | s in DroppedFrom(kept, c, snaps[0].id)
          ensures Protected(s, snaps[0].id)
        {
          DroppedMembers(kept, c, snaps[0].id, s);
        }
      }
    }
  }

  /** A second prune deletes nothing. */
  lemma PruneIdempotent(snaps: seq<Snapshot>, n: int, quota: int)
    requires n >= 1
    ensures Prune(Prune(snaps, n, quota), n, quota) == Prune(snaps, n, quota)
  {
    hide UsedBytes;
    if snaps != [] {
      var kept := Retained(snaps, n);
      var newest := snaps[0].id;
      RetainedWithin(snaps, n);
      WithinIsRetained(kept, n);
      if quota > 0 {
        var c := PruneCuts(snaps, n, quota);
        var pruned := DroppedFrom(kept, c, newest);
        DroppedWithin(kept, c, newest, n);
        WithinIsRetained(pruned, n);
        FirstRetained(snaps, n);
        FirstKept(kept, c, newest);
        PruneMeetsQuota(snaps, n, quota);
        NothingToFit(pruned, |pruned|, newest, quota);
      }
    }
  }

  lemma {:induction false} NothingToFit(snaps: seq<Snapshot>, i: nat, newest: Id, quota: int)
    requires i <= |snaps|
    requires UsedBytes(snaps) <= quota || forall s :: s in snaps ==> Protected(s, newest)
    ensures FitQuota(snaps, i, newest, quota) == snaps
    decreases i
  {
    hide UsedBytes;
    if i > 0 && Protected(snaps[i - 1], newest) {
      NothingToFit(snaps, i - 1, newest, quota);
    }
  }

  /** A single snapshot always stays. */
  lemma PruneOne(s: Snapshot, n: int, quota: int)
    requires n >= 1
    ensures Prune([s], n, quota) == [s]
  {
    hide UsedBytes, FitQuota;
    assert [s][..0] == [];
    assert Retained([s], n) == [s];
    NothingToFit([s], 1, s.id, quota);
  }

  // ----- which snapshot the quota pass keeps -----

  lemma {:induction false} MaxSizeCovers(snaps: seq<Snapshot>, checksum: string, s: Snapshot)
    requires s in snaps
    ensures MaxIn(SizesWith(s.entries, checksum)) <= MaxSize(snaps, checksum)
  {
    hide MaxIn, SizesWith;
    if s != snaps[|snaps| - 1] {
      MaxSizeCovers(snaps[..|snaps| - 1], checksum, s);
    }
  }

  /** The largest size of a content does not shrink when snapshots are added. */
  lemma {:induction false} MaxSizeGrows(snaps: seq<Snapshot>, more: seq<Snapshot>, checksum: string)
    requires forall s :: s in snaps ==> s in more
    ensures MaxSize(snaps, checksum) <= MaxSize(more, checksum)
  {
    hide MaxIn, SizesWith;
    if snaps != [] {
      MaxSizeGrows(snaps[..|snaps| - 1], more, checksum);
      MaxSizeCovers(more, checksum, snaps[|snaps| - 1]);
    }
  }

  lemma ChecksumsGrow(snaps: seq<Snapshot>, more: seq<Snapshot>)
    requires forall s :: s in snaps ==> s in more
    ensures Checksums(snaps) <= Checksums(more)
  {
    forall c | c in Checksums(snaps)
      ensures c in Checksums(more)
    {
      var i, x :| 0 <= i < |snaps| && x in snaps[i].entries && snaps[i].entries[x].checksum == Some(c);
      assert snaps[i] in more;
      var j :| 0 <= j < |more| && more[j] == snaps[i];
      assert x in more[j].entries && more[j].entries[x].checksum.Some?;
    }
  }

  /** Usage does not shrink when snapshots are added. */
  lemma UsedGrows(snaps: seq<Snapshot>, more: seq<Snapshot>)
    requires forall s :: s in snaps ==> s in more
    ensures UsedBytes(snaps) <= UsedBytes(more)
  {
    hide Sum, MaxSize, Checksums;
    ChecksumsGrow(snaps, more);
    var m := map c | c in Checksums(snaps) :: MaxSize(snaps, c);
    var n := map c | c in Checksums(more) :: MaxSize(more, c);
    forall c | c in m
      ensures c in n && m[c] <= n[c]
    {
      MaxSizeGrows(snaps, more, c);
    }
    SumAtMost(m, n);
  }

  lemma {:induction false} RetainedPrefix(snaps: seq<Snapshot>, n: int, i: nat)
    requires i < |snaps| && i < n
    ensures i < |Retained(snaps, n)| && Retained(snaps, n)[i] == snaps[i]
    decreases |snaps|
  {
    RetainedLength(snaps[..|snaps| - 1], n);
    if i < |snaps| - 1 {
      RetainedPrefix(snaps[..|snaps| - 1], n, i);
    }
  }

  lemma {:induction false} RetainedLength(snaps: seq<Snapshot>, n: int)
    ensures |snaps| <= n ==> |Retained(snaps, n)| == |snaps|
  {
    if snaps != [] {
      RetainedLength(snaps[..|snaps| - 1], n);
    }
  }

  lemma UsedSame(snaps: seq<Snapshot>, others: seq<Snapshot>)
    requires forall s :: s in snaps <==> s in others
    ensures UsedBytes(snaps) == UsedBytes(others)
  {
    hide UsedBytes;
    UsedGrows(snaps, others);
    UsedGrows(others, snaps);
  }

  lemma UsedGrowsBelow(kept: seq<Snapshot>, i: nat, c: nat, newest: Id)
    ensures i <= c ==> UsedBytes(DroppedFrom(kept, i, newest)) <= UsedBytes(DroppedFrom(kept, c, newest))
  {
    hide UsedBytes, DroppedFrom;
    if i <= c {
      forall s | s in DroppedFrom(kept, i, newest)
        ensures s in DroppedFrom(kept, c, newest)
      {
        DroppedMembers(kept, i, newest, s);
        DroppedMembers(kept, c, newest, s);
      }
      UsedGrows(DroppedFrom(kept, i, newest), DroppedFrom(kept, c, newest));
    }
  }
}
