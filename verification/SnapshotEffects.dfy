/** What snapshots hold, what they cost and what taking one does, in terms of rows. */
module SnapshotEffects {
  import opened Text
  import opened Sums
  import opened Forest
  import opened Drive
  import opened Snapshots
  import opened SnapshotService
  import opened Restore

  // ----- usage -----

  /** Some entry has this content and size. */
  ghost predicate HasContent(snaps: seq<Snapshot>, checksum: string, size: nat) {
    exists i, x :: 0 <= i < |snaps| && x in snaps[i].entries &&
      snaps[i].entries[x].checksum == Some(checksum) && snaps[i].entries[x].size == size
  }

  /** One size for every content that occurs: the largest it occurs with. */
  ghost predicate SizePerContent(snaps: seq<Snapshot>, sizes: map<string, nat>) {
    && (forall c, n: nat :: HasContent(snaps, c, n) ==> c in sizes && n <= sizes[c])
    && (forall c :: c in sizes ==> HasContent(snaps, c, sizes[c]))
  }

  lemma MaxInTake<K>(m: map<K, nat>) returns (k: K)
    requires m != map[]
    ensures k in m && MaxIn(m) == if m[k] > MaxIn(m - {k}) then m[k] else MaxIn(m - {k})
  {
    k :| k in m && MaxIn(m) == if m[k] > MaxIn(m - {k}) then m[k] else MaxIn(m - {k});
  }

  lemma {:induction false} MaxInIs<K(!new)>(m: map<K, nat>)
    ensures forall k :: k in m ==> m[k] <= MaxIn(m)
    ensures MaxIn(m) > 0 ==> exists k :: k in m && m[k] == MaxIn(m)
    decreases |m|
  {
    if m == map[] {
      assert MaxIn(m) == 0;
    } else {
      hide MaxIn;
      var k := MaxInTake(m);
      MaxInIs(m - {k});
      forall j | j in m
        ensures m[j] <= MaxIn(m)
      {
        assert j != k ==> j in m - {k} && (m - {k})[j] == m[j];
      }
      if MaxIn(m) != m[k] {
        var j :| j in m - {k} && (m - {k})[j] == MaxIn(m - {k});
        assert j in m && m[j] == MaxIn(m);
      }
    }
  }

  lemma {:induction false} MaxSizeSomewhere(snaps: seq<Snapshot>, checksum: string)
    ensures MaxSize(snaps, checksum) > 0 ==>
              exists s :: s in snaps && MaxIn(SizesWith(s.entries, checksum)) == MaxSize(snaps, checksum)
  {
    hide MaxIn, SizesWith;
    if snaps != [] {
      MaxSizeSomewhere(snaps[..|snaps| - 1], checksum);
      assert snaps[|snaps| - 1] in snaps;
    }
  }

  lemma SizeInSnapshot(s: Snapshot, checksum: string)
    ensures forall x :: x in s.entries && s.entries[x].checksum == Some(checksum) ==>
              s.entries[x].size <= MaxIn(SizesWith(s.entries, checksum))
    ensures MaxIn(SizesWith(s.entries, checksum)) > 0 ==>
              exists x :: x in s.entries && s.entries[x].checksum == Some(checksum) &&
                s.entries[x].size == MaxIn(SizesWith(s.entries, checksum))
  {
    var m := SizesWith(s.entries, checksum);
    MaxInIs(m);
    hide MaxIn;
    forall x | x in s.entries && s.entries[x].checksum == Some(checksum)
      ensures s.entries[x].size <= MaxIn(m)
    {
      assert x in m && m[x] == s.entries[x].size;
    }
  }

  lemma NoContentIsLarger(snaps: seq<Snapshot>, checksum: string, n: nat)
    requires HasContent(snaps, checksum, n)
    ensures n <= MaxSize(snaps, checksum) && checksum in Checksums(snaps)
  {
    var i, x :| 0 <= i < |snaps| && x in snaps[i].entries &&
      snaps[i].entries[x].checksum == Some(checksum) && snaps[i].entries[x].size == n;
    SizeInSnapshot(snaps[i], checksum);
    MaxSizeCovers(snaps, checksum, snaps[i]);
    hide MaxIn, SizesWith, MaxSize;
  }

  lemma LargestIsContent(snaps: seq<Snapshot>, checksum: string)
    requires checksum in Checksums(snaps)
    ensures HasContent(snaps, checksum, MaxSize(snaps, checksum))
  {
    var i, x :| 0 <= i < |snaps| && x in snaps[i].entries && snaps[i].entries[x].checksum == Some(checksum);
    hide MaxIn, SizesWith, MaxSize, Checksums;
    var n := snaps[i].entries[x].size;
    assert HasContent(snaps, checksum, n);
    NoContentIsLarger(snaps, checksum, n);
    MaxSizeSomewhere(snaps, checksum);
    if MaxSize(snaps, checksum) > 0 {
      var s :| s in snaps && MaxIn(SizesWith(s.entries, checksum)) == MaxSize(snaps, checksum);
      SizeInSnapshot(s, checksum);
      var j :| 0 <= j < |snaps| && snaps[j] == s;
      var y :| y in snaps[j].entries && snaps[j].entries[y].checksum == Some(checksum) &&
        snaps[j].entries[y].size == MaxSize(snaps, checksum);
    }
  }

  /** Usage is the sum, over the different contents that occur, of the largest size each occurs
      with. */
  lemma UsageIs(snaps: seq<Snapshot>) returns (sizes: map<string, nat>)
    ensures SizePerContent(snaps, sizes) && UsedBytes(snaps) == Sum(sizes)
  {
    sizes := map c | c in Checksums(snaps) :: MaxSize(snaps, c);
    hide Sum, MaxSize, Checksums, HasContent;
    forall c, n: nat | HasContent(snaps, c, n)
      ensures c in sizes && n <= sizes[c]
    {
      NoContentIsLarger(snaps, c, n);
    }
    forall c | c in sizes
      ensures HasContent(snaps, c, sizes[c])
    {
      LargestIsContent(snaps, c);
    }
  }

  /** There is only one such choice of sizes. */
  lemma SizesAreUnique(snaps: seq<Snapshot>, a: map<string, nat>, b: map<string, nat>)
    requires SizePerContent(snaps, a) && SizePerContent(snaps, b)
    ensures a == b
  {
    hide HasContent;
    forall c | c in a
      ensures c in b && a[c] == b[c]
    {
      assert HasContent(snaps, c, a[c]);
      assert HasContent(snaps, c, b[c]);
    }
    forall c | c in b
      ensures c in a
    {
      assert HasContent(snaps, c, b[c]);
    }
  }

  /** Sums over different keys with the same values. */
  lemma {:induction false} SumRenamed<K, L>(m: map<K, nat>, n: map<L, nat>, f: map<L, K>)
    requires f.Keys == n.Keys
    requires forall l :: l in f ==> f[l] in m && m[f[l]] == n[l]
    requires forall l, j :: l in f && j in f && l != j ==> f[l] != f[j]
    requires forall k :: k in m ==> exists l :: l in f && f[l] == k
    ensures Sum(m) == Sum(n)
    decreases |n|
  {
    if n == map[] {
      assert m == map[];
    } else {
      var l :| l in n;
      SumTake(n, l);
      SumTake(m, f[l]);
      var g := f - {l};
      forall k | k in m - {f[l]}
        ensures exists j :: j in g && g[j] == k
      {
        var j :| j in f && f[j] == k;
        assert j in g && g[j] == k;
      }
      SumRenamed(m - {f[l]}, n - {l}, g);
    }
  }

  /** The files of a snapshot with the sizes of their blobs. */
  function FileBytes(db: Db, s: Snapshot): map<Id, nat> {
    map x | x in s.entries && s.entries[x].kind.File? ::
      if s.entries[x].key.Some? && s.entries[x].key.value in db.blobs then db.blobs[s.entries[x].key.value].size else 0
  }

  ghost predicate ContentsDiffer(s: Snapshot) {
    forall x, y :: x in s.entries && y in s.entries && x != y && s.entries[x].kind.File? && s.entries[y].kind.File? ==>
      s.entries[x].checksum != s.entries[y].checksum
  }

  lemma FilesHaveContent(db: Db, s: Snapshot)
    requires SnapshotOk(db, s)
    ensures forall x :: x in s.entries ==> (s.entries[x].kind.File? <==> s.entries[x].checksum.Some?)
    ensures forall x :: x in s.entries && s.entries[x].kind.File? ==> FileBytes(db, s)[x] == s.entries[x].size
  {
    hide IsForest;
    forall x | x in s.entries
      ensures s.entries[x].kind.File? <==> s.entries[x].checksum.Some?
      ensures s.entries[x].kind.File? ==> FileBytes(db, s)[x] == s.entries[x].size
    {
      assert EntryOk(db, x, s.entries[x]);
    }
  }

  lemma OneContent(s: Snapshot, c: string, n: nat)
    ensures HasContent([s], c, n) <==>
            exists x :: x in s.entries && s.entries[x].checksum == Some(c) && s.entries[x].size == n
  {
    assert [s][0] == s;
  }

  /** A snapshot whose files have different contents costs the bytes of their blobs. */
  lemma UsageOfOne(db: Db, s: Snapshot)
    requires SnapshotOk(db, s) && ContentsDiffer(s)
    ensures UsedBytes([s]) == Sum(FileBytes(db, s))
  {
    FilesHaveContent(db, s);
    hide Sum, UsedBytes, SnapshotOk, HasContent;
    var sizes := UsageIs([s]);
    var bytes := FileBytes(db, s);
    var content: map<Id, string> := map x | x in bytes && s.entries[x].checksum.Some? :: s.entries[x].checksum.value;
    forall x | x in content
      ensures content[x] in sizes && sizes[content[x]] == bytes[x]
    {
      OneContent(s, content[x], bytes[x]);
      OneContent(s, content[x], sizes[content[x]]);
    }
    forall c | c in sizes
      ensures exists x :: x in content && content[x] == c
    {
      OneContent(s, c, sizes[c]);
      var x :| x in s.entries && s.entries[x].checksum == Some(c);
      assert x in content;
    }
    SumRenamed(sizes, bytes, content);
  }

  // ----- taking a snapshot -----

  /** A capture holds the live items, with their place, content and name; a folder that is not
      captured becomes the root, and folders have no content. */
  lemma CaptureIs(items: map<Id, Item>)
    ensures forall x :: x in Capture(items) <==> x in items && !items[x].deleted
    ensures forall x :: x in Capture(items) ==>
              var i, e := items[x], Capture(items)[x];
              && e.kind == i.kind && e.name == i.name
              && (i.kind.File? ==> e.size == i.size && e.key == i.key && e.checksum == i.checksum)
              && (i.kind.Folder? ==> e.size == 0 && e.key == None && e.checksum == None)
              && e.parent == match i.parent
                             case Some(p) => (if p in items && !items[p].deleted then Some(p) else None)
                             case None => None
  {
  }

  /** The quota in force: the user's setting, or half the file quota. */
  function QuotaInForce(quota: int, setting: Option<nat>): int {
    match setting case Some(q) => q case None => quota / 2
  }

  /** Taking a snapshot puts one in front, pinned on request or before a restore, and prunes; nothing
      else changes. */
  lemma TakenIs(db: Db, id: Id, trigger: Trigger, pinned: bool)
    ensures var first := Snapshot(id, trigger, pinned || trigger == PreRestore, Capture(db.items));
            CreateSnapshot(db, id, trigger, pinned) ==
            db.(snapshots := Prune([first] + db.snapshots, db.retention, QuotaInForce(db.quota, db.snapshotQuota)))
  {
    hide Prune, Capture;
  }

  /** New settings are clamped from below, stored and enforced. */
  lemma SettingsAre(db: Db, retention: int, quota: Option<int>)
    ensures var t := UpdateSettings(db, retention, quota);
            && t.retention >= 1 && (retention >= 1 ==> t.retention == retention) && (retention < 1 ==> t.retention == 1)
            && (quota.None? <==> t.snapshotQuota.None?)
            && (quota.Some? ==> t.snapshotQuota.value as int == if quota.value >= 0 then quota.value else 0)
            && t == db.(retention := t.retention, snapshotQuota := t.snapshotQuota,
                        snapshots := Prune(db.snapshots, t.retention, QuotaInForce(db.quota, t.snapshotQuota)))
  {
    hide Prune;
  }

  // ----- pruning -----

  /** Positions in the old list, in the old order. */
  ghost predicate InOrder(fewer: seq<Snapshot>, snaps: seq<Snapshot>, at: seq<nat>) {
    && |at| == |fewer| && (forall i, j :: 0 <= i < j < |at| ==> at[i] < at[j])
    && forall i :: 0 <= i < |at| ==> at[i] < |snaps| && fewer[i] == snaps[at[i]]
  }

  lemma InOrderMore(fewer: seq<Snapshot>, snaps: seq<Snapshot>, at: seq<nat>, last: Snapshot)
    requires InOrder(fewer, snaps, at)
    ensures InOrder(fewer, snaps + [last], at)
    ensures InOrder(fewer + [last], snaps + [last], at + [|snaps|])
  {
  }

  lemma {:induction false} RetainedInOrder(snaps: seq<Snapshot>, n: int) returns (at: seq<nat>)
    ensures InOrder(Retained(snaps, n), snaps, at)
  {
    at := [];
    if snaps != [] {
      hide InOrder, Exempt;
      var init, last := snaps[..|snaps| - 1], snaps[|snaps| - 1];
      at := RetainedInOrder(init, n);
      InOrderMore(Retained(init, n), init, at, last);
      assert snaps == init + [last];
      if |init| < n || Exempt(last) {
        at := at + [|init|];
      } else {
        assert Retained(snaps, n) == Retained(init, n);
      }
    } else {
      assert InOrder([], [], []);
    }
  }

  lemma {:induction false} DroppedInOrder(snaps: seq<Snapshot>, c: nat, newest: Id) returns (at: seq<nat>)
    ensures InOrder(DroppedFrom(snaps, c, newest), snaps, at)
  {
    at := [];
    if snaps != [] {
      hide InOrder, Protected;
      var init, last := snaps[..|snaps| - 1], snaps[|snaps| - 1];
      at := DroppedInOrder(init, c, newest);
      InOrderMore(DroppedFrom(init, c, newest), init, at, last);
      assert snaps == init + [last];
      if |init| < c || Protected(last, newest) {
        at := at + [|init|];
      } else {
        assert DroppedFrom(snaps, c, newest) == DroppedFrom(init, c, newest);
      }
    } else {
      assert InOrder([], [], []);
    }
  }

  lemma InOrderTwice(a: seq<Snapshot>, b: seq<Snapshot>, c: seq<Snapshot>, ab: seq<nat>, bc: seq<nat>)
    returns (ac: seq<nat>)
    requires InOrder(a, b, ab) && InOrder(b, c, bc)
    ensures InOrder(a, c, ac)
  {
    ac := seq(|ab|, i requires 0 <= i < |ab| => bc[ab[i]]);
  }

  /** Pruning keeps the order of the list. */
  lemma PruneInOrder(snaps: seq<Snapshot>, n: int, quota: int) returns (at: seq<nat>)
    requires n >= 1
    ensures InOrder(Prune(snaps, n, quota), snaps, at)
  {
    hide Retained, DroppedFrom, FitQuota, UsedBytes, InOrder;
    at := RetainedInOrder(snaps, n);
    if snaps != [] && quota > 0 {
      var c := PruneCuts(snaps, n, quota);
      var dropped := DroppedInOrder(Retained(snaps, n), c, snaps[0].id);
      at := InOrderTwice(DroppedFrom(Retained(snaps, n), c, snaps[0].id), Retained(snaps, n), snaps, dropped, at);
    }
  }

  /** A list of the first `i + 1` snapshots and the pinned and safety ones behind them. */
  ghost predicate WeighedWith(snaps: seq<Snapshot>, i: nat, weighed: seq<Snapshot>) {
    forall s :: s in weighed <==>
      exists j :: 0 <= j < |snaps| && snaps[j] == s && (j <= i || s.pinned || s.trigger == PreRestore)
  }

  /** Who stays: the newest, what is pinned or was taken before a restore, and any other that is
      among the newest `n` and, under a quota, fits it with all newer and all exempt ones. */
  lemma PruneExactly(snaps: seq<Snapshot>, n: int, quota: int, i: nat, weighed: seq<Snapshot>)
    requires DistinctIds(snaps) && n >= 1 && i < |snaps| && WeighedWith(snaps, i, weighed)
    ensures snaps[i] in Prune(snaps, n, quota) <==>
              || i == 0 || snaps[i].pinned || snaps[i].trigger == PreRestore
              || (i < n && (quota <= 0 || UsedBytes(weighed) <= quota))
    ensures forall s :: s in Prune(snaps, n, quota) ==> s in snaps
  {
    hide UsedBytes, FitQuota, DroppedFrom, Retained, HasSnapshot;
    PruneSurvivors(snaps, n, quota);
    if i > 0 && !Exempt(snaps[i]) {
      RetentionKeeps(snaps, n, i);
      if quota <= 0 {
        NoQuotaPass(snaps, n, quota);
      } else {
        QuotaKeeps(snaps, n, quota, i);
        WeighedIsDropped(snaps, i, weighed);
      }
      hide Prune;
      KeptById(snaps, Prune(snaps, n, quota), i);
    }
  }

  lemma KeptById(snaps: seq<Snapshot>, kept: seq<Snapshot>, i: nat)
    requires DistinctIds(snaps) && i < |snaps| && forall s :: s in kept ==> s in snaps
    ensures snaps[i] in kept <==> HasSnapshot(kept, snaps[i].id)
  {
    if j :| 0 <= j < |kept| && kept[j].id == snaps[i].id {
      assert kept[j] in snaps;
      var k :| 0 <= k < |snaps| && snaps[k] == kept[j];
      DistinctAt(snaps, i, k);
    }
  }

  lemma WeighedIsDropped(snaps: seq<Snapshot>, i: nat, weighed: seq<Snapshot>)
    requires DistinctIds(snaps) && i < |snaps| && WeighedWith(snaps, i, weighed)
    ensures UsedBytes(weighed) == UsedBytes(DroppedFrom(snaps, i + 1, snaps[0].id))
  {
    hide UsedBytes, DroppedFrom;
    var dropped := DroppedFrom(snaps, i + 1, snaps[0].id);
    forall s
      ensures s in weighed <==> s in dropped
    {
      DroppedMembers(snaps, i + 1, snaps[0].id, s);
      if j :| 0 <= j < |snaps| && snaps[j] == s && s.id == snaps[0].id {
        assert j == 0;
      }
    }
    UsedSame(weighed, dropped);
  }
}
