/** The database tables and the blob store, updated in place by the services. */
module Store {
  import opened Text
  import opened Sets
  import opened Forest
  import opened Drive

  class Store {
    var items: map<Id, Item>
    var versions: map<Id, Version>
    var snapshots: seq<Snapshot>
    var blobs: map<Key, Blob>
    var used: nat
    var quota: int
    var retention: int
    var snapshotQuota: Option<nat>
    ghost var kinds: map<Id, Kind>
    ghost var owners: map<Key, Id>

    constructor (quota: int)
      ensures Now() == Db(map[], map[], [], map[], 0, quota, 50, None, map[], map[])
    {
      items, versions, snapshots, blobs := map[], map[], [], map[];
      used, this.quota, retention, snapshotQuota := 0, quota, 50, None;
      kinds, owners := map[], map[];
    }

    ghost function Now(): Db
      reads this
    {
      Db(items, versions, snapshots, blobs, used, quota, retention, snapshotQuota, kinds, owners)
    }

    /** Remove an item row. The foreign keys of children and versions must not point at it. */
    method HardDelete(id: Id)
      requires id in items
      requires forall x :: x in items && x != id ==> items[x].parent != Some(id)
      requires forall v :: v in versions ==> versions[v].file != id
      modifies this`items
      ensures items == old(items) - {id}
    {
      items := items - {id};
    }

    /** Insert or overwrite an item row. Its parent must be a row. */
    method PutItem(id: Id, item: Item)
      requires item.parent.Some? ==> item.parent.value in items || item.parent.value == id
      modifies this`items
      ensures items == old(items)[id := item]
    {
      items := items[id := item];
    }

    method AddUsedBytes(delta: nat)
      modifies this`used
      ensures used == old(used) + delta
    {
      used := used + delta;
    }

    /** `greatest(0, used - delta)` */
    method SubtractUsedBytes(delta: nat)
      modifies this`used
      ensures used == if old(used) < delta then 0 else old(used) - delta
    {
      used := if used < delta then 0 else used - delta;
    }
  }
}
