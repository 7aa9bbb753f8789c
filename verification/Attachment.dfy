/** Laying the parent pointers of some entries over a forest of rows, as a partial restore does:
    exactly when the result is a forest again. */
module Attachment {
  import opened Text
  import opened Forest

  /** The pointers afterwards: entries carry their own, unless they point at nothing. */
  function Laid(p: Parents, q: Parents): Parents {
    map x | x in p.Keys + q.Keys ::
      if x !in q then p[x]
      else if q[x].Some? && q[x].value !in q && q[x].value !in p then None
      else q[x]
  }

  /** Going up from row `x`, the first entry is `t`. */
  predicate Climbs(p: Parents, q: Parents, x: Id, t: Id, n: nat)
    decreases n
  {
    if x in q then x == t
    else n > 0 && x in p && p[x].Some? && Climbs(p, q, p[x].value, t, n - 1)
  }

  /** The row lies, through rows that are no entries, at or below entry `t`. */
  ghost predicate LeadsUp(p: Parents, q: Parents, x: Id, t: Id) {
    t in q && exists n: nat :: Climbs(p, q, x, t, n)
  }

  /** Entry `x` is attached to a row that lies below an entry which the entries place at or below
      entry `y`. */
  ghost predicate Attaches(p: Parents, q: Parents, x: Id, y: Id) {
    && x in q && q[x].Some? && q[x].value !in q
    && exists t :: LeadsUp(p, q, q[x].value, t) && Below(q, y, t)
  }

  ghost predicate AttachesInto(p: Parents, q: Parents, x: Id, circle: set<Id>) {
    exists y :: y in circle && Attaches(p, q, x, y)
  }

  ghost predicate IsCircle(p: Parents, q: Parents, circle: set<Id>) {
    circle <= q.Keys && forall x :: x in circle ==> AttachesInto(p, q, x, circle)
  }

  /** Some entries are attached below one another in a circle. */
  ghost predicate AttachCircle(p: Parents, q: Parents) {
    exists circle: set<Id> :: circle != {} && IsCircle(p, q, circle)
  }

  lemma LaidAt(p: Parents, q: Parents, x: Id)
    ensures x in Laid(p, q) <==> x in p || x in q
    ensures x in q && q[x].Some? && (q[x].value in q || q[x].value in p) ==> Laid(p, q)[x] == q[x]
    ensures x in q && Laid(p, q)[x].Some? ==> Laid(p, q)[x] == q[x]
    ensures x in p && x !in q ==> Laid(p, q)[x] == p[x]
  {
  }

  lemma LaidClosed(p: Parents, q: Parents)
    requires Closed(p)
    ensures Closed(Laid(p, q))
  {
  }

  // ----- a circle is a cycle -----

  lemma {:induction false} ClimbStays(p: Parents, q: Parents, x: Id, t: Id, n: nat)
    requires Climbs(p, q, x, t, n) && t in q
    ensures Below(Laid(p, q), t, x) && (x in p || x in q)
    decreases n
  {
    hide Laid, Below;
    BelowSelf(Laid(p, q), t);
    if x !in q {
      LaidAt(p, q, x);
      ClimbStays(p, q, p[x].value, t, n - 1);
      BelowChild(Laid(p, q), t, x);
    }
  }

  lemma {:induction false} PathStays(p: Parents, q: Parents, y: Id, x: Id, n: nat)
    requires Ancestor(q, x, n) == Some(y) && y in q
    ensures Below(Laid(p, q), y, x) && x in q
    decreases n
  {
    hide Laid, Below;
    BelowSelf(Laid(p, q), y);
    if n > 0 {
      LaidAt(p, q, x);
      PathStays(p, q, y, q[x].value, n - 1);
      BelowChild(Laid(p, q), y, x);
    }
  }

  /** What attaches is below, by at least one pointer. */
  lemma AttachesBelow(p: Parents, q: Parents, x: Id, y: Id)
    requires Attaches(p, q, x, y) && y in q
    ensures x in Laid(p, q) && Laid(p, q)[x].Some? && Below(Laid(p, q), y, Laid(p, q)[x].value)
  {
    var t :| LeadsUp(p, q, q[x].value, t) && Below(q, y, t);
    var n: nat :| Climbs(p, q, q[x].value, t, n);
    var m: nat :| Ancestor(q, t, m) == Some(y);
    hide Laid, Climbs, Ancestor, Below;
    LaidAt(p, q, x);
    ClimbStays(p, q, q[x].value, t, n);
    PathStays(p, q, y, t, m);
    BelowTransitive(Laid(p, q), y, t, q[x].value);
  }

  ghost predicate BelowSome(r: Parents, circle: set<Id>, z: Id) {
    exists y :: y in circle && Below(r, y, z)
  }

  /** Below a circle every row points on to a row below the circle. */
  lemma CircleGoesOn(p: Parents, q: Parents, circle: set<Id>, z: Id)
    requires IsCircle(p, q, circle) && BelowSome(Laid(p, q), circle, z) && z in Laid(p, q)
    ensures Laid(p, q)[z].Some? && BelowSome(Laid(p, q), circle, Laid(p, q)[z].value)
    ensures Laid(p, q)[z].value in Laid(p, q)
  {
    var r := Laid(p, q);
    var y :| y in circle && Below(r, y, z);
    hide Laid, Attaches, Below;
    var on: Id := y;
    if y == z {
      assert AttachesInto(p, q, z, circle);
      on :| on in circle && Attaches(p, q, z, on);
      AttachesBelow(p, q, z, on);
    } else {
      if r[z].Some? {
        BelowChild(r, y, z);
      } else {
        BelowOrphan(r, y, z);
      }
    }
    LaidAt(p, q, on);
    StillRow(r, on, r[z].value);
  }

  lemma StillRow(r: Parents, y: Id, x: Id)
    requires y in r && Below(r, y, x)
    ensures x in r
  {
    var n: nat :| Ancestor(r, x, n) == Some(y);
  }

  /** Rows whose pointers stay among them. */
  predicate Ungrounded(r: Parents, s: set<Id>) {
    s <= r.Keys && s != {} && forall z :: z in s ==> r[z].Some? && r[z].value in s
  }

  lemma UngroundedIsCyclic(r: Parents, s: set<Id>)
    requires Ungrounded(r, s)
    ensures !Acyclic(r)
  {
    assert !Grounded(r, s);
  }

  ghost function BelowCircle(r: Parents, circle: set<Id>): set<Id> {
    set z | z in r && BelowSome(r, circle, z)
  }

  lemma CircleIsLaid(p: Parents, q: Parents, circle: set<Id>, x: Id)
    requires IsCircle(p, q, circle) && x in circle
    ensures x in Laid(p, q)
  {
  }

  lemma CircleIsCyclic(p: Parents, q: Parents, circle: set<Id>)
    requires circle != {} && IsCircle(p, q, circle)
    ensures !Acyclic(Laid(p, q))
  {
    hide Laid, Below, IsCircle, Acyclic;
    var r := Laid(p, q);
    var s := BelowCircle(r, circle);
    var some :| some in circle;
    BelowSelf(r, some);
    CircleIsLaid(p, q, circle, some);
    assert some in s;
    forall z | z in s
      ensures r[z].Some? && r[z].value in s
    {
      CircleGoesOn(p, q, circle, z);
    }
    UngroundedIsCyclic(r, s);
  }

  // ----- a cycle is a circle -----

  ghost predicate ReachesEntry(p: Parents, q: Parents, s: set<Id>, x: Id) {
    exists t :: t in s && LeadsUp(p, q, x, t)
  }

  lemma EntryReaches(p: Parents, q: Parents, s: set<Id>, x: Id)
    requires x in s && x in q
    ensures ReachesEntry(p, q, s, x)
  {
    assert Climbs(p, q, x, x, 0);
  }

  lemma ReachesThrough(p: Parents, q: Parents, s: set<Id>, x: Id)
    requires x !in q && x in p && p[x].Some? && ReachesEntry(p, q, s, p[x].value)
    ensures ReachesEntry(p, q, s, x)
  {
    var t :| t in s && LeadsUp(p, q, p[x].value, t);
    var n: nat :| Climbs(p, q, p[x].value, t, n);
    assert Climbs(p, q, x, t, n + 1);
  }

  /** Going up inside such a set reaches an entry of the set. */
  lemma ClimbsInside(p: Parents, q: Parents, s: set<Id>, x: Id)
    requires Acyclic(p) && Ungrounded(Laid(p, q), s) && x in s
    ensures ReachesEntry(p, q, s, x)
  {
    var stuck := set z | z in s && z !in q && !ReachesEntry(p, q, s, z);
    hide ReachesEntry;
    if x in q {
      EntryReaches(p, q, s, x);
    } else if x in stuck {
      forall z | z in stuck
        ensures z in p && p[z].Some? && p[z].value in s
      {
        LaidAt(p, q, z);
      }
      assert Grounded(p, stuck);
      var y :| y in stuck && p[y].value !in stuck;
      if p[y].value in q {
        EntryReaches(p, q, s, p[y].value);
      }
      ReachesThrough(p, q, s, y);
    }
  }

  /** The entries of the set that are attached to a row which is no entry. */
  function Roots(q: Parents, s: set<Id>): set<Id> {
    set x | x in q && x in s && q[x].Some? && q[x].value !in q
  }

  /** An entry of such a set lies below an attached one of it. */
  lemma RootAbove(p: Parents, q: Parents, s: set<Id>, x: Id)
    requires Acyclic(q) && Ungrounded(Laid(p, q), s) && x in s && x in q
    ensures BelowSome(q, Roots(q, s), x)
  {
    var stuck := set z | z in s && z in q && !BelowSome(q, Roots(q, s), z);
    if x in stuck {
      assert Grounded(q, stuck);
      var z :| z in stuck && (q[z].None? || q[z].value !in stuck);
      LaidAt(p, q, z);
      hide Laid, Below;
      assert q[z].Some? && q[z].value in s;
      BelowSelf(q, z);
      assert q[z].value in q;
      var y :| y in Roots(q, s) && Below(q, y, q[z].value);
      BelowChild(q, y, z);
    }
  }

  lemma RootsAttach(p: Parents, q: Parents, s: set<Id>, x: Id)
    requires Acyclic(p) && Acyclic(q) && Ungrounded(Laid(p, q), s) && x in Roots(q, s)
    ensures AttachesInto(p, q, x, Roots(q, s))
  {
    LaidAt(p, q, x);
    hide Laid, Below, Acyclic;
    ClimbsInside(p, q, s, q[x].value);
    var t :| t in s && LeadsUp(p, q, q[x].value, t);
    RootAbove(p, q, s, t);
    var y :| y in Roots(q, s) && Below(q, y, t);
    assert Attaches(p, q, x, y);
  }

  lemma CycleHasCircle(p: Parents, q: Parents, s: set<Id>)
    requires Acyclic(p) && Acyclic(q) && Ungrounded(Laid(p, q), s)
    ensures AttachCircle(p, q)
  {
    var circle := Roots(q, s);
    var some :| some in s;
    ClimbsInside(p, q, s, some);
    var t :| t in s && LeadsUp(p, q, some, t);
    RootAbove(p, q, s, t);
    forall x | x in circle
      ensures AttachesInto(p, q, x, circle)
    {
      RootsAttach(p, q, s, x);
    }
    hide AttachesInto, Laid, Acyclic;
    assert IsCircle(p, q, circle);
  }

  /** Laying acyclic pointers over a forest gives a forest if and only if no entries are attached
      below one another in a circle. */
  lemma LaidIsForest(p: Parents, q: Parents)
    requires IsForest(p) && Acyclic(q)
    ensures IsForest(Laid(p, q)) <==> !AttachCircle(p, q)
  {
    var r := Laid(p, q);
    LaidClosed(p, q);
    hide Laid, IsCircle;
    if AttachCircle(p, q) {
      var circle: set<Id> :| circle != {} && IsCircle(p, q, circle);
      CircleIsCyclic(p, q, circle);
    }
    forall s: set<Id> | s <= r.Keys && s != {}
      ensures Grounded(r, s) || AttachCircle(p, q)
    {
      if !Grounded(r, s) {
        CycleHasCircle(p, q, s);
      }
    }
  }

  /** Entries that name only entries as parents attach to nothing. */
  lemma ClosedHasNoCircle(p: Parents, q: Parents)
    requires Closed(q)
    ensures !AttachCircle(p, q)
  {
    forall circle: set<Id> | circle != {}
      ensures !IsCircle(p, q, circle)
    {
      var x :| x in circle;
      assert !AttachesInto(p, q, x, circle);
    }
  }
}
