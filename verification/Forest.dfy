/** Parent pointers as finite maps, and when they form a forest. */
module Forest {
  import opened Text

  /** A UUID: items, versions and snapshots are told apart by theirs. */
  datatype Id = Id(uuid: nat)

  /** The parent pointer of every row; `None` is the drive root. */
  type Parents = map<Id, Option<Id>>

  // ----- the two parts of being a forest -----

  /** Some member of `s` has its parent outside `s`. */
  ghost predicate Grounded(p: Parents, s: set<Id>)
    requires s <= p.Keys
  {
    exists x :: x in s && (p[x].None? || p[x].value !in s)
  }

  /** No cycles: every non-empty set of rows has a member whose parent lies outside it. */
  ghost predicate Acyclic(p: Parents) {
    forall s: set<Id> :: s <= p.Keys && s != {} ==> Grounded(p, s)
  }

  /** The self-foreign-key: every parent is a row. */
  ghost predicate Closed(p: Parents) {
    forall x :: x in p && p[x].Some? ==> p[x].value in p
  }

  ghost predicate IsForest(p: Parents) {
    Closed(p) && Acyclic(p)
  }

  // ----- ancestors -----

  /** The `n`-th ancestor of `x`, `x` itself for 0. */
  function Ancestor(p: Parents, x: Id, n: nat): Option<Id>
    decreases n
  {
    if n == 0 then Some(x)
    else if x in p && p[x].Some? then Ancestor(p, p[x].value, n - 1)
    else None
  }

  /** `x` is `root` or lies below it. */
  ghost predicate Below(p: Parents, root: Id, x: Id) {
    exists n: nat :: Ancestor(p, x, n) == Some(root)
  }

  lemma {:induction false} AncestorStep(p: Parents, x: Id, n: nat)
    ensures Ancestor(p, x, n + 1) ==
            match Ancestor(p, x, n)
            case Some(y) => (if y in p then p[y] else None)
            case None => None
    decreases n
  {
    if n > 0 && x in p && p[x].Some? {
      AncestorStep(p, p[x].value, n - 1);
    }
  }

  lemma {:induction false} AncestorAdd(p: Parents, x: Id, m: nat, n: nat)
    ensures Ancestor(p, x, m + n) ==
            match Ancestor(p, x, m) case Some(y) => Ancestor(p, y, n) case None => None
    decreases m
  {
    if m > 0 && x in p && p[x].Some? {
      AncestorAdd(p, p[x].value, m - 1, n);
    }
  }

  lemma BelowSelf(p: Parents, x: Id)
    ensures Below(p, x, x)
  {
    assert Ancestor(p, x, 0) == Some(x);
  }

  /** Being below is passed from a parent to its child. */
  lemma BelowChild(p: Parents, root: Id, x: Id)
    requires x in p && p[x].Some?
    ensures Below(p, root, x) <==> x == root || Below(p, root, p[x].value)
  {
    BelowSelf(p, x);
    if Below(p, root, p[x].value) {
      var n: nat :| Ancestor(p, p[x].value, n) == Some(root);
      assert Ancestor(p, x, n + 1) == Some(root);
    }
    if Below(p, root, x) && x != root {
      var n: nat :| Ancestor(p, x, n) == Some(root);
      assert Ancestor(p, p[x].value, n - 1) == Some(root);
    }
  }

  lemma BelowOrphan(p: Parents, root: Id, x: Id)
    requires x !in p || p[x].None?
    ensures Below(p, root, x) <==> x == root
  {
    BelowSelf(p, x);
    if n: nat :| Ancestor(p, x, n) == Some(root) {
      assert n == 0;
    }
  }

  lemma NothingBelowLeaf(p: Parents, root: Id, x: Id)
    requires forall y :: y in p ==> p[y] != Some(root)
    requires Below(p, root, x)
    ensures x == root
  {
    var n: nat :| Ancestor(p, x, n) == Some(root);
    if n > 0 {
      AncestorStep(p, x, n - 1);
    }
  }

  lemma BelowTransitive(p: Parents, a: Id, b: Id, c: Id)
    requires Below(p, a, b) && Below(p, b, c)
    ensures Below(p, a, c)
  {
    var m: nat :| Ancestor(p, b, m) == Some(a);
    var n: nat :| Ancestor(p, c, n) == Some(b);
    AncestorAdd(p, c, n, m);
  }

  /** A set that contains `x` and the parent of each of its members contains all ancestors. */
  lemma {:induction false} ClosedUpwards(p: Parents, s: set<Id>, x: Id, n: nat)
    requires x in s
    requires forall y :: y in s && y in p && p[y].Some? ==> p[y].value in s
    ensures Ancestor(p, x, n).Some? ==> Ancestor(p, x, n).value in s
    decreases n
  {
    if n > 0 && x in p && p[x].Some? {
      ClosedUpwards(p, s, p[x].value, n - 1);
    }
  }

  // ----- what keeps a forest a forest -----

  /** Removing rows. */
  lemma AcyclicShrink(p: Parents, q: Parents)
    requires Acyclic(p) && q.Keys <= p.Keys
    requires forall x :: x in q ==> q[x] == p[x]
    ensures Acyclic(q)
  {
    forall s: set<Id> | s <= q.Keys && s != {}
      ensures Grounded(q, s)
    {
      assert Grounded(p, s);
    }
  }

  /** A new row under an existing parent or at the root. */
  lemma ForestInsert(p: Parents, x: Id, parent: Option<Id>)
    requires IsForest(p) && x !in p && (parent.Some? ==> parent.value in p)
    ensures IsForest(p[x := parent])
  {
    var q := p[x := parent];
    forall s: set<Id> | s <= q.Keys && s != {}
      ensures Grounded(q, s)
    {
      var rest := s - {x};
      if rest == {} {
        assert s == {x};
        assert x in s;
      } else {
        assert Grounded(p, rest);
        var y :| y in rest && (p[y].None? || p[y].value !in rest);
        assert y in s && q[y] == p[y];
      }
    }
  }

  /** A row moved to the root or to a place that is not below it. */
  lemma ForestMove(p: Parents, x: Id, parent: Option<Id>)
    requires IsForest(p) && x in p
    requires parent.Some? ==> parent.value in p && !Below(p, x, parent.value)
    ensures IsForest(p[x := parent])
  {
    var q := p[x := parent];
    forall s: set<Id> | s <= q.Keys && s != {}
      ensures Grounded(q, s)
    {
      if x !in s {
        assert Grounded(p, s);
        var y :| y in s && (p[y].None? || p[y].value !in s);
        assert q[y] == p[y];
      } else if parent.None? || parent.value !in s {
        assert q[x].None? || q[x].value !in s;
      } else {
        // the ancestors of the new parent inside `s` keep their old pointers
        var up := set y | y in s && Below(p, y, parent.value);
        BelowSelf(p, parent.value);
        assert parent.value in up;
        assert Grounded(p, up);
        var y :| y in up && (p[y].None? || p[y].value !in up);
        assert y != x && q[y] == p[y];
        if p[y].Some? && p[y].value in s {
          BelowSelf(p, p[y].value);
          BelowChild(p, p[y].value, y);
          BelowTransitive(p, p[y].value, y, parent.value);
        }
        assert y in s;
      }
    }
  }

  /** Moving below itself would close a cycle. */
  lemma MoveBelowIsCyclic(p: Parents, x: Id, parent: Id)
    requires Closed(p) && x in p && Below(p, x, parent)
    ensures !Acyclic(p[x := Some(parent)])
  {
    var q := p[x := Some(parent)];
    var n: nat :| Ancestor(p, parent, n) == Some(x);
    var s := ChainTo(p, parent, x, n);
    assert !Grounded(q, s);
  }

  /** The rows from `y` up to its `n`-th ancestor `x`. */
  lemma {:induction false} ChainTo(p: Parents, y: Id, x: Id, n: nat) returns (s: set<Id>)
    requires Ancestor(p, y, n) == Some(x) && x in p
    ensures y in s && x in s && s <= p.Keys
    ensures forall z :: z in s && z != x ==> p[z].Some? && p[z].value in s
    decreases n
  {
    if n == 0 {
      s := {x};
    } else {
      s := ChainTo(p, p[y].value, x, n - 1);
      s := s + {y};
    }
  }

  /** On acyclic pointers no row is its own proper ancestor. */
  lemma NoCycle(p: Parents, x: Id, n: nat)
    requires Acyclic(p) && n > 0
    ensures Ancestor(p, x, n) != Some(x)
  {
    if Ancestor(p, x, n) == Some(x) {
      var s := ChainTo(p, p[x].value, x, n - 1);
      assert Grounded(p, s);
      var y :| y in s && (p[y].None? || p[y].value !in s);
    }
  }

  /** On acyclic pointers two rows are not below each other. */
  lemma BelowAntisymmetric(p: Parents, a: Id, b: Id)
    requires Acyclic(p) && Below(p, a, b) && Below(p, b, a)
    ensures a == b
  {
    var m: nat :| Ancestor(p, b, m) == Some(a);
    var n: nat :| Ancestor(p, a, n) == Some(b);
    AncestorAdd(p, a, n, m);
    if n + m > 0 {
      NoCycle(p, a, n + m);
    }
  }

  // ----- a topological rank -----

  /** A number for every row that grows from parent to child. */
  ghost predicate IsRank(p: Parents, rank: map<Id, nat>) {
    && rank.Keys == p.Keys
    && (forall x :: x in p ==> rank[x] < |p|)
    && forall x :: x in p && p[x].Some? && p[x].value in p ==> rank[p[x].value] < rank[x]
  }

  lemma {:induction false} RankOn(p: Parents, s: set<Id>) returns (rank: map<Id, nat>)
    requires Acyclic(p) && s <= p.Keys
    ensures rank.Keys == s && forall x :: x in s ==> rank[x] < |s|
    ensures forall x :: x in s && p[x].Some? && p[x].value in s ==> rank[p[x].value] < rank[x]
    decreases |s|
  {
    if s == {} {
      rank := map[];
    } else {
      assert Grounded(p, s);
      var top :| top in s && (p[top].None? || p[top].value !in s);
      var below := RankOn(p, s - {top});
      rank := map x | x in s :: if x == top then 0 else below[x] + 1;
    }
  }

  lemma RankExists(p: Parents) returns (rank: map<Id, nat>)
    requires Acyclic(p)
    ensures IsRank(p, rank)
  {
    rank := RankOn(p, p.Keys);
  }
}
