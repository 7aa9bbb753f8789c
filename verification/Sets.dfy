/** Small facts about finite sets, and reading a table's rows into a list. */
module Sets {
  lemma SomeMember(s: set<int>)
    requires s != {}
    ensures exists x: int :: x in s
  {
    assert (forall x: int :: x !in s) ==> s == {};
  }

  /** No element occurs twice. */
  ghost predicate NoDup<T>(xs: seq<T>) {
    forall i, j :: 0 <= i < j < |xs| ==> xs[i] != xs[j]
  }

  function SetOf<T(==)>(xs: seq<T>): set<T> {
    set x | x in xs
  }

  /** `xs` lists exactly the members of `s`, once each. */
  ghost predicate Lists<T(!new)>(xs: seq<T>, s: set<T>) {
    NoDup(xs) && forall x :: x in xs <==> x in s
  }

  lemma NextListed<T>(xs: seq<T>, i: nat)
    requires NoDup(xs) && i < |xs|
    ensures xs[i] !in SetOf(xs[..i])
    ensures SetOf(xs[..i + 1]) == SetOf(xs[..i]) + {xs[i]}
  {
    assert xs[..i + 1] == xs[..i] + [xs[i]];
  }

  /** The rows a query selects, in no particular order. */
  method ListRows<T(==,!new)>(s: set<T>) returns (xs: seq<T>)
    ensures Lists(xs, s)
  {
    xs := [];
    var todo := s;
    while todo != {}
      invariant todo <= s
      invariant NoDup(xs) && forall x :: x in xs <==> x in s && x !in todo
      decreases todo
    {
      var x :| x in todo;
      xs := xs + [x];
      todo := todo - {x};
    }
  }
}
