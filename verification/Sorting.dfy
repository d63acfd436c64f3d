/** Sorting a finite set by a strict total order. */
module Sorting {

  ghost predicate StrictTotal<T(!new)>(s: set<T>, less: (T, T) -> bool) {
    && (forall x | x in s :: !less(x, x))
    && (forall x, y | x in s && y in s :: x == y || less(x, y) || less(y, x))
    && (forall x, y, z | x in s && y in s && z in s && less(x, y) && less(y, z) :: less(x, z))
  }

  predicate IsFirst<T(!new, ==)>(s: set<T>, less: (T, T) -> bool, m: T) {
    m in s && forall x | x in s :: x == m || less(m, x)
  }

  lemma {:induction false} FirstExists<T(!new)>(s: set<T>, less: (T, T) -> bool)
    requires s != {} && StrictTotal(s, less)
    ensures exists m :: IsFirst(s, less, m)
  {
    var x :| x in s;
    var rest := s - {x};
    if rest == {} {
      assert s == {x};
      assert IsFirst(s, less, x);
    } else {
      FirstExists(rest, less);
      var m :| IsFirst(rest, less, m);
      var first := if less(x, m) then x else m;
      forall y | y in s ensures y == first || less(first, y) {
        assert y == x || y in rest;
      }
      assert IsFirst(s, less, first);
    }
  }

  function SortedBy<T(!new, ==)>(s: set<T>, less: (T, T) -> bool): (r: seq<T>)
    requires StrictTotal(s, less)
    ensures |r| == |s|
    ensures forall x :: x in r <==> x in s
    ensures forall i, j | 0 <= i < j < |r| :: less(r[i], r[j]) && r[i] != r[j]
  {
    if s == {} then [] else
      FirstExists(s, less);
      assert forall m, n | IsFirst(s, less, m) && IsFirst(s, less, n) :: m == n;
      var m :| m in s && IsFirst(s, less, m);
      [m] + SortedBy(s - {m}, less)
  }
}
