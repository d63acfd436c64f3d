/** Identifiers are strings, ordered the way the builders compare them: character by character. */
module Ids {

  type Id = string

  /** Strict lexicographic order. */
  predicate Less(a: Id, b: Id) {
    if |b| == 0 then false
    else if |a| == 0 then true
    else if a[0] != b[0] then a[0] < b[0]
    else Less(a[1..], b[1..])
  }

  /** The shorter of two where one starts the other, else decided by the first character that differs. */
  lemma {:induction false} LessAtFirstDifference(a: Id, b: Id)
    ensures Less(a, b) <==> (a != b && a <= b) || exists k :: FirstDifference(a, b, k) && a[k] < b[k]
  {
    if |a| > 0 && |b| > 0 && a[0] == b[0] {
      var c, d := a[1..], b[1..];
      LessAtFirstDifference(c, d);
      assert a == [a[0]] + c && b == [b[0]] + d;
      assert a <= b <==> c <= d;
      forall k | FirstDifference(c, d, k) ensures FirstDifference(a, b, k + 1) {}
      forall k | FirstDifference(a, b, k) ensures k > 0 && FirstDifference(c, d, k - 1) {
        forall j | 0 <= j < k - 1 ensures c[j] == d[j] { assert a[j + 1] == b[j + 1]; }
      }
      if Less(c, d) && !(c != d && c <= d) {
        var k :| FirstDifference(c, d, k) && c[k] < d[k];
        assert FirstDifference(a, b, k + 1) && a[k + 1] < b[k + 1];
      }
      if k :| FirstDifference(a, b, k) && a[k] < b[k] {
        assert FirstDifference(c, d, k - 1) && c[k - 1] < d[k - 1];
      }
    } else if |a| > 0 && |b| > 0 {
      assert FirstDifference(a, b, 0);
    }
  }

  ghost predicate FirstDifference(a: Id, b: Id, k: int) {
    0 <= k < |a| && k < |b| && a[k] != b[k] && forall j | 0 <= j < k :: a[j] == b[j]
  }

  lemma {:induction false} LessIrreflexive(a: Id)
    ensures !Less(a, a)
  {
    if |a| > 0 { LessIrreflexive(a[1..]); }
  }

  lemma {:induction false} LessTransitive(a: Id, b: Id, c: Id)
    requires Less(a, b) && Less(b, c)
    ensures Less(a, c)
  {
    if |a| > 0 && a[0] == b[0] && b[0] == c[0] {
      LessTransitive(a[1..], b[1..], c[1..]);
    }
  }

  lemma {:induction false} LessTotal(a: Id, b: Id)
    ensures a == b || Less(a, b) || Less(b, a)
  {
    if |a| > 0 && |b| > 0 && a[0] == b[0] {
      LessTotal(a[1..], b[1..]);
      assert a == [a[0]] + a[1..] && b == [b[0]] + b[1..];
    }
  }

  lemma LessAsymmetric(a: Id, b: Id)
    requires Less(a, b)
    ensures !Less(b, a) && a != b
  {
    LessIrreflexive(a);
    if Less(b, a) { LessTransitive(a, b, a); }
  }

  /** The members of `s` strictly below `x`; shrinks strictly along a descending chain in `s`. */
  ghost function Below(s: set<Id>, x: Id): set<Id> {
    set y | y in s && Less(y, x)
  }

  lemma BelowShrinks(s: set<Id>, x: Id, y: Id)
    requires y in s && Less(y, x)
    ensures Below(s, y) < Below(s, x)
  {
    forall z | z in Below(s, y) ensures z in Below(s, x) { LessTransitive(z, y, x); }
    LessIrreflexive(y);
    assert y in Below(s, x) && y !in Below(s, y);
  }

  /** `m` is the least member of `s`. */
  predicate IsLeast(s: set<Id>, m: Id) {
    m in s && forall x | x in s :: x == m || Less(m, x)
  }

  lemma LeastIsUnique(s: set<Id>, m: Id, n: Id)
    requires IsLeast(s, m) && IsLeast(s, n)
    ensures m == n
  {
    if m != n { LessAsymmetric(m, n); }
  }

  lemma {:induction false} LeastExists(s: set<Id>)
    requires s != {}
    ensures exists m :: IsLeast(s, m)
  {
    var x :| x in s;
    if s == {x} {
      assert IsLeast(s, x);
    } else {
      LeastExists(s - {x});
      var m :| IsLeast(s - {x}, m);
      LessTotal(x, m);
      if Less(x, m) {
        forall y | y in s && y != x ensures Less(x, y) {
          if y != m { LessTransitive(x, m, y); }
        }
        assert IsLeast(s, x);
      } else {
        assert IsLeast(s, m);
      }
    }
  }

  function Least(s: set<Id>): (m: Id)
    requires s != {}
    ensures IsLeast(s, m)
  {
    LeastExists(s);
    assert forall m, n | IsLeast(s, m) && IsLeast(s, n) :: m == n by {
      forall m, n | IsLeast(s, m) && IsLeast(s, n) ensures m == n { LeastIsUnique(s, m, n); }
    }
    var m :| m in s && IsLeast(s, m);
    m
  }

  ghost predicate Increasing(ids: seq<Id>) {
    forall i, j | 0 <= i < j < |ids| :: Less(ids[i], ids[j])
  }

  /** Python's `sorted` on a set of ids. */
  function Sorted(s: set<Id>): (ids: seq<Id>)
    ensures Increasing(ids) && |ids| == |s|
    ensures forall x :: x in ids <==> x in s
  {
    if s == {} then [] else
      var m := Least(s);
      [m] + Sorted(s - {m})
  }

  lemma IncreasingHasNoRepeats(ids: seq<Id>)
    requires Increasing(ids)
    ensures forall i, j | 0 <= i < j < |ids| :: ids[i] != ids[j]
  {
    forall i, j | 0 <= i < j < |ids| ensures ids[i] != ids[j] {
      LessIrreflexive(ids[i]);
    }
  }
}
