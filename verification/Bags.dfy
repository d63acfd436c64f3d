/** The values of a function along a sequence, and the bag they make. */
module Bags {

  function Mapped<T, U>(f: T -> U, s: seq<T>): (r: seq<U>)
    ensures |r| == |s| && forall i | 0 <= i < |s| :: r[i] == f(s[i])
  {
    seq(|s|, i requires 0 <= i < |s| => f(s[i]))
  }

  lemma MappedConcat<T, U>(f: T -> U, s: seq<T>, t: seq<T>)
    ensures Mapped(f, s + t) == Mapped(f, s) + Mapped(f, t)
  {
  }

  lemma TakeOut<T>(t: seq<T>, i: nat)
    requires i < |t|
    ensures multiset(t) == multiset(t[..i] + t[i + 1..]) + multiset{t[i]}
  {
    assert t == t[..i] + ([t[i]] + t[i + 1..]);
  }

  lemma MappedTakeOut<T, U>(f: T -> U, t: seq<T>, i: nat)
    requires i < |t|
    ensures multiset(Mapped(f, t)) == multiset(Mapped(f, t[..i] + t[i + 1..])) + multiset{f(t[i])}
  {
    TakeOut(Mapped(f, t), i);
    assert Mapped(f, t)[..i] + Mapped(f, t)[i + 1..] == Mapped(f, t[..i] + t[i + 1..]);
  }

  lemma TakeOutSame<T>(s: seq<T>, t: seq<T>) returns (i: nat)
    requires multiset(s) == multiset(t) && s != []
    ensures i < |t| && t[i] == s[0] && multiset(s[1..]) == multiset(t[..i] + t[i + 1..])
  {
    assert s[0] in multiset(t);
    i :| i < |t| && t[i] == s[0];
    TakeOut(s, 0);
    assert s[..0] + s[1..] == s[1..];
    TakeOut(t, i);
    assert multiset(s[1..]) == multiset(s) - multiset{s[0]};
    assert multiset(t[..i] + t[i + 1..]) == multiset(t) - multiset{s[0]};
  }

  lemma EmptyBag<T>(t: seq<T>)
    requires multiset(t) == multiset{}
    ensures t == []
  {
    assert |t| == |multiset(t)|;
  }

  lemma MappedPutBack<T, U>(f: T -> U, s: seq<T>, t: seq<T>, i: nat)
    requires s != [] && i < |t| && t[i] == s[0]
    requires multiset(Mapped(f, s[1..])) == multiset(Mapped(f, t[..i] + t[i + 1..]))
    ensures multiset(Mapped(f, s)) == multiset(Mapped(f, t))
  {
    MappedTakeOut(f, s, 0);
    assert s[..0] + s[1..] == s[1..];
    MappedTakeOut(f, t, i);
  }

  /** The order of the sequence does not matter to the bag of values. */
  lemma {:induction false} MappedReordering<T, U>(f: T -> U, s: seq<T>, t: seq<T>)
    requires multiset(s) == multiset(t)
    ensures multiset(Mapped(f, s)) == multiset(Mapped(f, t))
    decreases |s|
  {
    if s == [] {
      EmptyBag(t);
    } else {
      var i := TakeOutSame(s, t);
      MappedReordering(f, s[1..], t[..i] + t[i + 1..]);
      MappedPutBack(f, s, t, i);
    }
  }
}
