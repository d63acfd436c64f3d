/** Undirected reachability over a set of links, by explicit walks. */
module Walks {
  import opened Ids

  type Links = set<(Id, Id)>

  predicate Adjacent(links: Links, x: Id, y: Id) {
    (x, y) in links || (y, x) in links
  }

  /** `via` lists the ids visited after `x`, the last being `y`. */
  predicate Walk(links: Links, x: Id, y: Id, via: seq<Id>)
    decreases via
  {
    if via == [] then x == y
    else Adjacent(links, x, via[0]) && Walk(links, via[0], y, via[1..])
  }

  ghost predicate Connected(links: Links, x: Id, y: Id) {
    exists via :: Walk(links, x, y, via)
  }

  lemma ConnectedRefl(links: Links, x: Id)
    ensures Connected(links, x, x)
  {
    assert Walk(links, x, x, []);
  }

  lemma ConnectedStep(links: Links, x: Id, y: Id)
    requires Adjacent(links, x, y)
    ensures Connected(links, x, y)
  {
    assert Walk(links, y, y, [y][1..]);
    assert Walk(links, x, y, [y]);
  }

  lemma {:induction false} WalkAppend(links: Links, x: Id, y: Id, z: Id, v: seq<Id>, w: seq<Id>)
    requires Walk(links, x, y, v) && Walk(links, y, z, w)
    ensures Walk(links, x, z, v + w)
    decreases v
  {
    if v == [] {
      assert v + w == w;
    } else {
      WalkAppend(links, v[0], y, z, v[1..], w);
      assert (v + w)[1..] == v[1..] + w;
    }
  }

  lemma ConnectedTrans(links: Links, x: Id, y: Id, z: Id)
    requires Connected(links, x, y) && Connected(links, y, z)
    ensures Connected(links, x, z)
  {
    var v :| Walk(links, x, y, v);
    var w :| Walk(links, y, z, w);
    WalkAppend(links, x, y, z, v, w);
  }

  lemma {:induction false} WalkReverse(links: Links, x: Id, y: Id, v: seq<Id>)
    requires Walk(links, x, y, v)
    ensures Connected(links, y, x)
    decreases v
  {
    if v == [] {
      ConnectedRefl(links, x);
    } else {
      WalkReverse(links, v[0], y, v[1..]);
      ConnectedStep(links, v[0], x);
      ConnectedTrans(links, y, v[0], x);
    }
  }

  lemma ConnectedSym(links: Links, x: Id, y: Id)
    requires Connected(links, x, y)
    ensures Connected(links, y, x)
  {
    var v :| Walk(links, x, y, v);
    WalkReverse(links, x, y, v);
  }

  lemma {:induction false} WalkMono(links: Links, more: Links, x: Id, y: Id, v: seq<Id>)
    requires Walk(links, x, y, v) && links <= more
    ensures Walk(more, x, y, v)
    decreases v
  {
    if v != [] { WalkMono(links, more, v[0], y, v[1..]); }
  }

  lemma ConnectedMono(links: Links, more: Links, x: Id, y: Id)
    requires Connected(links, x, y) && links <= more
    ensures Connected(more, x, y)
  {
    var v :| Walk(links, x, y, v);
    WalkMono(links, more, x, y, v);
  }

  /** A labelling that agrees across every link is constant along walks. */
  lemma {:induction false} WalkKeepsLabel<T>(links: Links, mark: Id -> T, x: Id, y: Id, v: seq<Id>)
    requires forall e | e in links :: mark(e.0) == mark(e.1)
    requires Walk(links, x, y, v)
    ensures mark(x) == mark(y)
    decreases v
  {
    if v != [] {
      if (x, v[0]) in links { assert mark((x, v[0]).0) == mark((x, v[0]).1); }
      else { assert mark((v[0], x).0) == mark((v[0], x).1); }
      WalkKeepsLabel(links, mark, v[0], y, v[1..]);
    }
  }

  lemma ConnectedKeepsLabel<T>(links: Links, mark: Id -> T, x: Id, y: Id)
    requires forall e | e in links :: mark(e.0) == mark(e.1)
    requires Connected(links, x, y)
    ensures mark(x) == mark(y)
  {
    var v :| Walk(links, x, y, v);
    WalkKeepsLabel(links, mark, x, y, v);
  }
}
