/**
 The cell builder's union-find: path compression, and the smaller id of two roots becomes the root.
 `parent` is the dictionary the code mutates; `rep` and `links` are ghost: the root each id resolves
 to, and the pairs `Union` has been called with so far.
 */
module UnionFind {
  import opened Ids
  import opened Walks

  type Table = map<Id, Id>

  /** The ids of `x`'s component among `keys`. */
  ghost function Component(links: Links, keys: set<Id>, x: Id): set<Id> {
    set y | y in keys && Connected(links, x, y)
  }

  /** `x` points at a smaller id (or itself) with the same root, and its root points at itself. */
  ghost predicate Descends(parent: Table, rep: Table, x: Id) {
    && x in parent && x in rep
    && parent[x] in rep && rep[parent[x]] == rep[x]
    && (parent[x] == x || Less(parent[x], x))
    && (rep[x] == x || Less(rep[x], x))
    && (parent[x] == x <==> rep[x] == x)
    && rep[x] in parent && parent[rep[x]] == rep[x]
  }

  ghost predicate Forest(parent: Table, rep: Table) {
    parent.Keys == rep.Keys && forall x {:trigger Descends(parent, rep, x)} | x in parent :: Descends(parent, rep, x)
  }

  /** `rep` is constant across every link, and every id is connected to its root. */
  ghost predicate Tracks(rep: Table, links: Links) {
    && (forall e | e in links :: e.0 in rep && e.1 in rep && rep[e.0] == rep[e.1])
    && (forall x {:trigger ReachesRoot(rep, links, x)} | x in rep :: ReachesRoot(rep, links, x))
  }

  ghost predicate ReachesRoot(rep: Table, links: Links, x: Id) {
    x in rep && Connected(links, x, rep[x])
  }

  /** Two registered ids have the same root exactly when a chain of union calls joins them. */
  lemma SameRootIffConnected(rep: Table, links: Links, x: Id, y: Id)
    requires Tracks(rep, links) && x in rep && y in rep
    ensures rep[x] == rep[y] <==> Connected(links, x, y)
  {
    if rep[x] == rep[y] {
      assert ReachesRoot(rep, links, x) && ReachesRoot(rep, links, y);
      ConnectedSym(links, y, rep[y]);
      ConnectedTrans(links, x, rep[x], y);
    }
    if Connected(links, x, y) {
      ConnectedKeepsLabel(links, z => if z in rep then rep[z] else z, x, y);
    }
  }

  lemma RootIsLeast(parent: Table, rep: Table, links: Links, x: Id)
    requires Forest(parent, rep) && Tracks(rep, links) && x in rep
    ensures IsLeast(Component(links, rep.Keys, x), rep[x])
  {
    assert Descends(parent, rep, x) && ReachesRoot(rep, links, x);
    forall y | y in Component(links, rep.Keys, x) ensures y == rep[x] || Less(rep[x], y) {
      SameRootIffConnected(rep, links, x, y);
      assert Descends(parent, rep, y);
    }
  }

  /** One step of path compression. */
  lemma CompressKeepsForest(parent: Table, rep: Table, x: Id)
    requires Forest(parent, rep) && x in parent && parent[x] != x
    ensures Forest(parent[x := rep[x]], rep)
  {
    var after := parent[x := rep[x]];
    assert Descends(parent, rep, x);
    assert Descends(parent, rep, rep[x]);
    forall y | y in after ensures Descends(after, rep, y) {
      assert Descends(parent, rep, y);
    }
  }

  function Joined(rep: Table, low: Id, high: Id): Table {
    map x | x in rep :: if rep[x] == high then low else rep[x]
  }

  lemma JoinKeepsForest(parent: Table, rep: Table, low: Id, high: Id)
    requires Forest(parent, rep) && low in rep && high in rep
    requires rep[low] == low && rep[high] == high && Less(low, high)
    ensures Forest(parent[high := low], Joined(rep, low, high))
  {
    var p, r := parent[high := low], Joined(rep, low, high);
    LessAsymmetric(low, high);
    assert Descends(parent, rep, low) && Descends(parent, rep, high);
    forall x | x in p ensures Descends(p, r, x) {
      assert Descends(parent, rep, x);
      if rep[x] == high && x != high {
        LessTransitive(low, high, x);
        LessIrreflexive(x);
        assert parent[x] in rep;
      }
    }
  }

  lemma JoinTracks(rep: Table, links: Links, a: Id, b: Id, low: Id, high: Id)
    requires Tracks(rep, links) && a in rep && b in rep
    requires (rep[a] == low && rep[b] == high) || (rep[a] == high && rep[b] == low)
    ensures Tracks(Joined(rep, low, high), links + {(a, b)})
  {
    var more := links + {(a, b)};
    var u, v := if rep[a] == high then a else b, if rep[a] == high then b else a;
    assert ReachesRoot(rep, links, u) && ReachesRoot(rep, links, v);
    ConnectedMono(links, more, u, high);
    ConnectedMono(links, more, v, low);
    ConnectedSym(more, u, high);
    ConnectedStep(more, u, v);
    ConnectedTrans(more, high, u, v);
    ConnectedTrans(more, high, v, low);
    forall x | x in rep ensures ReachesRoot(Joined(rep, low, high), more, x) {
      assert ReachesRoot(rep, links, x);
      ConnectedMono(links, more, x, rep[x]);
      if rep[x] == high { ConnectedTrans(more, x, high, low); }
    }
  }

  lemma JoinKeepsValid(parent: Table, rep: Table, links: Links, a: Id, b: Id, low: Id, high: Id)
    requires Forest(parent, rep) && Tracks(rep, links) && a in rep && b in rep
    requires (rep[a] == low && rep[b] == high) || (rep[a] == high && rep[b] == low)
    requires low == high || Less(low, high)
    ensures low == high ==> Joined(rep, low, high) == rep && Forest(parent, rep)
    ensures low != high ==> Forest(parent[high := low], Joined(rep, low, high))
    ensures Tracks(Joined(rep, low, high), links + {(a, b)})
    ensures Joined(rep, low, high).Keys == rep.Keys
    ensures Joined(rep, low, high)[a] == Joined(rep, low, high)[b] == low
    ensures IsLeast(Component(links + {(a, b)}, rep.Keys, a), low)
  {
    assert Descends(parent, rep, a) && Descends(parent, rep, b);
    assert Descends(parent, rep, low) && Descends(parent, rep, high);
    JoinTracks(rep, links, a, b, low, high);
    if low == high {
      assert Joined(rep, low, high) == rep;
      RootIsLeast(parent, rep, links + {(a, b)}, a);
    } else {
      JoinKeepsForest(parent, rep, low, high);
      RootIsLeast(parent[high := low], Joined(rep, low, high), links + {(a, b)}, a);
      assert Joined(rep, low, high).Keys == rep.Keys;
    }
  }

  function Registered(rep: Table, x: Id): Table {
    if x in rep then rep else rep[x := x]
  }

  lemma RegisterKeeps(parent: Table, rep: Table, links: Links, x: Id)
    requires Forest(parent, rep) && Tracks(rep, links)
    ensures Forest(Registered(parent, x), Registered(rep, x)) && Tracks(Registered(rep, x), links)
  {
    var p, r := Registered(parent, x), Registered(rep, x);
    ConnectedRefl(links, x);
    forall y | y in p ensures Descends(p, r, y) {
      if y in parent { assert Descends(parent, rep, y); }
    }
    forall y | y in r ensures ReachesRoot(r, links, y) {
      if y in rep { assert ReachesRoot(rep, links, y); }
    }
  }

  class DSU {
    var parent: Table
    ghost var rep: Table
    ghost var links: Links

    ghost predicate Valid()
      reads this
    {
      Forest(parent, rep) && Tracks(rep, links)
    }

    constructor ()
      ensures Valid() && parent == map[] && rep == map[] && links == {}
    {
      parent, rep, links := map[], map[], {};
    }

    /** Registers an unseen id, walks to the root, then points the walked path at it. */
    method Find(x: Id) returns (root: Id)
      requires Valid()
      modifies this
      ensures Valid() && links == old(links)
      ensures rep == Registered(old(rep), x) && rep.Keys == old(rep).Keys + {x} && root == rep[x]
      ensures IsLeast(Component(links, rep.Keys, x), root)
    {
      RegisterKeeps(parent, rep, links, x);
      if x !in parent {
        parent := parent[x := x];
      }
      rep := Registered(rep, x);
      root := x;
      while parent[root] != root
        invariant root in rep && x in rep && rep[root] == rep[x]
        modifies {}
        decreases Below(rep.Keys, root)
      {
        assert Descends(parent, rep, root);
        BelowShrinks(rep.Keys, root, parent[root]);
        root := parent[root];
      }
      assert Descends(parent, rep, root);
      root := Compress(x, root);
      RootIsLeast(parent, rep, links, x);
    }

    /** The second half of `find`. */
    method Compress(start: Id, root: Id) returns (same: Id)
      requires Valid() && start in parent && rep[start] == root
      modifies this`parent
      ensures Valid() && same == root
    {
      var x := start;
      while parent[x] != root
        invariant Valid() && x in parent && rep[x] == root
        decreases Below(rep.Keys, x)
      {
        assert Descends(parent, rep, x);
        BelowShrinks(rep.Keys, x, parent[x]);
        CompressKeepsForest(parent, rep, x);
        parent, x := parent[x := root], parent[x];
      }
      same := root;
    }

    method Union(a: Id, b: Id) returns (root: Id)
      requires Valid()
      modifies this
      ensures Valid() && links == old(links) + {(a, b)}
      ensures rep.Keys == old(rep).Keys + {a, b} && root == rep[a] == rep[b]
      ensures IsLeast(Component(links, rep.Keys, a), root)
    {
      var ra := Find(a);
      var rb := Find(b);
      ghost var p, r, l := parent, rep, links;
      assert r.Keys == old(rep).Keys + {a, b};
      if ra == rb {
        JoinKeepsValid(p, r, l, a, b, ra, rb);
        links := l + {(a, b)};
        return ra;
      }
      LessTotal(ra, rb);
      if Less(rb, ra) {
        ra, rb := rb, ra;
      }
      JoinKeepsValid(p, r, l, a, b, ra, rb);
      parent := parent[rb := ra];
      rep, links := Joined(r, ra, rb), l + {(a, b)};
      root := ra;
    }

    /** Every registered id, filed under its root. */
    method Groups() returns (out: map<Id, seq<Id>>)
      requires Valid()
      modifies this
      ensures Valid() && links == old(links) && rep == old(rep)
      ensures GroupsOf(rep, rep.Keys, out)
    {
      out := map[];
      var todo := parent.Keys;
      while todo != {}
        invariant Valid() && links == old(links) && rep == old(rep)
        invariant todo <= rep.Keys && GroupsOf(rep, rep.Keys - todo, out)
      {
        var x :| x in todo;
        var r := Find(x);
        FileUnderRoot(rep, rep.Keys - todo, out, x);
        out := out[r := (if r in out then out[r] else []) + [x]];
        assert rep.Keys - (todo - {x}) == (rep.Keys - todo) + {x};
        todo := todo - {x};
      }
      assert rep.Keys - todo == rep.Keys;
    }
  }

  /** `out` files each of `done` once, under its root, and nothing else. */
  ghost predicate GroupsOf(rep: Table, done: set<Id>, out: map<Id, seq<Id>>)
    requires done <= rep.Keys
  {
    && (forall r | r in out :: out[r] != [] && NoRepeats(out[r]))
    && (forall r, x | r in out && x in out[r] :: x in done && rep[x] == r)
    && (forall x | x in done :: rep[x] in out && x in out[rep[x]])
  }

  predicate NoRepeats(s: seq<Id>) {
    forall i, j | 0 <= i < j < |s| :: s[i] != s[j]
  }

  lemma FileUnderRoot(rep: Table, done: set<Id>, out: map<Id, seq<Id>>, x: Id)
    requires done <= rep.Keys && x in rep && x !in done && GroupsOf(rep, done, out)
    ensures GroupsOf(rep, done + {x}, out[rep[x] := (if rep[x] in out then out[rep[x]] else []) + [x]])
  {
  }

  /** The groups are exactly the components of the union-call graph, keyed by their least ids. */
  lemma GroupsAreComponents(parent: Table, rep: Table, links: Links, out: map<Id, seq<Id>>)
    requires Forest(parent, rep) && Tracks(rep, links) && GroupsOf(rep, rep.Keys, out)
    ensures forall r | r in out :: (set x | x in out[r]) == Component(links, rep.Keys, r)
                                   && IsLeast(Component(links, rep.Keys, r), r)
    ensures forall x | x in rep :: exists r :: r in out && x in out[r]
  {
    forall r | r in out
      ensures (set x | x in out[r]) == Component(links, rep.Keys, r) && IsLeast(Component(links, rep.Keys, r), r)
    {
      var z := out[r][0];
      assert Descends(parent, rep, z);
      assert Descends(parent, rep, r);
      forall x ensures x in out[r] <==> x in Component(links, rep.Keys, r) {
        if x in rep { SameRootIffConnected(rep, links, r, x); }
      }
      RootIsLeast(parent, rep, links, r);
    }
  }

  /**
   Path compression and call order are unobservable: two union-finds that have seen the same ids and
   the same union pairs, in whatever order and with whatever finds between them, agree on every root.
   */
  lemma RootsDependOnlyOnLinks(parent: Table, rep: Table, links: Links, parent': Table, rep': Table)
    requires Forest(parent, rep) && Tracks(rep, links)
    requires Forest(parent', rep') && Tracks(rep', links)
    requires parent.Keys == parent'.Keys
    ensures rep == rep'
  {
    forall x | x in rep ensures rep[x] == rep'[x] {
      RootIsLeast(parent, rep, links, x);
      RootIsLeast(parent', rep', links, x);
      LeastIsUnique(Component(links, rep.Keys, x), rep[x], rep'[x]);
    }
  }
}
