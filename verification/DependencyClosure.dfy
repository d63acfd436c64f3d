/**
 The closure of packages a lockfile lets Wrangler load. An install path `node_modules/a/node_modules/b`
 is the list of its package names, `["a", "b"]`.
 */
module DependencyClosure {

  import opened Options

  type Name = string
  type Path = seq<Name>

  /** A lock entry's declarations; `optionalPeers` are the peers its peer metadata marks optional. */
  datatype Entry = Entry(dependencies: seq<Name>, optionals: seq<Name>, peers: seq<Name>, optionalPeers: set<Name>)

  type Lock = map<Path, Entry>

  datatype Edge = Edge(name: Name, required: bool)

  datatype Outcome = Closure(seen: set<Path>) | Unresolved(path: Path, name: Name) | NoRoot

  // ---- nearest-ancestor resolution ------------------------------------------------------------------

  function Resolve(lock: Lock, base: Path, name: Name): Option<Path> {
    if base + [name] in lock then Some(base + [name])
    else if base == [] then None
    else Resolve(lock, base[..|base| - 1], name)
  }

  method ResolveLoop(lock: Lock, start: Path, name: Name) returns (r: Option<Path>)
    ensures r == Resolve(lock, start, name)
  {
    var base := start;
    while true
      invariant Resolve(lock, base, name) == Resolve(lock, start, name)
      decreases |base|
    {
      var candidate := base + [name];
      if candidate in lock {
        return Some(candidate);
      }
      if base == [] {
        return None;
      }
      base := base[..|base| - 1];
    }
  }

  /** What resolution finds is installed under the nearest ancestor that has it, and it misses nothing. */
  lemma {:induction false} ResolveIsNearest(lock: Lock, base: Path, name: Name)
    ensures match Resolve(lock, base, name)
            case Some(p) => p in lock && exists n ::
              && 0 <= n <= |base| && p == base[..n] + [name]
              && forall m | n < m <= |base| :: base[..m] + [name] !in lock
            case None => forall n | 0 <= n <= |base| :: base[..n] + [name] !in lock
    decreases |base|
  {
    assert base[..|base|] == base;
    if base + [name] !in lock && base != [] {
      var up := base[..|base| - 1];
      ResolveIsNearest(lock, up, name);
      assert forall n | 0 <= n <= |up| :: up[..n] == base[..n];
    }
  }

  // ---- the edges of the closure -----------------------------------------------------------------------

  function Required(names: seq<Name>, required: bool): seq<Edge> {
    if names == [] then [] else [Edge(names[0], required)] + Required(names[1..], required)
  }

  function PeerEdges(peers: seq<Name>, optional: set<Name>, unpinned: set<Name>): seq<Edge> {
    if peers == [] then []
    else (if peers[0] in unpinned then [] else [Edge(peers[0], peers[0] !in optional)])
         + PeerEdges(peers[1..], optional, unpinned)
  }

  function Edges(e: Entry, unpinned: set<Name>): seq<Edge> {
    Required(e.dependencies, true) + Required(e.optionals, false) + PeerEdges(e.peers, e.optionalPeers, unpinned)
  }

  lemma {:induction false} RequiredAre(names: seq<Name>, required: bool, e: Edge)
    ensures e in Required(names, required) <==> e.name in names && e.required == required
  {
    if names != [] { RequiredAre(names[1..], required, e); }
  }

  lemma {:induction false} PeerEdgesAre(peers: seq<Name>, optional: set<Name>, unpinned: set<Name>, e: Edge)
    ensures e in PeerEdges(peers, optional, unpinned) <==>
      e.name in peers && e.name !in unpinned && (e.required <==> e.name !in optional)
  {
    if peers != [] { PeerEdgesAre(peers[1..], optional, unpinned, e); }
  }

  /**
   A package needs its dependencies and those of its pinned peers that are not marked optional; it may use its
   optional dependencies and the other pinned peers.
   */
  lemma EdgesAre(e: Entry, unpinned: set<Name>, name: Name)
    ensures Edge(name, true) in Edges(e, unpinned) <==>
      name in e.dependencies || (name in e.peers && name !in unpinned && name !in e.optionalPeers)
    ensures Edge(name, false) in Edges(e, unpinned) <==>
      name in e.optionals || (name in e.peers && name !in unpinned && name in e.optionalPeers)
  {
    var must, may := Edge(name, true), Edge(name, false);
    RequiredAre(e.dependencies, true, must);
    RequiredAre(e.dependencies, true, may);
    RequiredAre(e.optionals, false, must);
    RequiredAre(e.optionals, false, may);
    PeerEdgesAre(e.peers, e.optionalPeers, unpinned, must);
    PeerEdgesAre(e.peers, e.optionalPeers, unpinned, may);
  }

  /** `x` loads `y`: one of its edges resolves there. */
  ghost predicate Loads(lock: Lock, unpinned: set<Name>, x: Path, y: Path) {
    x in lock && exists e :: e in Edges(lock[x], unpinned) && Resolve(lock, x, e.name) == Some(y)
  }

  /** `via` lists the paths visited from `x` on, before `y`. */
  ghost predicate Chain(lock: Lock, unpinned: set<Name>, x: Path, y: Path, via: seq<Path>)
    decreases |via|
  {
    if via == [] then x == y
    else
      var last := via[|via| - 1];
      Chain(lock, unpinned, x, last, via[..|via| - 1]) && Loads(lock, unpinned, last, y)
  }

  ghost predicate Reachable(lock: Lock, unpinned: set<Name>, root: Path, x: Path) {
    exists via :: Chain(lock, unpinned, root, x, via)
  }

  lemma ReachableExtends(lock: Lock, unpinned: set<Name>, root: Path, y: Path, z: Path)
    requires Reachable(lock, unpinned, root, y) && Loads(lock, unpinned, y, z)
    ensures Reachable(lock, unpinned, root, z)
  {
    var via :| Chain(lock, unpinned, root, y, via);
    assert (via + [y])[..|via|] == via;
    assert Chain(lock, unpinned, root, z, via + [y]);
  }

  ghost predicate ClosedUnderLoads(lock: Lock, unpinned: set<Name>, s: set<Path>) {
    forall x, y | x in s && Loads(lock, unpinned, x, y) :: y in s
  }

  /** Every closed set that has the root has everything reachable from it. */
  lemma {:induction false} ReachableInClosed(lock: Lock, unpinned: set<Name>, x: Path, y: Path, via: seq<Path>,
                                             s: set<Path>)
    requires ClosedUnderLoads(lock, unpinned, s) && x in s && Chain(lock, unpinned, x, y, via)
    ensures y in s
    decreases |via|
  {
    if via != [] { ReachableInClosed(lock, unpinned, x, via[|via| - 1], via[..|via| - 1], s); }
  }

  /** A reachable package needs a name that resolves nowhere. */
  ghost predicate Broken(lock: Lock, unpinned: set<Name>, root: Path, x: Path, name: Name) {
    && x in lock && Reachable(lock, unpinned, root, x)
    && Edge(name, true) in Edges(lock[x], unpinned) && Resolve(lock, x, name) == None
  }

  // ---- the worklist -----------------------------------------------------------------------------------

  /** Every edge of `x` among the first `n` resolves into `seen` or onto the stack, or may be missing. */
  ghost predicate Followed(lock: Lock, unpinned: set<Name>, x: Path, n: nat, seen: set<Path>, stack: seq<Path>)
    requires x in lock
  {
    forall i | 0 <= i < n && i < |Edges(lock[x], unpinned)| ::
      var e := Edges(lock[x], unpinned)[i];
      match Resolve(lock, x, e.name)
      case Some(y) => y in seen || y in stack
      case None => !e.required
  }

  ghost predicate AllFollowed(lock: Lock, unpinned: set<Name>, xs: set<Path>, seen: set<Path>, stack: seq<Path>) {
    forall x {:trigger lock[x]} | x in xs && x in lock ::
      Followed(lock, unpinned, x, |Edges(lock[x], unpinned)|, seen, stack)
  }

  /** What is seen and on the stack is installed and reachable, and what is seen has been followed. */
  ghost predicate Exploring(lock: Lock, unpinned: set<Name>, root: Path, seen: set<Path>, stack: seq<Path>) {
    && seen <= lock.Keys && (forall x | x in stack :: x in lock)
    && (forall x | x in seen || x in stack :: Reachable(lock, unpinned, root, x))
    && AllFollowed(lock, unpinned, seen, seen, stack)
    && (root in seen || root in stack)
  }

  /** A path seen before can be dropped. */
  lemma Pop(lock: Lock, unpinned: set<Name>, root: Path, seen: set<Path>, rest: seq<Path>, path: Path)
    requires Exploring(lock, unpinned, root, seen, rest + [path])
    ensures path in lock && Reachable(lock, unpinned, root, path)
    ensures path in seen ==> Exploring(lock, unpinned, root, seen, rest)
  {
    assert path in rest + [path];
    forall x | x in rest ensures x in rest + [path] {}
  }

  /** A new path is replaced by what its edges resolve to. */
  lemma Visit(lock: Lock, unpinned: set<Name>, root: Path, seen: set<Path>, rest: seq<Path>, path: Path,
              pushed: seq<Path>)
    requires Exploring(lock, unpinned, root, seen, rest + [path]) && path in lock && rest <= pushed
    requires forall x | x in pushed :: x in rest || (x in lock && Reachable(lock, unpinned, root, x))
    requires Followed(lock, unpinned, path, |Edges(lock[path], unpinned)|, seen + {path}, pushed)
    ensures Exploring(lock, unpinned, root, seen + {path}, pushed)
  {
    assert path in rest + [path];
    forall x | x in rest ensures x in rest + [path] && x in pushed {}
    forall x | x in seen && x in lock
      ensures Followed(lock, unpinned, x, |Edges(lock[x], unpinned)|, seen + {path}, pushed)
    {
      assert Followed(lock, unpinned, x, |Edges(lock[x], unpinned)|, seen, rest + [path]);
    }
  }

  /** The traversal: `seen` is the least set with the root that is closed under loading. */
  method ClosureOf(lock: Lock, unpinned: set<Name>, root: Path) returns (r: Outcome)
    ensures r.NoRoot? <==> root !in lock
    ensures r.Closure? ==> forall x :: x in r.seen <==> Reachable(lock, unpinned, root, x)
    ensures r.Closure? ==> root in r.seen && ClosedUnderLoads(lock, unpinned, r.seen)
    ensures r.Closure? ==> forall s | root in s && ClosedUnderLoads(lock, unpinned, s) :: r.seen <= s
    ensures r.Unresolved? ==> Broken(lock, unpinned, root, r.path, r.name)
    ensures r.Closure? ==> forall x, name :: !Broken(lock, unpinned, root, x, name)
  {
    if root !in lock {
      return NoRoot;
    }
    var seen: set<Path> := {};
    var stack := [root];
    assert Chain(lock, unpinned, root, root, []);
    while stack != []
      invariant Exploring(lock, unpinned, root, seen, stack)
      decreases lock.Keys - seen, |stack|
    {
      var path, rest := stack[|stack| - 1], stack[..|stack| - 1];
      LastApart(stack);
      Pop(lock, unpinned, root, seen, rest, path);
      if path in seen {
        stack := rest;
      } else {
        ghost var before := seen;
        seen := seen + {path};
        var pushed, failed := FollowEdges(lock, unpinned, root, path, seen, rest);
        if failed.Some? {
          return Unresolved(path, failed.value);
        }
        Visit(lock, unpinned, root, before, rest, path, pushed);
        FewerUnseen(lock, before, path);
        stack := pushed;
      }
    }
    Explored(lock, unpinned, root, seen, stack);
    r := Closure(seen);
  }

  /** The inner loop over one entry's edges. */
  method FollowEdges(lock: Lock, unpinned: set<Name>, ghost root: Path, path: Path, ghost seen: set<Path>,
                     stack0: seq<Path>)
    returns (stack: seq<Path>, failed: Option<Name>)
    requires path in lock && Reachable(lock, unpinned, root, path)
    ensures stack0 <= stack
    ensures forall x | x in stack :: x in stack0 || (x in lock && Reachable(lock, unpinned, root, x))
    ensures failed.Some? ==> Broken(lock, unpinned, root, path, failed.value)
    ensures failed.None? ==> Followed(lock, unpinned, path, |Edges(lock[path], unpinned)|, seen, stack)
  {
    stack := stack0;
    var edges := Edges(lock[path], unpinned);
    for i := 0 to |edges|
      invariant stack0 <= stack
      invariant forall x | x in stack :: x in stack0 || (x in lock && Reachable(lock, unpinned, root, x))
      invariant Followed(lock, unpinned, path, i, seen, stack)
    {
      var e := edges[i];
      var target := ResolveLoop(lock, path, e.name);
      ResolveIsNearest(lock, path, e.name);
      if target.Some? {
        assert Loads(lock, unpinned, path, target.value);
        ReachableExtends(lock, unpinned, root, path, target.value);
        stack := stack + [target.value];
      } else if e.required {
        assert e == Edge(e.name, true);
        return stack, Some(e.name);
      }
    }
    failed := None;
  }

  lemma LastApart(s: seq<Path>)
    requires s != []
    ensures s == s[..|s| - 1] + [s[|s| - 1]]
  {
  }

  lemma FewerUnseen(lock: Lock, seen: set<Path>, path: Path)
    requires path in lock && path !in seen
    ensures lock.Keys - (seen + {path}) < lock.Keys - seen
  {
    assert path in lock.Keys - seen && path !in lock.Keys - (seen + {path});
  }

  lemma Explored(lock: Lock, unpinned: set<Name>, root: Path, seen: set<Path>, stack: seq<Path>)
    requires Exploring(lock, unpinned, root, seen, stack) && stack == []
    ensures root in seen && ClosedUnderLoads(lock, unpinned, seen)
    ensures forall x :: x in seen <==> Reachable(lock, unpinned, root, x)
    ensures forall s | root in s && ClosedUnderLoads(lock, unpinned, s) :: seen <= s
    ensures forall x, name :: !Broken(lock, unpinned, root, x, name)
  {
    FinishClosure(lock, unpinned, root, seen);
  }

  lemma FinishClosure(lock: Lock, unpinned: set<Name>, root: Path, seen: set<Path>)
    requires root in seen && seen <= lock.Keys
    requires forall x | x in seen :: Reachable(lock, unpinned, root, x)
    requires AllFollowed(lock, unpinned, seen, seen, [])
    ensures forall x :: x in seen <==> Reachable(lock, unpinned, root, x)
    ensures ClosedUnderLoads(lock, unpinned, seen)
    ensures forall s | root in s && ClosedUnderLoads(lock, unpinned, s) :: seen <= s
    ensures forall x, name :: !Broken(lock, unpinned, root, x, name)
  {
    forall x, y | x in seen && Loads(lock, unpinned, x, y) ensures y in seen {
      var e :| e in Edges(lock[x], unpinned) && Resolve(lock, x, e.name) == Some(y);
    }
    forall s, x | root in s && ClosedUnderLoads(lock, unpinned, s) && Reachable(lock, unpinned, root, x)
      ensures x in s
    {
      var via :| Chain(lock, unpinned, root, x, via);
      ReachableInClosed(lock, unpinned, root, x, via, s);
    }
  }
}
