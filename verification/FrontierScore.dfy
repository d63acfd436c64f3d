/**
 Formal proximity of frontier cells, and the compressed graph a client re-scores from for any set of
 libraries. Scores are scaled by four: `4 * direct + bridge`.
 */
module FrontierScore {
  import opened Ids
  import opened Sums

  type Library = Id
  /** A formalized cell's exact set of owning libraries, as a sorted list. */
  type RootKey = seq<Library>

  datatype Synapse = Synapse(src: Id, dst: Id, weight: int)

  /**
   `cells` are the frontier cells in order, `index` their positions, `roots` the libraries of each formalized cell.
   */
  datatype World = World(cells: seq<Id>, index: map<Id, nat>, roots: map<Id, set<Library>>) {
    ghost predicate Valid() {
      && (forall i | 0 <= i < |cells| :: cells[i] in index && index[cells[i]] == i)
      && (forall c | c in index :: index[c] < |cells| && cells[index[c]] == c)
      && (forall c | c in index :: c !in roots)
    }
  }

  type Formal = map<Id, map<RootKey, int>>
  type EdgeWeights = map<(nat, nat), int>
  datatype Primitives = Primitives(formal: Formal, directW: map<Id, int>, directB: map<Id, int>, edges: EdgeWeights)

  function Get<K>(m: map<K, int>, k: K): int { if k in m then m[k] else 0 }

  function Plus<K>(m: map<K, int>, k: K, w: int): map<K, int> { m[k := Get(m, k) + w] }

  function FormalOf(formal: Formal, c: Id): map<RootKey, int> { if c in formal then formal[c] else map[] }

  // ---- the reference: scores straight from the synapses --------------------------------------------

  predicate Owns(libs: set<Library>, key: RootKey) {
    exists r :: r in key && r in libs
  }

  /** The frontier end of a synapse into a formalized cell, if the synapse is one. */
  predicate IntoFormal(world: World, s: Synapse, c: Id, u: Id) {
    c in world.index && u in world.roots && ((s.src == c && s.dst == u) || (s.src == u && s.dst == c))
  }

  function FormalWeight(world: World, s: Synapse, libs: set<Library>, c: Id): int {
    if IntoFormal(world, s, c, s.dst) && world.roots[s.dst] * libs != {} then s.weight
    else if IntoFormal(world, s, c, s.src) && world.roots[s.src] * libs != {} then s.weight
    else 0
  }

  /** Direct score for a set of libraries: synapses into cells some library of the set owns. */
  function DirectRef(world: World, rows: seq<Synapse>, libs: set<Library>, c: Id): int {
    if rows == [] then 0
    else DirectRef(world, rows[..|rows| - 1], libs, c) + FormalWeight(world, rows[|rows| - 1], libs, c)
  }

  function BondWeight(rows: seq<Synapse>, c: Id, d: Id): int {
    if rows == [] then 0
    else
      var s := rows[|rows| - 1];
      BondWeight(rows[..|rows| - 1], c, d)
      + if (s.src == c && s.dst == d) || (s.src == d && s.dst == c) then s.weight else 0
  }

  function Min(a: int, b: int): int { if a < b then a else b }

  /** Bridge score over the first `n` frontier cells: each is worth no more than its own direct score. */
  function BridgeRef(world: World, rows: seq<Synapse>, libs: set<Library>, i: nat, n: nat): int
    requires i < |world.cells| && n <= |world.cells|
  {
    if n == 0 then 0
    else
      var d := world.cells[n - 1];
      BridgeRef(world, rows, libs, i, n - 1)
      + if n - 1 == i then 0 else Min(BondWeight(rows, world.cells[i], d), DirectRef(world, rows, libs, d))
  }

  function ScoreRef(world: World, rows: seq<Synapse>, libs: set<Library>, i: nat): int
    requires i < |world.cells|
  {
    4 * DirectRef(world, rows, libs, world.cells[i]) + BridgeRef(world, rows, libs, i, |world.cells|)
  }

  // ---- the accumulation pass ----------------------------------------------------------------------

  function Step(world: World, p: Primitives, s: Synapse): Primitives {
    if s.src in world.index && s.dst in world.index then
      var i, j := world.index[s.src], world.index[s.dst];
      if i == j then p
      else p.(edges := Plus(p.edges, if i < j then (i, j) else (j, i), s.weight))
    else
      var c, u := if s.src in world.index then s.src else s.dst, if s.src in world.index then s.dst else s.src;
      if u !in world.roots || c !in world.index then p
      else
        var key := Sorted(world.roots[u]);
        Primitives(p.formal[c := Plus(FormalOf(p.formal, c), key, s.weight)],
                   Plus(p.directW, c, s.weight), Plus(p.directB, c, 1), p.edges)
  }

  function Accumulated(world: World, rows: seq<Synapse>): Primitives {
    if rows == [] then Primitives(map[], map[], map[], map[])
    else Step(world, Accumulated(world, rows[..|rows| - 1]), rows[|rows| - 1])
  }

  lemma AccumulatedStep(world: World, rows: seq<Synapse>, s: Synapse)
    ensures Accumulated(world, rows + [s]) == Step(world, Accumulated(world, rows), s)
  {
    assert (rows + [s])[..|rows|] == rows;
  }

  predicate Attributable(world: World, s: Synapse) {
    && (s.src in world.index && s.dst in world.roots ==> world.roots[s.dst] != {})
    && (s.dst in world.index && s.src in world.roots ==> world.roots[s.src] != {})
  }

  /** The raw rows: positive weights, and each touches the frontier. */
  predicate Rows(world: World, rows: seq<Synapse>) {
    forall s | s in rows :: s.weight > 0 && (s.src in world.index || s.dst in world.index)
  }

  /** The pass over the raw rows; `ok` is the attribution assertion after it. */
  method Accumulate(world: World, rows: seq<Synapse>) returns (ok: bool, p: Primitives)
    requires world.Valid() && Rows(world, rows)
    ensures ok <==> forall s | s in rows :: Attributable(world, s)
    ensures ok ==> p == Accumulated(world, rows)
  {
    ok, p := true, Primitives(map[], map[], map[], map[]);
    for n := 0 to |rows|
      invariant ok <==> forall s | s in rows[..n] :: Attributable(world, s)
      invariant ok ==> p == Accumulated(world, rows[..n])
    {
      assert rows[n] in rows;
      assert rows[..n + 1] == rows[..n] + [rows[n]];
      AccumulatedStep(world, rows[..n], rows[n]);
      var attributable, q := AddRow(world, p, rows[n]);
      ok, p := ok && attributable, q;
    }
    assert rows[..|rows|] == rows;
  }

  method AddRow(world: World, p: Primitives, s: Synapse) returns (attributable: bool, q: Primitives)
    requires world.Valid() && (s.src in world.index || s.dst in world.index)
    ensures attributable <==> Attributable(world, s)
    ensures attributable ==> q == Step(world, p, s)
  {
    attributable, q := true, p;
    if s.src in world.index && s.dst in world.index {
      var i, j := world.index[s.src], world.index[s.dst];
      if i != j {
        q := q.(edges := Plus(q.edges, if i < j then (i, j) else (j, i), s.weight));
      }
    } else if s.src in world.index {
      attributable, q := AddFormal(world, p, s, s.src, s.dst);
    } else {
      attributable, q := AddFormal(world, p, s, s.dst, s.src);
    }
  }

  method AddFormal(world: World, p: Primitives, s: Synapse, c: Id, u: Id) returns (attributable: bool, q: Primitives)
    requires world.Valid() && c in world.index && u !in world.index
    requires (s.src == c && s.dst == u) || (s.src == u && s.dst == c)
    ensures attributable <==> Attributable(world, s)
    ensures attributable ==> q == Step(world, p, s)
  {
    attributable, q := true, p;
    if u in world.roots {
      var libs := world.roots[u];
      attributable := libs != {};
      q := Primitives(q.formal[c := Plus(FormalOf(q.formal, c), Sorted(libs), s.weight)],
                      Plus(q.directW, c, s.weight), Plus(q.directB, c, 1), q.edges);
    }
  }

  // ---- re-scoring from the compressed graph ---------------------------------------------------------

  /** The entries of a formal row whose key meets the enabled libraries. */
  function Enabled(row: map<RootKey, int>, libs: set<Library>): map<RootKey, int> {
    map k | k in row && Owns(libs, k) :: row[k]
  }

  ghost function DirectFrom(formal: Formal, libs: set<Library>, c: Id): int {
    Sum(Enabled(FormalOf(formal, c), libs))
  }

  function EdgeAt(edges: EdgeWeights, i: nat, j: nat): int {
    Get(edges, if i < j then (i, j) else (j, i))
  }

  /** The bridge term over the first `n` cells, from edge triples and a direct score per cell. */
  function BridgeFrom(edges: EdgeWeights, direct: seq<int>, i: nat, n: nat): int
    requires n <= |direct|
  {
    if n == 0 then 0
    else BridgeFrom(edges, direct, i, n - 1) + if n - 1 == i then 0 else Min(EdgeAt(edges, i, n - 1), direct[n - 1])
  }

  lemma KeyOwned(roots: set<Library>, libs: set<Library>)
    ensures Owns(libs, Sorted(roots)) <==> roots * libs != {}
  {
    if Owns(libs, Sorted(roots)) {
      var r :| r in Sorted(roots) && r in libs;
      assert r in roots * libs;
    }
    if roots * libs != {} {
      var r :| r in roots * libs;
      assert r in Sorted(roots);
    }
  }

  lemma EnabledPlus(row: map<RootKey, int>, libs: set<Library>, k: RootKey, w: int)
    ensures Sum(Enabled(Plus(row, k, w), libs)) == Sum(Enabled(row, libs)) + if Owns(libs, k) then w else 0
  {
    if Owns(libs, k) {
      assert Enabled(Plus(row, k, w), libs) == Enabled(row, libs)[k := Get(row, k) + w];
      SumUpdate(Enabled(row, libs), k, Get(row, k) + w);
    } else {
      assert Enabled(Plus(row, k, w), libs) == Enabled(row, libs);
    }
  }

  lemma FormalWeightFrontier(world: World, s: Synapse, libs: set<Library>, c: Id)
    requires world.Valid() && s.src in world.index && s.dst in world.index
    ensures FormalWeight(world, s, libs, c) == 0
  {
  }

  lemma FormalWeightInto(world: World, s: Synapse, libs: set<Library>, c: Id, f: Id, u: Id)
    requires world.Valid() && f in world.index && u !in world.index
    requires (s.src == f && s.dst == u) || (s.src == u && s.dst == f)
    ensures FormalWeight(world, s, libs, c)
      == if c == f && u in world.roots && world.roots[u] * libs != {} then s.weight else 0
  {
  }

  lemma StepFormal(world: World, p: Primitives, s: Synapse, c: Id, f: Id, u: Id)
    requires f in world.index && u !in world.index
    requires (s.src == f && s.dst == u) || (s.src == u && s.dst == f)
    ensures FormalOf(Step(world, p, s).formal, c)
            == if c == f && u in world.roots then Plus(FormalOf(p.formal, c), Sorted(world.roots[u]), s.weight)
               else FormalOf(p.formal, c)
  {
  }

  lemma DirectStep(world: World, p: Primitives, s: Synapse, libs: set<Library>, c: Id)
    requires world.Valid() && (s.src in world.index || s.dst in world.index)
    ensures DirectFrom(Step(world, p, s).formal, libs, c)
      == DirectFrom(p.formal, libs, c) + FormalWeight(world, s, libs, c)
  {
    if s.src in world.index && s.dst in world.index {
      FormalWeightFrontier(world, s, libs, c);
    } else if s.src in world.index {
      DirectStepInto(world, p, s, libs, c, s.src, s.dst);
    } else {
      DirectStepInto(world, p, s, libs, c, s.dst, s.src);
    }
  }

  lemma DirectStepInto(world: World, p: Primitives, s: Synapse, libs: set<Library>, c: Id, f: Id, u: Id)
    requires world.Valid() && f in world.index && u !in world.index
    requires (s.src == f && s.dst == u) || (s.src == u && s.dst == f)
    ensures DirectFrom(Step(world, p, s).formal, libs, c)
      == DirectFrom(p.formal, libs, c) + FormalWeight(world, s, libs, c)
  {
    FormalWeightInto(world, s, libs, c, f, u);
    StepFormal(world, p, s, c, f, u);
    if c == f && u in world.roots {
      var key := Sorted(world.roots[u]);
      KeyOwned(world.roots[u], libs);
      EnabledPlus(FormalOf(p.formal, c), libs, key, s.weight);
    }
  }

  /** The compressed rows lose nothing: each multi-library neighbour still counts once. */
  lemma {:induction false} DirectParity(world: World, rows: seq<Synapse>, libs: set<Library>, c: Id)
    requires world.Valid() && Rows(world, rows)
    ensures DirectFrom(Accumulated(world, rows).formal, libs, c) == DirectRef(world, rows, libs, c)
  {
    if rows == [] {
      assert Enabled(map[], libs) == map[];
    } else {
      var init, s := rows[..|rows| - 1], rows[|rows| - 1];
      DirectParity(world, init, libs, c);
      assert s in rows;
      DirectStep(world, Accumulated(world, init), s, libs, c);
    }
  }

  lemma {:induction false} EdgeParity(world: World, rows: seq<Synapse>, i: nat, j: nat)
    requires world.Valid() && i < |world.cells| && j < |world.cells| && i != j
    ensures EdgeAt(Accumulated(world, rows).edges, i, j) == BondWeight(rows, world.cells[i], world.cells[j])
  {
    if rows != [] {
      EdgeParity(world, rows[..|rows| - 1], i, j);
    }
  }

  ghost function DirectScores(world: World, formal: Formal, libs: set<Library>): seq<int> {
    seq(|world.cells|, i requires 0 <= i < |world.cells| => DirectFrom(formal, libs, world.cells[i]))
  }

  /** What a client computes for cell `i` from the graph alone, with only `libs` enabled. */
  ghost function Rescore(world: World, p: Primitives, libs: set<Library>, i: nat): int
    requires i < |world.cells|
  {
    4 * DirectFrom(p.formal, libs, world.cells[i])
    + BridgeFrom(p.edges, DirectScores(world, p.formal, libs), i, |world.cells|)
  }

  lemma {:induction false} BridgeParity(world: World, rows: seq<Synapse>, libs: set<Library>, i: nat, n: nat)
    requires world.Valid() && Rows(world, rows) && i < |world.cells| && n <= |world.cells|
    ensures var p := Accumulated(world, rows);
            BridgeFrom(p.edges, DirectScores(world, p.formal, libs), i, n) == BridgeRef(world, rows, libs, i, n)
  {
    if n > 0 {
      BridgeParity(world, rows, libs, i, n - 1);
      DirectParity(world, rows, libs, world.cells[n - 1]);
      if n - 1 != i { EdgeParity(world, rows, i, n - 1); }
    }
  }

  /** The parity law, for every set of libraries and every frontier cell. */
  lemma ParityLaw(world: World, rows: seq<Synapse>, libs: set<Library>, i: nat)
    requires world.Valid() && Rows(world, rows) && i < |world.cells|
    ensures Rescore(world, Accumulated(world, rows), libs, i) == ScoreRef(world, rows, libs, i)
  {
    DirectParity(world, rows, libs, world.cells[i]);
    BridgeParity(world, rows, libs, i, |world.cells|);
  }

  // ---- monotonicity -------------------------------------------------------------------------------

  lemma {:induction false} DirectMonotone(world: World, rows: seq<Synapse>, libs: set<Library>, more: set<Library>,
                                          c: Id)
    requires Rows(world, rows) && libs <= more
    ensures 0 <= DirectRef(world, rows, libs, c) <= DirectRef(world, rows, more, c)
  {
    if rows != [] {
      var s := rows[|rows| - 1];
      assert s in rows;
      DirectMonotone(world, rows[..|rows| - 1], libs, more, c);
      forall u | u in world.roots ensures world.roots[u] * libs <= world.roots[u] * more {
      }
    }
  }

  lemma {:induction false} BridgeMonotone(world: World, rows: seq<Synapse>, libs: set<Library>, more: set<Library>,
                                          i: nat, n: nat)
    requires Rows(world, rows) && libs <= more && i < |world.cells| && n <= |world.cells|
    ensures BridgeRef(world, rows, libs, i, n) <= BridgeRef(world, rows, more, i, n)
  {
    if n > 0 {
      BridgeMonotone(world, rows, libs, more, i, n - 1);
      DirectMonotone(world, rows, libs, more, world.cells[n - 1]);
    }
  }

  /** Enabling more libraries never lowers a score. */
  lemma ScoreMonotone(world: World, rows: seq<Synapse>, libs: set<Library>, more: set<Library>, i: nat)
    requires Rows(world, rows) && libs <= more && i < |world.cells|
    ensures ScoreRef(world, rows, libs, i) <= ScoreRef(world, rows, more, i)
  {
    DirectMonotone(world, rows, libs, more, world.cells[i]);
    BridgeMonotone(world, rows, libs, more, i, |world.cells|);
  }

  // ---- the builder's scores -----------------------------------------------------------------------

  ghost predicate EdgesWithin(edges: EdgeWeights, n: nat) {
    forall e | e in edges :: e.0 < e.1 < n && edges[e] > 0
  }

  /** Neighbours with a direct score of their own, among the first `n` cells. */
  function BridgeCount(edges: EdgeWeights, direct: seq<int>, i: nat, n: nat): int
    requires n <= |direct|
  {
    if n == 0 then 0
    else BridgeCount(edges, direct, i, n - 1)
         + if n - 1 != i && EdgeAt(edges, i, n - 1) > 0 && direct[n - 1] > 0 then 1 else 0
  }

  type Neighbours = seq<(nat, int)>

  /** The bottleneck sum over one adjacency list. */
  function ListWeight(direct: seq<int>, ns: Neighbours): int
    requires forall p | p in ns :: p.0 < |direct|
  {
    if ns == [] then 0
    else
      var (j, w) := ns[|ns| - 1];
      assert ns[|ns| - 1] in ns;
      ListWeight(direct, ns[..|ns| - 1]) + if direct[j] != 0 then Min(w, direct[j]) else 0
  }

  function ListCount(direct: seq<int>, ns: Neighbours): int
    requires forall p | p in ns :: p.0 < |direct|
  {
    if ns == [] then 0
    else
      assert ns[|ns| - 1] in ns;
      ListCount(direct, ns[..|ns| - 1]) + if direct[ns[|ns| - 1].0] != 0 then 1 else 0
  }

  /** One more edge adds its bottleneck to its two ends and to no other cell. */
  lemma {:induction false} BridgeAddEdge(edges: EdgeWeights, direct: seq<int>, a: nat, b: nat, w: int, i: nat, n: nat)
    requires a < b && (a, b) !in edges && w > 0 && n <= |direct| && forall d | d in direct :: d >= 0
    requires forall e | e in edges :: edges[e] > 0
    ensures BridgeFrom(edges[(a, b) := w], direct, i, n)
            == BridgeFrom(edges, direct, i, n)
               + (if i == a && b < n then if w < direct[b] then w else direct[b]
                  else if i == b && a < n then if w < direct[a] then w else direct[a]
                  else 0)
    ensures BridgeCount(edges[(a, b) := w], direct, i, n)
            == BridgeCount(edges, direct, i, n)
               + (if (i == a && b < n && direct[b] > 0) || (i == b && a < n && direct[a] > 0) then 1 else 0)
  {
    if n > 0 {
      assert direct[n - 1] in direct;
      BridgeAddEdge(edges, direct, a, b, w, i, n - 1);
    }
  }

  lemma {:induction false} BridgeNoEdges(direct: seq<int>, i: nat, n: nat)
    requires n <= |direct| && forall d | d in direct :: d >= 0
    ensures BridgeFrom(map[], direct, i, n) == 0 && BridgeCount(map[], direct, i, n) == 0
  {
    if n > 0 {
      assert direct[n - 1] in direct;
      BridgeNoEdges(direct, i, n - 1);
    }
  }

  // ---- what a bridge is worth: with each neighbour the lesser of the bond and the neighbour's own score ---------

  /** The bridge term is a sum over the other cells: `terms` has each one's bond, or its own score if that is less. */
  lemma {:induction false} BridgeIsSum(edges: EdgeWeights, direct: seq<int>, i: nat, n: nat, terms: map<nat, int>)
    requires n <= |direct| && forall j: nat :: j in terms <==> j < n && j != i
    requires forall j | j in terms ::
      var bond, own := EdgeAt(edges, i, j), direct[j]; terms[j] == if bond < own then bond else own
    ensures BridgeFrom(edges, direct, i, n) == Sum(terms)
  {
    if n > 0 {
      if n - 1 == i {
        BridgeIsSum(edges, direct, i, n - 1, terms);
      } else {
        var last: nat := n - 1;
        assert last in terms;
        SumRemove(terms, last);
        BridgeIsSum(edges, direct, i, n - 1, terms - {last});
      }
    } else {
      assert terms == map[];
    }
  }

  /** The same on the raw rows, for any set of libraries. */
  lemma {:induction false} BridgeRefIsSum(world: World, rows: seq<Synapse>, libs: set<Library>, i: nat, n: nat,
                                          terms: map<nat, int>)
    requires i < |world.cells| && n <= |world.cells| && forall j: nat :: j in terms <==> j < n && j != i
    requires forall j | j in terms ::
      var bond, own := BondWeight(rows, world.cells[i], world.cells[j]), DirectRef(world, rows, libs, world.cells[j]);
      terms[j] == if bond < own then bond else own
    ensures BridgeRef(world, rows, libs, i, n) == Sum(terms)
  {
    if n > 0 {
      if n - 1 == i {
        BridgeRefIsSum(world, rows, libs, i, n - 1, terms);
      } else {
        var last: nat := n - 1;
        assert last in terms;
        SumRemove(terms, last);
        BridgeRefIsSum(world, rows, libs, i, n - 1, terms - {last});
      }
    } else {
      assert terms == map[];
    }
  }

  /** A single edge is worth to each end the lesser of its weight and the other end's own score. */
  lemma OneEdge(direct: seq<int>, a: nat, b: nat, w: int)
    requires a < b < |direct| && w > 0 && forall d | d in direct :: d >= 0
    ensures BridgeFrom(map[(a, b) := w], direct, a, |direct|) == if w < direct[b] then w else direct[b]
    ensures BridgeFrom(map[(a, b) := w], direct, b, |direct|) == if w < direct[a] then w else direct[a]
  {
    BridgeAddEdge(map[], direct, a, b, w, a, |direct|);
    BridgeAddEdge(map[], direct, a, b, w, b, |direct|);
    BridgeNoEdges(direct, a, |direct|);
    BridgeNoEdges(direct, b, |direct|);
    assert map[][(a, b) := w] == map[(a, b) := w];
  }

  ghost predicate Listed(edges: EdgeWeights, direct: seq<int>, adj: seq<Neighbours>, i: nat)
    requires i < |adj| == |direct|
  {
    && (forall p | p in adj[i] :: p.0 < |direct|)
    && ListWeight(direct, adj[i]) == BridgeFrom(edges, direct, i, |direct|)
    && ListCount(direct, adj[i]) == BridgeCount(edges, direct, i, |direct|)
  }

  lemma ListStep(direct: seq<int>, ns: Neighbours, j: nat, w: int)
    requires j < |direct| && forall p | p in ns :: p.0 < |direct|
    ensures ListWeight(direct, ns + [(j, w)])
      == ListWeight(direct, ns) + if direct[j] != 0 then Min(w, direct[j]) else 0
    ensures ListCount(direct, ns + [(j, w)]) == ListCount(direct, ns) + if direct[j] != 0 then 1 else 0
  {
    assert (ns + [(j, w)])[..|ns|] == ns;
  }

  lemma ListedStep(edges: EdgeWeights, direct: seq<int>, adj: seq<Neighbours>, a: nat, b: nat, w: int, i: nat)
    requires i < |adj| == |direct| && Listed(edges, direct, adj, i)
    requires a < b < |adj| && (a, b) !in edges && w > 0 && forall d | d in direct :: d >= 0
    requires forall e | e in edges :: edges[e] > 0
    ensures Listed(edges[(a, b) := w], direct, adj[a := adj[a] + [(b, w)]][b := adj[b] + [(a, w)]], i)
  {
    BridgeAddEdge(edges, direct, a, b, w, i, |direct|);
    assert direct[a] in direct && direct[b] in direct;
    if i == a { ListStep(direct, adj[a], b, w); }
    if i == b { ListStep(direct, adj[b], a, w); }
  }

  ghost predicate AllListed(edges: EdgeWeights, direct: seq<int>, adj: seq<Neighbours>)
    requires |adj| == |direct|
  {
    forall i | 0 <= i < |adj| :: Listed(edges, direct, adj, i)
  }

  lemma AllListedStep(edges: EdgeWeights, direct: seq<int>, adj: seq<Neighbours>, a: nat, b: nat, w: int)
    requires |adj| == |direct| && AllListed(edges, direct, adj)
    requires a < b < |adj| && (a, b) !in edges && w > 0 && forall d | d in direct :: d >= 0
    requires forall e | e in edges :: edges[e] > 0
    ensures AllListed(edges[(a, b) := w], direct, adj[a := adj[a] + [(b, w)]][b := adj[b] + [(a, w)]])
  {
    var more, after := edges[(a, b) := w], adj[a := adj[a] + [(b, w)]][b := adj[b] + [(a, w)]];
    forall i | 0 <= i < |after| ensures Listed(more, direct, after, i) {
      ListedStep(edges, direct, adj, a, b, w, i);
    }
  }

  /** Adjacency lists from the edges, in whatever order the edges come. */
  method Adjacency(edges: EdgeWeights, direct: seq<int>) returns (adj: seq<Neighbours>)
    requires EdgesWithin(edges, |direct|) && forall d | d in direct :: d >= 0
    ensures |adj| == |direct| && forall i | 0 <= i < |adj| :: Listed(edges, direct, adj, i)
  {
    adj := seq(|direct|, _ => []);
    var todo := edges.Keys;
    assert edges - todo == map[];
    forall i | 0 <= i < |adj| ensures Listed(edges - todo, direct, adj, i) { BridgeNoEdges(direct, i, |direct|); }
    while todo != {}
      invariant |adj| == |direct| && todo <= edges.Keys && AllListed(edges - todo, direct, adj)
    {
      var e :| e in todo;
      var a, b, w := e.0, e.1, edges[e];
      AllListedStep(edges - todo, direct, adj, a, b, w);
      EdgesGrow(edges, todo, e);
      adj := adj[a := adj[a] + [(b, w)]][b := adj[b] + [(a, w)]];
      todo := todo - {e};
    }
    assert edges - todo == edges;
  }

  lemma EdgesGrow(edges: EdgeWeights, todo: set<(nat, nat)>, e: (nat, nat))
    requires e in todo && todo <= edges.Keys
    ensures edges - (todo - {e}) == (edges - todo)[(e.0, e.1) := edges[e]]
  {
    assert e == (e.0, e.1);
  }

  /** Direct weight, bridge count, bridge weight and scaled score of one frontier cell. */
  datatype Proximity = Proximity(dw: int, ib: int, iw: int, s4: int)

  ghost function ProximityOf(edges: EdgeWeights, direct: seq<int>, i: nat): Proximity
    requires i < |direct|
  {
    var iw := BridgeFrom(edges, direct, i, |direct|);
    Proximity(direct[i], BridgeCount(edges, direct, i, |direct|), iw, 4 * direct[i] + iw)
  }

  /** The scoring loops, shared by the builder, its parity check and the validator. */
  method ScoreAll(edges: EdgeWeights, direct: seq<int>) returns (prox: seq<Proximity>)
    requires EdgesWithin(edges, |direct|) && forall d | d in direct :: d >= 0
    ensures |prox| == |direct| && forall i | 0 <= i < |prox| :: prox[i] == ProximityOf(edges, direct, i)
    ensures forall a, b, w | 0 <= a < b < |direct| && edges == map[(a, b) := w] ::
              && prox[a].iw == (if w < direct[b] then w else direct[b])
              && prox[b].iw == (if w < direct[a] then w else direct[a])
  {
    var adj := Adjacency(edges, direct);
    prox := [];
    for i := 0 to |direct|
      invariant |prox| == i && forall k | 0 <= k < i :: prox[k] == ProximityOf(edges, direct, k)
    {
      assert Listed(edges, direct, adj, i);
      var iw, ib := 0, 0;
      for k := 0 to |adj[i]|
        invariant iw == ListWeight(direct, adj[i][..k]) && ib == ListCount(direct, adj[i][..k])
      {
        assert adj[i][k] in adj[i];
        var (j, w) := adj[i][k];
        assert adj[i][..k + 1][..k] == adj[i][..k];
        if direct[j] != 0 {
          iw, ib := iw + Min(w, direct[j]), ib + 1;
        }
      }
      assert adj[i][..|adj[i]|] == adj[i];
      prox := prox + [Proximity(direct[i], ib, iw, 4 * direct[i] + iw)];
    }
    forall a, b, w | 0 <= a < b < |direct| && edges == map[(a, b) := w]
      ensures prox[a].iw == (if w < direct[b] then w else direct[b])
      ensures prox[b].iw == (if w < direct[a] then w else direct[a])
    {
      assert (a, b) in edges;
      OneEdge(direct, a, b, w);
    }
  }

  // ---- the emitted graph and its validator ----------------------------------------------------------

  type Triple = (nat, nat, int)
  /** The graph's own account of itself: `libs` has the formal cells of each library. */
  datatype Counts = Counts(cells: nat, formal: nat, edges: nat, libs: map<Library, int>)
  datatype Graph = Graph(cells: seq<Id>, formal: Formal, edges: seq<Triple>, counts: Counts)

  predicate Before(s: Triple, t: Triple) { s.0 < t.0 || (s.0 == t.0 && s.1 < t.1) }

  /** The edges out of cell `i` to cells below `m`, in order. */
  function RowTriples(edges: EdgeWeights, i: nat, m: nat): (r: seq<Triple>)
    ensures forall t :: t in r <==> t.0 == i && t.1 < m && (i, t.1) in edges && t.2 == edges[(i, t.1)]
    ensures forall k, l | 0 <= k < l < |r| :: Before(r[k], r[l])
  {
    if m == 0 then [] else
      RowTriples(edges, i, m - 1) + if (i, m - 1) in edges then [(i, m - 1, edges[(i, m - 1)])] else []
  }

  /** The edges out of the first `m` of `n` cells: what sorting the triples yields. */
  function SortedTriples(edges: EdgeWeights, n: nat, m: nat): (r: seq<Triple>)
    ensures forall t :: t in r <==> t.0 < m && t.1 < n && (t.0, t.1) in edges && t.2 == edges[(t.0, t.1)]
    ensures forall k, l | 0 <= k < l < |r| :: Before(r[k], r[l])
  {
    if m == 0 then [] else
      var init, last := SortedTriples(edges, n, m - 1), RowTriples(edges, m - 1, n);
      assert forall t | t in init :: t.0 < m - 1;
      init + last
  }

  function EdgeMap(triples: seq<Triple>): EdgeWeights {
    if triples == [] then map[] else
      var t := triples[|triples| - 1];
      EdgeMap(triples[..|triples| - 1])[(t.0, t.1) := t.2]
  }

  lemma {:induction false} EdgeMapOfSorted(triples: seq<Triple>)
    requires forall k, l | 0 <= k < l < |triples| :: Before(triples[k], triples[l])
    ensures forall i, j :: (i, j) in EdgeMap(triples) <==> exists w :: (i, j, w) in triples
    ensures forall i, j, w | (i, j, w) in triples :: (i, j) in EdgeMap(triples) && EdgeMap(triples)[(i, j)] == w
  {
    if triples != [] {
      var init, t := triples[..|triples| - 1], triples[|triples| - 1];
      assert triples == init + [t];
      EdgeMapOfSorted(init);
      forall i, j, w | (i, j, w) in init ensures (i, j) != (t.0, t.1) {
        var k :| 0 <= k < |init| && init[k] == (i, j, w);
        assert Before(triples[k], triples[|triples| - 1]);
      }
      assert t == (t.0, t.1, t.2);
      forall i, j ensures (i, j) in EdgeMap(triples) <==> exists w :: (i, j, w) in triples {
        if (i, j) in EdgeMap(triples) {
          if (i, j) == (t.0, t.1) {
            assert (i, j, t.2) in triples;
          } else {
            var w :| (i, j, w) in init;
            assert (i, j, w) in triples;
          }
        }
        if exists w :: (i, j, w) in triples {
          var w :| (i, j, w) in triples;
          assert (i, j, w) == t || (i, j, w) in init;
        }
      }
    }
  }

  lemma EmittedAt(edges: EdgeWeights, n: nat, i: nat, j: nat)
    requires EdgesWithin(edges, n)
    ensures var emitted := EdgeMap(SortedTriples(edges, n, n));
      ((i, j) in edges <==> (i, j) in emitted) && ((i, j) in edges ==> emitted[(i, j)] == edges[(i, j)])
  {
    var triples := SortedTriples(edges, n, n);
    EdgeMapOfSorted(triples);
    if (i, j) in edges { assert (i, j, edges[(i, j)]) in triples; }
  }

  lemma EdgeMapOfEmitted(edges: EdgeWeights, n: nat)
    requires EdgesWithin(edges, n)
    ensures EdgeMap(SortedTriples(edges, n, n)) == edges
  {
    var emitted := EdgeMap(SortedTriples(edges, n, n));
    forall e: (nat, nat) ensures e in edges <==> e in emitted
      ensures e in edges ==> e in emitted && emitted[e] == edges[e]
    {
      EmittedAt(edges, n, e.0, e.1);
    }
  }

  ghost function ValidLibraries(world: World): set<Library> {
    set u, r | u in world.roots && r in world.roots[u] :: r
  }

  ghost predicate KeyAccepted(world: World, k: RootKey) {
    k != [] && k == Sorted(set r | r in k) && forall r | r in k :: r in ValidLibraries(world)
  }

  ghost predicate RowAccepted(world: World, row: map<RootKey, int>) {
    row != map[] && forall k | k in row :: KeyAccepted(world, k) && row[k] > 0
  }

  // ---- the counts ------------------------------------------------------------------------------------

  ghost predicate Lists(row: map<RootKey, int>, r: Library) {
    exists k :: k in row && r in k
  }

  /** The formal cells next to which library `r` is at work. */
  ghost function CellsOf(formal: Formal, r: Library): set<Id> {
    set c | c in formal && Lists(formal[c], r)
  }

  /** Each library that occurs, with the number of its formal cells. */
  ghost predicate Counted(formal: Formal, libs: map<Library, int>) {
    forall r :: Get(libs, r) == |CellsOf(formal, r)| && (r in libs <==> CellsOf(formal, r) != {})
  }

  ghost predicate Reconciled(graph: Graph) {
    && graph.counts.cells == |graph.cells| && graph.counts.formal == |graph.formal|
    && graph.counts.edges == |graph.edges|
    && Counted(graph.formal, graph.counts.libs)
  }

  function RootsIn(row: map<RootKey, int>): (roots: set<Library>)
    ensures forall r :: r in roots <==> Lists(row, r)
  {
    set k, r | k in row && r in k :: r
  }

  lemma CellsGrow(formal: Formal, todo: set<Id>, c: Id, r: Library)
    requires c in todo && todo <= formal.Keys
    ensures CellsOf(formal - (todo - {c}), r) == CellsOf(formal - todo, r) + if Lists(formal[c], r) then {c} else {}
    ensures c !in CellsOf(formal - todo, r)
  {
  }

  /** Every formal cell counts once for each library some key of its row lists. */
  method CountLibraries(formal: Formal) returns (libs: map<Library, int>)
    ensures Counted(formal, libs)
  {
    libs := map[];
    var todo := formal.Keys;
    assert formal - todo == map[];
    while todo != {}
      invariant todo <= formal.Keys && Counted(formal - todo, libs)
    {
      var c :| c in todo;
      libs := CountRow(formal, todo, c, libs);
      todo := todo - {c};
    }
    assert formal - todo == formal;
  }

  method CountRow(formal: Formal, ghost todo: set<Id>, c: Id, before: map<Library, int>)
    returns (libs: map<Library, int>)
    requires c in todo && todo <= formal.Keys && Counted(formal - todo, before)
    ensures Counted(formal - (todo - {c}), libs)
  {
    libs := before;
    var roots := RootsIn(formal[c]);
    var rest := roots;
    while rest != {}
      invariant rest <= roots
      invariant forall r :: Get(libs, r) == Get(before, r) + if r in roots - rest then 1 else 0
      invariant forall r :: r in libs <==> r in before || r in roots - rest
    {
      var r :| r in rest;
      libs := Plus(libs, r, 1);
      rest := rest - {r};
    }
    forall r ensures Get(libs, r) == |CellsOf(formal - (todo - {c}), r)|
      ensures r in libs <==> CellsOf(formal - (todo - {c}), r) != {}
    {
      CellsGrow(formal, todo, c, r);
    }
  }

  // ---- names -----------------------------------------------------------------------------------------

  /** No key lists the empty name. */
  ghost predicate Named(formal: Formal) {
    forall c, k | c in formal && k in formal[c] :: "" !in k
  }

  /** The formalized end of a row into the frontier has no library without a name. */
  predicate Proper(world: World, s: Synapse) {
    && (s.src in world.index && s.dst in world.roots ==> "" !in world.roots[s.dst])
    && (s.dst in world.index && s.src in world.roots ==> "" !in world.roots[s.src])
  }

  lemma NamedPlus(formal: Formal, c: Id, key: RootKey, w: int)
    ensures Named(formal[c := Plus(FormalOf(formal, c), key, w)]) <==> Named(formal) && "" !in key
  {
    var row, after := FormalOf(formal, c), formal[c := Plus(FormalOf(formal, c), key, w)];
    if Named(after) {
      assert key in after[c];
      forall d, k | d in formal && k in formal[d] ensures "" !in k { assert k in after[d]; }
    }
    if Named(formal) && "" !in key {
      forall d, k | d in after && k in after[d] ensures "" !in k { assert k == key || (d in formal && k in formal[d]); }
    }
  }

  lemma NamedStep(world: World, p: Primitives, s: Synapse)
    requires world.Valid() && (s.src in world.index || s.dst in world.index)
    ensures Named(Step(world, p, s).formal) <==> Named(p.formal) && Proper(world, s)
  {
    if s.src in world.index && s.dst in world.index {
    } else if s.src in world.index {
      NamedInto(world, p, s, s.src, s.dst);
    } else {
      NamedInto(world, p, s, s.dst, s.src);
    }
  }

  lemma NamedInto(world: World, p: Primitives, s: Synapse, c: Id, u: Id)
    requires world.Valid() && c in world.index && u !in world.index
    requires (s.src == c && s.dst == u) || (s.src == u && s.dst == c)
    ensures Named(Step(world, p, s).formal) <==> Named(p.formal) && Proper(world, s)
  {
    if u in world.roots {
      NamedPlus(p.formal, c, Sorted(world.roots[u]), s.weight);
    }
  }

  /** The accumulated keys have names exactly if the rows' libraries do. */
  lemma {:induction false} NamedIffProper(world: World, rows: seq<Synapse>)
    requires world.Valid() && Rows(world, rows)
    ensures Named(Accumulated(world, rows).formal) <==> forall s | s in rows :: Proper(world, s)
  {
    if rows != [] {
      var init, s := rows[..|rows| - 1], rows[|rows| - 1];
      assert rows == init + [s];
      assert s in rows;
      NamedIffProper(world, init);
      NamedStep(world, Accumulated(world, init), s);
    }
  }

  // ---- acceptance ------------------------------------------------------------------------------------

  ghost function Totals(world: World, formal: Formal): seq<int> {
    seq(|world.cells|, i requires 0 <= i < |world.cells| => Sum(FormalOf(formal, world.cells[i])))
  }

  /** The validator's demands on a graph and the proximity rows shipped with it. */
  ghost predicate Accepts(world: World, graph: Graph, prox: seq<Proximity>)
    requires |prox| == |world.cells|
  {
    AgreesWith(world, graph, prox) && Named(graph.formal) && Reconciled(graph)
  }

  /** Cells, keys, edges and proximity fit together. */
  ghost predicate AgreesWith(world: World, graph: Graph, prox: seq<Proximity>)
    requires |prox| == |world.cells|
  {
    && graph.cells == world.cells
    && (forall c | c in graph.formal :: c in world.index && RowAccepted(world, graph.formal[c]))
    && (forall t | t in graph.edges :: t.0 < t.1 < |world.cells| && t.2 > 0)
    && (forall k, l | 0 <= k < l < |graph.edges| :: Before(graph.edges[k], graph.edges[l]))
    && (forall i | 0 <= i < |prox| :: world.cells[i] in graph.formal <==> prox[i].dw > 0)
    && (forall i | 0 <= i < |prox| :: prox[i] == ProximityOf(EdgeMap(graph.edges), Totals(world, graph.formal), i))
  }

  /** The invariant of the accumulation pass. */
  ghost predicate Sound(world: World, p: Primitives) {
    && EdgesWithin(p.edges, |world.cells|)
    && RowsSound(world, p.formal, p.directW)
  }

  ghost predicate RowsSound(world: World, formal: Formal, directW: map<Id, int>) {
    && directW.Keys == formal.Keys
    && (forall c {:trigger CellSound(world, formal, directW, c)} | c in formal :: CellSound(world, formal, directW, c))
  }

  /** A cell's direct weight is positive and the sum of its formal row. */
  ghost predicate CellSound(world: World, formal: Formal, directW: map<Id, int>, c: Id)
    requires c in formal
  {
    && c in world.index && RowAccepted(world, formal[c])
    && Get(directW, c) == Sum(formal[c]) > 0
  }

  lemma KeyOfNeighbour(world: World, u: Id)
    requires u in world.roots && world.roots[u] != {}
    ensures KeyAccepted(world, Sorted(world.roots[u]))
  {
    var k := Sorted(world.roots[u]);
    assert (set r | r in k) == world.roots[u];
    var r :| r in world.roots[u];
    assert r in k;
  }

  lemma RowPlus(world: World, row: map<RootKey, int>, key: RootKey, w: int)
    requires w > 0 && KeyAccepted(world, key) && (row == map[] || RowAccepted(world, row))
    ensures RowAccepted(world, Plus(row, key, w)) && Sum(Plus(row, key, w)) == Sum(row) + w
  {
    SumUpdate(row, key, Get(row, key) + w);
    var after := Plus(row, key, w);
    assert key in after;
    forall k | k in after ensures KeyAccepted(world, k) && after[k] > 0 {
      assert k == key || k in row;
    }
  }

  lemma StepKeepsSound(world: World, p: Primitives, s: Synapse)
    requires world.Valid() && Sound(world, p) && Attributable(world, s) && s.weight > 0
    requires s.src in world.index || s.dst in world.index
    ensures Sound(world, Step(world, p, s))
  {
    if s.src in world.index && s.dst in world.index {
      var q := Step(world, p, s);
      forall c | c in q.formal ensures CellSound(world, q.formal, q.directW, c) {
        assert CellSound(world, p.formal, p.directW, c);
      }
    } else if s.src in world.index {
      FormalStepKeepsSound(world, p, s, s.src, s.dst);
    } else {
      FormalStepKeepsSound(world, p, s, s.dst, s.src);
    }
  }

  lemma PlusKeepsCellSound(world: World, formal: Formal, directW: map<Id, int>, c: Id, key: RootKey, w: int, d: Id)
    requires w > 0 && KeyAccepted(world, key) && c in world.index && formal.Keys == directW.Keys
    requires c in formal ==> CellSound(world, formal, directW, c)
    requires d in formal ==> CellSound(world, formal, directW, d)
    requires d in formal || d == c
    ensures CellSound(world, formal[c := Plus(FormalOf(formal, c), key, w)], Plus(directW, c, w), d)
  {
    RowPlus(world, FormalOf(formal, c), key, w);
  }

  lemma FormalStepKeepsSound(world: World, p: Primitives, s: Synapse, c: Id, u: Id)
    requires Sound(world, p) && s.weight > 0 && c in world.index && u !in world.index
    requires (s.src == c && s.dst == u) || (s.src == u && s.dst == c)
    requires u in world.roots ==> world.roots[u] != {}
    ensures Sound(world, Step(world, p, s))
  {
    if u in world.roots {
      KeyOfNeighbour(world, u);
      var key := Sorted(world.roots[u]);
      assert Step(world, p, s)
             == Primitives(p.formal[c := Plus(FormalOf(p.formal, c), key, s.weight)],
                           Plus(p.directW, c, s.weight), Plus(p.directB, c, 1), p.edges);
      PlusKeepsSound(world, p, c, key, s.weight);
    } else {
      assert Step(world, p, s) == p;
    }
  }

  lemma PlusKeepsSound(world: World, p: Primitives, c: Id, key: RootKey, w: int)
    requires Sound(world, p) && w > 0 && KeyAccepted(world, key) && c in world.index
    ensures Sound(world, Primitives(p.formal[c := Plus(FormalOf(p.formal, c), key, w)],
                                    Plus(p.directW, c, w), Plus(p.directB, c, 1), p.edges))
  {
    PlusKeepsRowsSound(world, p.formal, p.directW, c, key, w);
  }

  lemma PlusKeepsRowsSound(world: World, formal: Formal, directW: map<Id, int>, c: Id, key: RootKey, w: int)
    requires RowsSound(world, formal, directW) && w > 0 && KeyAccepted(world, key) && c in world.index
    ensures RowsSound(world, formal[c := Plus(FormalOf(formal, c), key, w)], Plus(directW, c, w))
  {
    var after, direct := formal[c := Plus(FormalOf(formal, c), key, w)], Plus(directW, c, w);
    assert c in formal ==> CellSound(world, formal, directW, c);
    forall d | d in after ensures CellSound(world, after, direct, d) {
      assert d in formal ==> CellSound(world, formal, directW, d);
      PlusKeepsCellSound(world, formal, directW, c, key, w, d);
    }
  }

  lemma {:induction false} AccumulatedIsSound(world: World, rows: seq<Synapse>)
    requires world.Valid() && Rows(world, rows) && forall s | s in rows :: Attributable(world, s)
    ensures Sound(world, Accumulated(world, rows))
  {
    if rows != [] {
      assert rows[|rows| - 1] in rows;
      AccumulatedIsSound(world, rows[..|rows| - 1]);
      StepKeepsSound(world, Accumulated(world, rows[..|rows| - 1]), rows[|rows| - 1]);
    }
  }

  /** With every library enabled nothing is filtered out. */
  lemma AllLibrariesEnabled(world: World, formal: Formal, c: Id)
    requires c in formal ==> RowAccepted(world, formal[c])
    ensures DirectFrom(formal, ValidLibraries(world), c) == Sum(FormalOf(formal, c))
  {
    var row, all := FormalOf(formal, c), ValidLibraries(world);
    forall k | k in row ensures Owns(all, k) {
      assert KeyAccepted(world, k);
      assert k[0] in k && k[0] in all;
    }
    assert Enabled(row, all) == row;
  }

  /** The builder end to end: scores, graph, and the graph's acceptance by the validator. */
  method BuildFrontier(world: World, rows: seq<Synapse>) returns (ok: bool, graph: Graph, prox: seq<Proximity>)
    requires world.Valid() && Rows(world, rows)
    ensures ok <==> forall s | s in rows :: Attributable(world, s)
    ensures ok ==>
      |prox| == |world.cells| && (Accepts(world, graph, prox) <==> forall s | s in rows :: Proper(world, s))
    ensures ok ==>
      graph.formal == Accumulated(world, rows).formal && EdgeMap(graph.edges) == Accumulated(world, rows).edges
    ensures ok ==> forall i | 0 <= i < |prox| :: prox[i].s4 == ScoreRef(world, rows, ValidLibraries(world), i)
  {
    var p;
    ok, p := Accumulate(world, rows);
    if !ok { return ok, Graph([], map[], [], Counts(0, 0, 0, map[])), []; }
    AccumulatedIsSound(world, rows);
    var n := |world.cells|;
    var direct := seq(n, i requires 0 <= i < n => Get(p.directW, world.cells[i]));
    DirectsAreTotals(world, p, direct);
    prox := ScoreAll(p.edges, direct);
    var libs := CountLibraries(p.formal);
    var triples := SortedTriples(p.edges, n, n);
    graph := Graph(world.cells, p.formal, triples, Counts(n, |p.formal|, |triples|, libs));
    EdgeMapOfEmitted(p.edges, n);
    EmittedIsAccepted(world, p, prox, graph.counts);
    NamedIffProper(world, rows);
    DirectsAgree(world, p);
    forall i | 0 <= i < n ensures prox[i].s4 == ScoreRef(world, rows, ValidLibraries(world), i) {
      ParityLaw(world, rows, ValidLibraries(world), i);
    }
  }

  /** One frontier cell and one formalized neighbour whose only library has no name. */
  function Nameless(c: Id, u: Id): World { World([c], map[c := 0], map[u := {""}]) }

  lemma NamelessIsImproper(c: Id, u: Id)
    requires c != u
    ensures var world, s := Nameless(c, u), Synapse(c, u, 1);
      world.Valid() && Rows(world, [s]) && Attributable(world, s) && !Proper(world, s)
  {
  }

  /** What the builder ships there, the validator refuses. */
  method NamelessIsRefused(c: Id, u: Id) returns (graph: Graph, prox: seq<Proximity>)
    requires c != u
    ensures |prox| == 1 && !Accepts(Nameless(c, u), graph, prox)
    ensures graph.formal == Accumulated(Nameless(c, u), [Synapse(c, u, 1)]).formal
  {
    NamelessIsImproper(c, u);
    var ok;
    ok, graph, prox := BuildFrontier(Nameless(c, u), [Synapse(c, u, 1)]);
    assert Synapse(c, u, 1) in [Synapse(c, u, 1)];
  }

  lemma DirectsAreTotals(world: World, p: Primitives, direct: seq<int>)
    requires world.Valid() && Sound(world, p) && |direct| == |world.cells|
    requires forall i | 0 <= i < |direct| :: direct[i] == Get(p.directW, world.cells[i])
    ensures direct == Totals(world, p.formal)
    ensures forall i | 0 <= i < |direct| :: direct[i] >= 0 && (direct[i] > 0 <==> world.cells[i] in p.formal)
  {
    forall i | 0 <= i < |direct|
      ensures direct[i] == Sum(FormalOf(p.formal, world.cells[i])) >= 0
        && (direct[i] > 0 <==> world.cells[i] in p.formal)
    {
      if world.cells[i] in p.formal { assert CellSound(world, p.formal, p.directW, world.cells[i]); }
    }
  }

  /** The emitted graph passes every check of the validator, unless some key lists a library without a name. */
  lemma EmittedIsAccepted(world: World, p: Primitives, prox: seq<Proximity>, counts: Counts)
    requires world.Valid() && Sound(world, p) && |prox| == |world.cells|
    requires forall i | 0 <= i < |prox| :: prox[i] == ProximityOf(p.edges, Totals(world, p.formal), i)
    requires Reconciled(Graph(world.cells, p.formal, SortedTriples(p.edges, |world.cells|, |world.cells|), counts))
    ensures var graph := Graph(world.cells, p.formal, SortedTriples(p.edges, |world.cells|, |world.cells|), counts);
            Accepts(world, graph, prox) <==> Named(p.formal)
  {
    EmittedAgrees(world, p, prox, counts);
  }

  lemma EmittedAgrees(world: World, p: Primitives, prox: seq<Proximity>, counts: Counts)
    requires world.Valid() && Sound(world, p) && |prox| == |world.cells|
    requires forall i | 0 <= i < |prox| :: prox[i] == ProximityOf(p.edges, Totals(world, p.formal), i)
    ensures var triples := SortedTriples(p.edges, |world.cells|, |world.cells|);
      AgreesWith(world, Graph(world.cells, p.formal, triples, counts), prox)
  {
    var direct := seq(|world.cells|, i requires 0 <= i < |world.cells| => Get(p.directW, world.cells[i]));
    DirectsAreTotals(world, p, direct);
    EdgeMapOfEmitted(p.edges, |world.cells|);
    forall c | c in p.formal ensures c in world.index && RowAccepted(world, p.formal[c]) {
      assert CellSound(world, p.formal, p.directW, c);
    }
    forall i | 0 <= i < |prox| ensures world.cells[i] in p.formal <==> prox[i].dw > 0 {
      assert prox[i].dw == direct[i];
    }
  }

  lemma DirectsAgree(world: World, p: Primitives)
    requires world.Valid() && Sound(world, p)
    ensures DirectScores(world, p.formal, ValidLibraries(world)) == Totals(world, p.formal)
  {
    forall i | 0 <= i < |world.cells|
      ensures DirectFrom(p.formal, ValidLibraries(world), world.cells[i]) == Sum(FormalOf(p.formal, world.cells[i]))
    {
      if world.cells[i] in p.formal { assert CellSound(world, p.formal, p.directW, world.cells[i]); }
      AllLibrariesEnabled(world, p.formal, world.cells[i]);
    }
  }
}
