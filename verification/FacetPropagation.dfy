/**
 Facets and cell counts of the containment tree. Facets climb from a cell's supercells and stop at the
 first ancestor that already carries them; counts climb once per cell. A facet set is a set of bit
 positions. The parent map need not be acyclic for any of this.
 */
module FacetPropagation {
  import opened Ids

  type Bits = set<nat>
  type Parents = map<Id, Id>

  datatype Cell = Cell(bits: Bits, supercells: seq<Id>)

  /** `p` is `n` steps above `s`. */
  predicate Up(parent: Parents, s: Id, p: Id, n: nat)
    decreases n
  {
    if n == 0 then s == p else s in parent && Up(parent, parent[s], p, n - 1)
  }

  /** `s` is at or below `p`. */
  ghost predicate AtOrBelow(parent: Parents, s: Id, p: Id) {
    exists n :: Up(parent, s, p, n)
  }

  lemma AtItself(parent: Parents, s: Id)
    ensures AtOrBelow(parent, s, s)
  {
    assert Up(parent, s, s, 0);
  }

  lemma {:induction false} UpOneMore(parent: Parents, s: Id, p: Id, n: nat)
    requires Up(parent, s, p, n) && p in parent
    ensures Up(parent, s, parent[p], n + 1)
    decreases n
  {
    if n > 0 { UpOneMore(parent, parent[s], p, n - 1); }
  }

  lemma BelowParent(parent: Parents, s: Id, p: Id)
    requires AtOrBelow(parent, s, p) && p in parent
    ensures AtOrBelow(parent, s, parent[p])
  {
    var n :| Up(parent, s, p, n);
    UpOneMore(parent, s, p, n);
  }

  // ---- facets -------------------------------------------------------------------------------------

  type Facets = map<Id, Bits>

  function At(fa: Facets, p: Id): Bits { if p in fa then fa[p] else {} }

  /** Some cell with a supercell at or below `p` carries facet `b`. */
  ghost predicate Carried(cells: seq<Cell>, parent: Parents, p: Id, b: nat) {
    exists i, s {:trigger AtOrBelow(parent, s, p), cells[i]} ::
      0 <= i < |cells| && b in cells[i].bits && s in cells[i].supercells && AtOrBelow(parent, s, p)
  }

  /** Whatever a path carries its parent carries, except that `bits` may still be on their way into `cur`. */
  ghost predicate Climbing(parent: Parents, fa: Facets, cur: Id, bits: Bits) {
    forall x | x in parent :: At(fa, x) <= At(fa, parent[x]) + (if parent[x] == cur then bits else {})
  }

  ghost predicate Settled(parent: Parents, fa: Facets) {
    forall x | x in parent :: At(fa, x) <= At(fa, parent[x])
  }

  /** Nothing is carried without a cell to account for it. */
  ghost predicate Justified(cells: seq<Cell>, parent: Parents, fa: Facets) {
    forall p, b | p in fa && b in fa[p] :: Carried(cells, parent, p, b)
  }

  lemma {:induction false} SettledClimbs(parent: Parents, fa: Facets, s: Id, p: Id, n: nat)
    requires Settled(parent, fa) && Up(parent, s, p, n)
    ensures At(fa, s) <= At(fa, p)
    decreases n
  {
    if n > 0 { SettledClimbs(parent, fa, parent[s], p, n - 1); }
  }

  function Universe(parent: Parents, s: Id): set<Id> { parent.Keys + parent.Values + {s} }

  ghost function Lacking(fa: Facets, universe: set<Id>, bits: Bits): set<Id> {
    set x | x in universe && !(bits <= At(fa, x))
  }

  ghost predicate Extends(fa: Facets, more: Facets) {
    forall p :: At(fa, p) <= At(more, p)
  }

  lemma LackingShrinks(fa: Facets, universe: set<Id>, bits: Bits, cur: Id)
    requires cur in universe && !(bits <= At(fa, cur))
    ensures Lacking(fa[cur := At(fa, cur) + bits], universe, bits) < Lacking(fa, universe, bits)
    ensures Extends(fa, fa[cur := At(fa, cur) + bits])
  {
    assert cur in Lacking(fa, universe, bits) && cur !in Lacking(fa[cur := At(fa, cur) + bits], universe, bits);
  }

  /** One walk: up from a supercell, stopping at the first ancestor that already carries the facets. */
  method Climb(cells: seq<Cell>, i: nat, s: Id, parent: Parents, fa0: Facets) returns (fa: Facets)
    requires i < |cells| && s in cells[i].supercells
    requires Settled(parent, fa0) && Justified(cells, parent, fa0)
    ensures Settled(parent, fa) && Justified(cells, parent, fa)
    ensures cells[i].bits <= At(fa, s) && Extends(fa0, fa)
  {
    fa := fa0;
    var bits := cells[i].bits;
    var cur, done := s, false;
    AtItself(parent, s);
    while !done && !(bits <= At(fa, cur))
      invariant cur in Universe(parent, s)
      invariant done ==> Settled(parent, fa)
      invariant !done ==> Climbing(parent, fa, cur, bits) && AtOrBelow(parent, s, cur)
      invariant Justified(cells, parent, fa)
      invariant cur == s || bits <= At(fa, s)
      invariant done ==> bits <= At(fa, s)
      invariant Extends(fa0, fa)
      decreases Lacking(fa, Universe(parent, s), bits), !done
    {
      ghost var before := fa;
      fa := fa[cur := At(fa, cur) + bits];
      Raised(cells, i, s, parent, before, cur);
      LackingShrinks(before, Universe(parent, s), bits, cur);
      if cur in parent {
        BelowParent(parent, s, cur);
        cur := parent[cur];
      } else {
        done := true;
      }
    }
  }

  lemma Raised(cells: seq<Cell>, i: nat, s: Id, parent: Parents, fa: Facets, cur: Id)
    requires i < |cells| && s in cells[i].supercells && AtOrBelow(parent, s, cur)
    requires Climbing(parent, fa, cur, cells[i].bits) && Justified(cells, parent, fa)
    ensures var fa' := fa[cur := At(fa, cur) + cells[i].bits];
            && Justified(cells, parent, fa')
            && (cur in parent ==> Climbing(parent, fa', parent[cur], cells[i].bits))
            && (cur !in parent ==> Settled(parent, fa'))
  {
    var fa' := fa[cur := At(fa, cur) + cells[i].bits];
    forall p, b | p in fa' && b in fa'[p] ensures Carried(cells, parent, p, b) {
      if p == cur && b in cells[i].bits {
        assert cells[i] == cells[i];
      }
    }
  }

  /** The facet loops: with the early exit, `fa` is still the full fold. */
  method PropagateFacets(cells: seq<Cell>, parent: Parents) returns (fa: Facets)
    ensures forall p, b :: b in At(fa, p) <==> Carried(cells, parent, p, b)
  {
    fa := map[];
    for i := 0 to |cells|
      invariant Settled(parent, fa) && Justified(cells, parent, fa)
      invariant forall k, s | 0 <= k < i && s in cells[k].supercells :: cells[k].bits <= At(fa, s)
    {
      if cells[i].bits != {} {
        for j := 0 to |cells[i].supercells|
          invariant Settled(parent, fa) && Justified(cells, parent, fa)
          invariant forall k, s | 0 <= k < i && s in cells[k].supercells :: cells[k].bits <= At(fa, s)
          invariant forall m | 0 <= m < j :: cells[i].bits <= At(fa, cells[i].supercells[m])
        {
          fa := Climb(cells, i, cells[i].supercells[j], parent, fa);
        }
      }
    }
    forall p, b | Carried(cells, parent, p, b) ensures b in At(fa, p) {
      var i, s :| 0 <= i < |cells| && b in cells[i].bits && s in cells[i].supercells && AtOrBelow(parent, s, p);
      var n :| Up(parent, s, p, n);
      SettledClimbs(parent, fa, s, p, n);
    }
  }

  // ---- cell counts --------------------------------------------------------------------------------

  ghost predicate Holds(parent: Parents, c: Cell, p: Id) {
    exists s :: s in c.supercells && AtOrBelow(parent, s, p)
  }

  /** How many cells have a supercell at or below `p`. */
  ghost function CellsUnder(cells: seq<Cell>, parent: Parents, p: Id): nat {
    if cells == [] then 0
    else CellsUnder(cells[..|cells| - 1], parent, p) + if Holds(parent, cells[|cells| - 1], p) then 1 else 0
  }

  /** Everything at or above the cell's supercells, each path once. */
  method Ancestors(c: Cell, parent: Parents) returns (seen: set<Id>)
    ensures forall p :: p in seen <==> Holds(parent, c, p)
  {
    seen := {};
    for j := 0 to |c.supercells|
      invariant forall x | x in seen && x in parent :: parent[x] in seen
      invariant forall m | 0 <= m < j :: c.supercells[m] in seen
      invariant forall p | p in seen :: Holds(parent, c, p)
    {
      var s := c.supercells[j];
      var cur, done := s, false;
      AtItself(parent, s);
      while !done && cur !in seen
        invariant cur in Universe(parent, s)
        invariant forall x | x in seen && x in parent :: parent[x] in seen || (!done && parent[x] == cur)
        invariant forall m | 0 <= m < j :: c.supercells[m] in seen
        invariant cur == s || s in seen
        invariant done ==> s in seen
        invariant !done ==> AtOrBelow(parent, s, cur)
        invariant forall p | p in seen :: Holds(parent, c, p)
        decreases Universe(parent, s) - seen, !done
      {
        seen := seen + {cur};
        if cur in parent {
          BelowParent(parent, s, cur);
          cur := parent[cur];
        } else {
          done := true;
        }
      }
    }
    forall p | Holds(parent, c, p) ensures p in seen {
      var s :| s in c.supercells && AtOrBelow(parent, s, p);
      var n :| Up(parent, s, p, n);
      ClosedClimbs(parent, seen, s, p, n);
    }
  }

  lemma {:induction false} ClosedClimbs(parent: Parents, seen: set<Id>, s: Id, p: Id, n: nat)
    requires forall x | x in seen && x in parent :: parent[x] in seen
    requires s in seen && Up(parent, s, p, n)
    ensures p in seen
    decreases n
  {
    if n > 0 { ClosedClimbs(parent, seen, parent[s], p, n - 1); }
  }

  function Count(counts: map<Id, nat>, p: Id): nat { if p in counts then counts[p] else 0 }

  /** A cell counts once for every ancestor, however many of its supercells lie below it. */
  method CountCells(cells: seq<Cell>, parent: Parents) returns (counts: map<Id, nat>)
    ensures forall p :: Count(counts, p) == CellsUnder(cells, parent, p)
  {
    counts := map[];
    for i := 0 to |cells|
      invariant forall p :: Count(counts, p) == CellsUnder(cells[..i], parent, p)
    {
      assert cells[..i + 1][..i] == cells[..i];
      var seen := Ancestors(cells[i], parent);
      ghost var before := counts;
      var todo := seen;
      while todo != {}
        invariant todo <= seen
        invariant forall p :: Count(counts, p) == Count(before, p) + if p in seen - todo then 1 else 0
      {
        var p :| p in todo;
        counts := counts[p := Count(counts, p) + 1];
        todo := todo - {p};
      }
      forall p ensures Count(counts, p) == CellsUnder(cells[..i + 1], parent, p) {
        assert Count(before, p) == CellsUnder(cells[..i], parent, p);
      }
    }
    assert cells[..|cells|] == cells;
  }
}
