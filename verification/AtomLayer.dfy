/** The cell builder from its edges to its owner map: merging, grouping and assembly together. */
module AtomLayer {

  import opened Ids
  import opened Walks
  import U = UnionFind
  import M = CellMerge
  import opened CellOwnership

  /** Edges to containers, as pairs of concept and container. */
  function FieldEdges(formalizes: seq<M.Edge>): (r: seq<(Id, Id)>)
    ensures forall f | f in r :: IsPath(f.1)
  {
    if formalizes == [] then [] else
      var e := formalizes[|formalizes| - 1];
      if M.ToContainer(e) then FieldEdges(formalizes[..|formalizes| - 1]) + [(e.src, e.dst)]
      else FieldEdges(formalizes[..|formalizes| - 1])
  }

  /** An edge to a container is one whose target starts with "path:". */
  lemma {:induction false} FieldEdgesAre(formalizes: seq<M.Edge>, x: Id, p: Id)
    ensures (x, p) in FieldEdges(formalizes) <==>
      "path:" <= p && exists e :: e in formalizes && e.src == x && e.dst == p
  {
    if formalizes != [] {
      var init, last := formalizes[..|formalizes| - 1], formalizes[|formalizes| - 1];
      assert formalizes == init + [last];
      FieldEdgesAre(init, x, p);
    }
  }

  /** They keep their order. */
  lemma {:induction false} FieldEdgesInOrder(s: seq<M.Edge>, t: seq<M.Edge>)
    ensures FieldEdges(s + t) == FieldEdges(s) + FieldEdges(t)
  {
    if t == [] {
      assert s + t == s;
    } else {
      FieldEdgesInOrder(s, t[..|t| - 1]);
      assert (s + t)[..|s + t| - 1] == s + t[..|t| - 1];
    }
  }

  lemma OwnedByItsGroup(groups: Groups, all: Groups, homes: map<Id, Id>, exact: set<Id>, nodes: map<Id, NodeKind>,
                        cells: Cells, owner: Owners, r: Id, x: Id)
    requires Disjoint(all) && Built(all, homes, exact, nodes, cells, owner)
    requires r in groups && r in all && all[r] == groups[r] && x in groups[r] && x in nodes
    ensures x in owner && owner[x] == CellId(all[r], exact)
  {
    assert GroupDone(all, r, exact, nodes, cells, owner);
    assert Organ(nodes[x], x) in OrgansOf(all[r], nodes);
  }

  /** In the finished layer two merged organs have the same owner exactly if they have the same root. */
  lemma SameOwnerIffSameRoot(rep: U.Table, groups: Groups, all: Groups, homes: map<Id, Id>, exact: set<Id>,
                             nodes: map<Id, NodeKind>, cells: Cells, owner: Owners, x: Id, y: Id)
    requires U.GroupsOf(rep, rep.Keys, groups) && Disjoint(all) && Built(all, homes, exact, nodes, cells, owner)
    requires forall r | r in groups :: r in all && all[r] == groups[r]
    requires x in rep && y in rep && x in nodes && y in nodes
    ensures x in owner && y in owner
    ensures owner[x] == owner[y] <==> rep[x] == rep[y]
  {
    OwnedByItsGroup(groups, all, homes, exact, nodes, cells, owner, rep[x], x);
    OwnedByItsGroup(groups, all, homes, exact, nodes, cells, owner, rep[y], y);
    if rep[x] != rep[y] {
      assert Apart(all, rep[x], rep[y]);
      CellIdsDiffer(all[rep[x]], all[rep[y]], exact);
    }
  }

  lemma GroupsAreKept(groups: Groups, registered: set<Id>, nodes: map<Id, NodeKind>, fields: seq<(Id, Id)>)
    requires forall r | r in groups :: r in registered
    ensures forall r | r in groups :: r in AllGroups(groups, registered, nodes, fields) &&
              AllGroups(groups, registered, nodes, fields)[r] == groups[r]
  {
  }

  lemma RootIsRegistered(parent: U.Table, rep: U.Table, x: Id)
    requires U.Forest(parent, rep) && x in rep
    ensures rep[x] in rep
  {
    assert U.Descends(parent, rep, x);
  }

  lemma RootsAreRegistered(parent: U.Table, rep: U.Table, groups: Groups)
    requires U.Forest(parent, rep) && U.GroupsOf(rep, rep.Keys, groups)
    ensures forall r | r in groups :: r in rep
  {
    forall r | r in groups ensures r in rep {
      RootIsRegistered(parent, rep, groups[r][0]);
      assert groups[r][0] in groups[r];
    }
  }

  /** Two organs have the same owner exactly if exact edges alone connect their homes. */
  ghost predicate OwnersAgree(edges: seq<M.Edge>, kinds: set<M.MatchKind>, owner: Owners, x: Id, y: Id) {
    && x in owner && y in owner
    && (owner[x] == owner[y] <==> Connected(M.ExactLinks(edges), M.Home(edges, kinds, x), M.Home(edges, kinds, y)))
  }

  /** So it is for any two known organs that the merge registered. */
  ghost predicate OwnedByHomes(edges: seq<M.Edge>, kinds: set<M.MatchKind>, nodes: map<Id, NodeKind>,
                               registered: set<Id>, owner: Owners) {
    forall x, y {:trigger OwnersAgree(edges, kinds, owner, x, y)} |
      x in registered && y in registered && x in nodes && y in nodes :: OwnersAgree(edges, kinds, owner, x, y)
  }

  lemma LayerIsOwnedByHomes(edges: seq<M.Edge>, kinds: set<M.MatchKind>, rep: U.Table, groups: Groups, all: Groups,
                            homes: map<Id, Id>, exact: set<Id>, nodes: map<Id, NodeKind>, cells: Cells, owner: Owners)
    requires M.Bipartite(edges) && U.Tracks(rep, M.MergeLinks(edges, kinds))
    requires U.GroupsOf(rep, rep.Keys, groups) && Disjoint(all) && Built(all, homes, exact, nodes, cells, owner)
    requires forall r | r in groups :: r in all && all[r] == groups[r]
    ensures OwnedByHomes(edges, kinds, nodes, rep.Keys, owner)
  {
    forall x, y | x in rep && y in rep && x in nodes && y in nodes ensures OwnersAgree(edges, kinds, owner, x, y) {
      SameOwnerIffSameRoot(rep, groups, all, homes, exact, nodes, cells, owner, x, y);
      M.ShareCellIffHomesExact(edges, kinds, rep, x, y);
    }
  }

  ghost predicate HasContainer(formalizes: seq<M.Edge>, owner: Owners, x: Id) {
    && x in owner && "path:" <= owner[x]
    && (exists f :: f in formalizes && f.src == x && f.dst == owner[x])
    && forall f | f in formalizes && f.src == x && "path:" <= f.dst && f.dst != owner[x] ::
         SeenEarlier(formalizes, f.dst, owner[x])
  }

  /** Some edge leads to `d` before any leads to `c`. */
  ghost predicate SeenEarlier(formalizes: seq<M.Edge>, d: Id, c: Id) {
    exists k :: 0 <= k < |formalizes| && formalizes[k].dst == d && forall m | 0 <= m <= k :: formalizes[m].dst != c
  }

  lemma {:induction false} SeenInEdges(formalizes: seq<M.Edge>, d: Id, c: Id)
    requires SeenBefore(FieldEdges(formalizes), d, c) && "path:" <= c
    ensures SeenEarlier(formalizes, d, c)
  {
    var fields := FieldEdges(formalizes);
    var k :| 0 <= k < |fields| && fields[k].1 == d && forall m | 0 <= m <= k :: fields[m].1 != c;
    var init, last := formalizes[..|formalizes| - 1], formalizes[|formalizes| - 1];
    if k < |FieldEdges(init)| {
      assert forall m | 0 <= m <= k :: FieldEdges(init)[m] == fields[m];
      SeenInEdges(init, d, c);
      var n :| 0 <= n < |init| && init[n].dst == d && forall m | 0 <= m <= n :: init[m].dst != c;
      assert formalizes[n] == init[n] && forall m | 0 <= m <= n :: formalizes[m] == init[m];
    } else {
      forall m | 0 <= m < |formalizes| ensures formalizes[m].dst != c {
        if formalizes[m].dst == c { FieldEdgesAre(formalizes, formalizes[m].src, c); }
      }
      assert formalizes[|init|].dst == d;
    }
  }

  /** A concept that did not merge and has an edge to a container is owned by such a container. */
  lemma FieldConceptIsOwned(formalizes: seq<M.Edge>, registered: set<Id>, nodes: map<Id, NodeKind>, groups: Groups,
                            exact: set<Id>, cells: Cells, owner: Owners, e: M.Edge)
    requires Disjoint(AllGroups(groups, registered, nodes, FieldEdges(formalizes)))
    requires var fields := FieldEdges(formalizes);
      Built(AllGroups(groups, registered, nodes, fields), Homes(FirstSeen(fields), fields, registered),
            exact, nodes, cells, owner)
    requires e in formalizes && "path:" <= e.dst && e.src !in registered
    ensures HasContainer(formalizes, owner, e.src)
  {
    var fields := FieldEdges(formalizes);
    var homes := Homes(FirstSeen(fields), fields, registered);
    FieldEdgesAre(formalizes, e.src, e.dst);
    FieldOnlyHomes(fields, registered, e.src);
    assert (e.src, e.dst) in fields;
    assert e.src in FieldOnly(fields, registered) by { assert (e.src, e.dst).0 == e.src; }
    FieldEdgesAre(formalizes, e.src, homes[e.src]);
    forall f | f in formalizes && f.src == e.src && "path:" <= f.dst && f.dst != homes[e.src]
      ensures SeenEarlier(formalizes, f.dst, homes[e.src])
    {
      FieldEdgesAre(formalizes, e.src, f.dst);
      OwnedByLatest(fields, registered, e.src, f.dst);
      SeenInEdges(formalizes, f.dst, homes[e.src]);
    }
  }

  /**
   What becomes of the nodes the merge did not see: a concept with a container is owned by one, any other concept
   or declaration is a cell of its own, and pages, statements and modules have no owner.
   */
  ghost predicate Unmerged(formalizes: seq<M.Edge>, nodes: map<Id, NodeKind>, registered: set<Id>, cells: Cells,
                           owner: Owners) {
    && (forall e | e in formalizes && "path:" <= e.dst && e.src !in registered ::
          HasContainer(formalizes, owner, e.src))
    && (forall x | x in nodes && x !in registered
          && (forall e | e in formalizes && e.src == x :: !("path:" <= e.dst)) ::
          if nodes[x] == Concept || nodes[x] == Decl then
            x in owner && owner[x] == "cell:" + x && owner[x] in cells && cells[owner[x]] == [Organ(nodes[x], x)]
          else x !in owner)
  }

  lemma UnmergedAreDone(formalizes: seq<M.Edge>, registered: set<Id>, nodes: map<Id, NodeKind>, groups: Groups,
                        exact: set<Id>, cells: Cells, owner: Owners)
    requires Disjoint(groups) && forall r, y | r in groups && y in groups[r] :: y in registered
    requires Disjoint(AllGroups(groups, registered, nodes, FieldEdges(formalizes)))
    requires var fields := FieldEdges(formalizes);
      Built(AllGroups(groups, registered, nodes, fields), Homes(FirstSeen(fields), fields, registered),
            exact, nodes, cells, owner)
    ensures Unmerged(formalizes, nodes, registered, cells, owner)
  {
    var fields := FieldEdges(formalizes);
    forall e | e in formalizes && "path:" <= e.dst && e.src !in registered
      ensures HasContainer(formalizes, owner, e.src)
    {
      FieldConceptIsOwned(formalizes, registered, nodes, groups, exact, cells, owner, e);
    }
    forall x | x in nodes && x !in registered && forall e | e in formalizes && e.src == x :: !("path:" <= e.dst)
      ensures LoneDone(nodes, cells, owner, x)
    {
      forall f | f in fields ensures f.0 != x { FieldEdgesAre(formalizes, f.0, f.1); }
      LoneNode(groups, registered, exact, nodes, fields, cells, owner, x);
    }
  }

  /** `merge` and then `build_cells`. */
  method BuildAtoms(formalizes: seq<M.Edge>, bonds: seq<M.Bond>, kinds: set<M.MatchKind>, nodes: map<Id, NodeKind>)
    returns (layer: CellLayer, registered: set<Id>)
    requires kinds <= M.ATTACHABLE && M.Bipartite(M.Offered(formalizes, bonds))
    ensures fresh(layer) && layer.nodes == nodes && layer.Valid()
    ensures registered == M.Endpoints(M.MergeLinks(M.Offered(formalizes, bonds), kinds))
    ensures OwnedByHomes(M.Offered(formalizes, bonds), kinds, nodes, registered, layer.owner)
    ensures Unmerged(formalizes, nodes, registered, layer.cells, layer.owner)
  {
    var dsu, exactBy, attachBy, merged := M.Merge(formalizes, bonds, kinds);
    ghost var rep := dsu.rep;
    var groups := dsu.Groups();
    registered := dsu.parent.Keys;
    var fields := FieldEdges(formalizes);
    MergeGroupsAreDisjoint(rep, groups);
    RootsAreRegistered(dsu.parent, rep, groups);
    GroupsAreKept(groups, registered, nodes, fields);
    layer := new CellLayer(nodes);
    layer.Build(groups, registered, exactBy.Keys, fields);
    UnmergedAreDone(formalizes, registered, nodes, groups, exactBy.Keys, layer.cells, layer.owner);
    LayerIsOwnedByHomes(M.Offered(formalizes, bonds), kinds, rep, groups, AllGroups(groups, registered, nodes, fields),
      Homes(FirstSeen(fields), fields, registered), exactBy.Keys, nodes, layer.cells, layer.owner);
  }
}
