/**
 The merge rules. An `exact` edge fuses both ways (rule 1); a concept without an exact edge attaches
 to one best target (rule 2); weaker edges and edges to a container (`path:…`) never merge (rules 3, 5).
 */
module CellMerge {
  import opened Ids
  import opened Walks
  import opened UnionFind

  datatype MatchKind = Exact | Generalization | SpecialCase | Invocation | Related | OtherKind
  datatype Confidence = High | Medium | Low | Unrated
  datatype Edge = Edge(src: Id, dst: Id, kind: MatchKind, confidence: Confidence)
  datatype Bond = Bond(qid: Id, decl: Id, kind: MatchKind)

  const ATTACHABLE: set<MatchKind> := {Generalization, SpecialCase, Invocation, Related}

  function ConfidenceRank(c: Confidence): nat {
    match c case High => 0 case Medium => 1 case Low => 2 case Unrated => 3
  }

  function AttachRank(k: MatchKind): nat {
    match k case Generalization => 0 case SpecialCase => 1 case Invocation => 2 case _ => 3
  }

  /** Rule 2's ranking: confidence, then match kind, then target id. */
  predicate Better(e: Edge, f: Edge) {
    var ce, cf, ke, kf := ConfidenceRank(e.confidence), ConfidenceRank(f.confidence),
                          AttachRank(e.kind), AttachRank(f.kind);
    ce < cf || (ce == cf && (ke < kf || (ke == kf && Less(e.dst, f.dst))))
  }

  /** The first edge that nothing later beats, as Python's `min` picks it. */
  function Best(es: seq<Edge>): (b: Edge)
    requires es != []
    ensures b in es && forall e | e in es :: !Better(e, b)
  {
    if |es| == 1 then LessIrreflexive(es[0].dst); es[0]
    else
      var init, last := es[..|es| - 1], es[|es| - 1];
      var b := Best(init);
      assert es == init + [last];
      LessIrreflexive(last.dst);
      if Better(last, b) then
        assert forall e | e in init :: !Better(e, last) by {
          forall e | e in init ensures !Better(e, last) {
            if Less(e.dst, last.dst) && Less(last.dst, b.dst) { LessTransitive(e.dst, last.dst, b.dst); }
          }
        }
        last
      else b
  }

  /** A queue tag makes the claim of an edge of medium confidence. */
  function BondEdge(b: Bond): Edge {
    Edge(b.qid, b.decl, b.kind, Medium)
  }

  predicate ToContainer(e: Edge) {
    "path:" <= e.dst
  }

  /** The edges the merge looks at: formalizations not aimed at a container, then queue bonds. */
  function Offered(formalizes: seq<Edge>, bonds: seq<Bond>): seq<Edge> {
    if bonds != [] then Offered(formalizes, bonds[..|bonds| - 1]) + [BondEdge(bonds[|bonds| - 1])]
    else if formalizes == [] then []
    else
      var e := formalizes[|formalizes| - 1];
      Offered(formalizes[..|formalizes| - 1], []) + (if ToContainer(e) then [] else [e])
  }

  predicate AttachesAt(e: Edge, kinds: set<MatchKind>, q: Id) {
    e.src == q && e.kind != Exact && e.kind in kinds
  }

  function ExactOf(all: seq<Edge>, q: Id): (r: seq<Edge>)
    ensures forall e :: e in r <==> e in all && e.src == q && e.kind == Exact
  {
    if all == [] then [] else
      var e := all[|all| - 1];
      assert all == all[..|all| - 1] + [e];
      ExactOf(all[..|all| - 1], q) + (if e.src == q && e.kind == Exact then [e] else [])
  }

  function AttachOf(all: seq<Edge>, kinds: set<MatchKind>, q: Id): (r: seq<Edge>)
    ensures forall e :: e in r <==> e in all && AttachesAt(e, kinds, q)
  {
    if all == [] then [] else
      var e := all[|all| - 1];
      assert all == all[..|all| - 1] + [e];
      AttachOf(all[..|all| - 1], kinds, q) + (if AttachesAt(e, kinds, q) then [e] else [])
  }

  ghost function ExactLinks(all: seq<Edge>): Links {
    set e | e in all && e.kind == Exact :: (e.src, e.dst)
  }

  /** Concepts with an attach edge and no exact edge. */
  ghost function Homeless(all: seq<Edge>, kinds: set<MatchKind>): set<Id> {
    set e | e in all && AttachesAt(e, kinds, e.src) && ExactOf(all, e.src) == [] :: e.src
  }

  ghost function Target(all: seq<Edge>, kinds: set<MatchKind>, q: Id): Id
    requires AttachOf(all, kinds, q) != []
  {
    Best(AttachOf(all, kinds, q)).dst
  }

  lemma HomelessHasAttach(all: seq<Edge>, kinds: set<MatchKind>, q: Id)
    requires q in Homeless(all, kinds)
    ensures AttachOf(all, kinds, q) != []
  {
    var e :| e in all && AttachesAt(e, kinds, q);
    assert e in AttachOf(all, kinds, q);
  }

  ghost function TargetLinks(all: seq<Edge>, kinds: set<MatchKind>, qs: set<Id>): Links
    requires forall q | q in qs :: AttachOf(all, kinds, q) != []
  {
    set q | q in qs :: (q, Target(all, kinds, q))
  }

  ghost function MergeLinks(all: seq<Edge>, kinds: set<MatchKind>): Links {
    forall q | q in Homeless(all, kinds) ensures AttachOf(all, kinds, q) != [] {
      HomelessHasAttach(all, kinds, q);
    }
    ExactLinks(all) + TargetLinks(all, kinds, Homeless(all, kinds))
  }

  // ---- the rules, claim by claim ------------------------------------------------------------------------------

  /** What counts for merging: an edge to no container, or a queue bond, which is worth a medium edge. */
  ghost predicate IsClaim(formalizes: seq<Edge>, bonds: seq<Bond>, e: Edge) {
    || (e in formalizes && !("path:" <= e.dst))
    || exists b :: b in bonds && e.src == b.qid && e.dst == b.decl && e.kind == b.kind && e.confidence == Medium
  }

  ghost predicate HasExact(formalizes: seq<Edge>, bonds: seq<Bond>, q: Id) {
    exists e :: IsClaim(formalizes, bonds, e) && e.src == q && e.kind == Exact
  }

  ghost predicate IsAttach(formalizes: seq<Edge>, bonds: seq<Bond>, kinds: set<MatchKind>, q: Id, e: Edge) {
    IsClaim(formalizes, bonds, e) && e.src == q && e.kind != Exact && e.kind in kinds
  }

  predicate Surer(c: Confidence, d: Confidence) {
    (c == High && d != High) || (c == Medium && (d == Low || d == Unrated)) || (c == Low && d == Unrated)
  }

  predicate Closer(k: MatchKind, l: MatchKind) {
    || (k == Generalization && l != Generalization)
    || (k == SpecialCase && (l == Invocation || l == Related)) || (k == Invocation && l == Related)
  }

  /** Confidence first, then the kind, then the lesser id. */
  predicate Beats(e: Edge, f: Edge) {
    || Surer(e.confidence, f.confidence)
    || (e.confidence == f.confidence && (Closer(e.kind, f.kind) || (e.kind == f.kind && Less(e.dst, f.dst))))
  }

  ghost predicate BestAttach(formalizes: seq<Edge>, bonds: seq<Bond>, kinds: set<MatchKind>, q: Id, e: Edge) {
    IsAttach(formalizes, bonds, kinds, q, e) && forall f | IsAttach(formalizes, bonds, kinds, q, f) :: !Beats(f, e)
  }

  /** Exact claims merge; without one a concept merges with the target of its best attach claim. */
  ghost predicate Merges(formalizes: seq<Edge>, bonds: seq<Bond>, kinds: set<MatchKind>, x: Id, y: Id) {
    || (exists e :: IsClaim(formalizes, bonds, e) && e.kind == Exact && e.src == x && e.dst == y)
    || (!HasExact(formalizes, bonds, x) && exists e :: BestAttach(formalizes, bonds, kinds, x, e) && e.dst == y)
  }

  lemma {:induction false} OfferedAre(formalizes: seq<Edge>, bonds: seq<Bond>, e: Edge)
    ensures e in Offered(formalizes, bonds) <==> IsClaim(formalizes, bonds, e)
    decreases |bonds|, |formalizes|
  {
    if bonds != [] {
      var init, last := bonds[..|bonds| - 1], bonds[|bonds| - 1];
      OfferedAre(formalizes, init, e);
      assert bonds == init + [last];
    } else if formalizes != [] {
      var init, last := formalizes[..|formalizes| - 1], formalizes[|formalizes| - 1];
      OfferedAre(init, [], e);
      assert formalizes == init + [last];
    }
  }

  lemma BetterBeats(e: Edge, f: Edge)
    requires e.kind in ATTACHABLE && f.kind in ATTACHABLE
    ensures Better(e, f) <==> Beats(e, f)
  {
  }

  lemma OneBestTarget(formalizes: seq<Edge>, bonds: seq<Bond>, kinds: set<MatchKind>, q: Id, e: Edge, f: Edge)
    requires kinds <= ATTACHABLE
    requires BestAttach(formalizes, bonds, kinds, q, e) && BestAttach(formalizes, bonds, kinds, q, f)
    ensures e.dst == f.dst
  {
    LessTotal(e.dst, f.dst);
  }

  lemma AttachOfAre(formalizes: seq<Edge>, bonds: seq<Bond>, kinds: set<MatchKind>, q: Id, e: Edge)
    ensures e in AttachOf(Offered(formalizes, bonds), kinds, q) <==> IsAttach(formalizes, bonds, kinds, q, e)
  {
    OfferedAre(formalizes, bonds, e);
  }

  lemma TargetIsBest(formalizes: seq<Edge>, bonds: seq<Bond>, kinds: set<MatchKind>, q: Id)
    requires kinds <= ATTACHABLE && AttachOf(Offered(formalizes, bonds), kinds, q) != []
    ensures BestAttach(formalizes, bonds, kinds, q, Best(AttachOf(Offered(formalizes, bonds), kinds, q)))
  {
    var es := AttachOf(Offered(formalizes, bonds), kinds, q);
    var b := Best(es);
    AttachOfAre(formalizes, bonds, kinds, q, b);
    forall f | IsAttach(formalizes, bonds, kinds, q, f) ensures !Beats(f, b) {
      AttachOfAre(formalizes, bonds, kinds, q, f);
      BetterBeats(f, b);
    }
  }

  lemma ExactOfIff(formalizes: seq<Edge>, bonds: seq<Bond>, q: Id)
    ensures ExactOf(Offered(formalizes, bonds), q) != [] <==> HasExact(formalizes, bonds, q)
  {
    var exact := ExactOf(Offered(formalizes, bonds), q);
    if exact != [] {
      assert exact[0] in exact;
      OfferedAre(formalizes, bonds, exact[0]);
    }
    if HasExact(formalizes, bonds, q) {
      var e :| IsClaim(formalizes, bonds, e) && e.src == q && e.kind == Exact;
      OfferedAre(formalizes, bonds, e);
      assert e in exact;
    }
  }

  lemma HomelessIff(formalizes: seq<Edge>, bonds: seq<Bond>, kinds: set<MatchKind>, q: Id)
    ensures q in Homeless(Offered(formalizes, bonds), kinds) <==>
      !HasExact(formalizes, bonds, q) && exists e :: IsAttach(formalizes, bonds, kinds, q, e)
  {
    var all := Offered(formalizes, bonds);
    ExactOfIff(formalizes, bonds, q);
    if q in Homeless(all, kinds) {
      var e :| e in all && AttachesAt(e, kinds, e.src) && e.src == q;
      OfferedAre(formalizes, bonds, e);
      assert IsAttach(formalizes, bonds, kinds, q, e);
    }
    if e :| IsAttach(formalizes, bonds, kinds, q, e) { OfferedAre(formalizes, bonds, e); }
  }

  lemma MergeLinksAre(formalizes: seq<Edge>, bonds: seq<Bond>, kinds: set<MatchKind>, x: Id, y: Id)
    requires kinds <= ATTACHABLE
    ensures (x, y) in MergeLinks(Offered(formalizes, bonds), kinds) <==> Merges(formalizes, bonds, kinds, x, y)
  {
    var all := Offered(formalizes, bonds);
    ExactLinksAre(formalizes, bonds, x, y);
    HomelessIff(formalizes, bonds, kinds, x);
    if x in Homeless(all, kinds) {
      HomelessHasAttach(all, kinds, x);
      TargetIsBest(formalizes, bonds, kinds, x);
      var b := Best(AttachOf(all, kinds, x));
      forall e | BestAttach(formalizes, bonds, kinds, x, e) ensures e.dst == b.dst {
        OneBestTarget(formalizes, bonds, kinds, x, e, b);
      }
    }
  }

  lemma ExactLinksAre(formalizes: seq<Edge>, bonds: seq<Bond>, x: Id, y: Id)
    ensures (x, y) in ExactLinks(Offered(formalizes, bonds)) <==>
      exists e :: IsClaim(formalizes, bonds, e) && e.kind == Exact && e.src == x && e.dst == y
  {
    forall e ensures e in Offered(formalizes, bonds) <==> IsClaim(formalizes, bonds, e) {
      OfferedAre(formalizes, bonds, e);
    }
  }

  /** `merge`: the merged pairs it returns are exactly the union calls it made. */
  method Merge(formalizes: seq<Edge>, bonds: seq<Bond>, attachKinds: set<MatchKind>)
    returns (dsu: DSU, exactBy: map<Id, seq<Edge>>, attachBy: map<Id, seq<Edge>>, mergedPairs: Links)
    requires attachKinds <= ATTACHABLE
    ensures fresh(dsu) && dsu.Valid()
    ensures mergedPairs == dsu.links == MergeLinks(Offered(formalizes, bonds), attachKinds)
    ensures forall x, y :: (x, y) in mergedPairs <==> Merges(formalizes, bonds, attachKinds, x, y)
    ensures dsu.rep.Keys == Endpoints(dsu.links)
    ensures Classified(Offered(formalizes, bonds), attachKinds, exactBy, attachBy)
  {
    exactBy, attachBy := Classify(formalizes, bonds, attachKinds);
    ghost var all := Offered(formalizes, bonds);
    dsu := new DSU();
    var fused := FuseExact(dsu, exactBy);
    ExactPairs(all, attachKinds, exactBy, attachBy);
    var attached := AttachBest(dsu, exactBy, attachBy, all, attachKinds);
    mergedPairs := fused + attached;
    ClassifiedHomeless(all, attachKinds, exactBy, attachBy);
    forall x, y ensures (x, y) in mergedPairs <==> Merges(formalizes, bonds, attachKinds, x, y) {
      MergeLinksAre(formalizes, bonds, attachKinds, x, y);
    }
  }

  ghost function PairsOf(exactBy: map<Id, seq<Edge>>, qs: set<Id>): Links
    requires qs <= exactBy.Keys
  {
    set q, e | q in qs && e in exactBy[q] :: (q, e.dst)
  }

  ghost function PairsAt(q: Id, es: seq<Edge>): Links {
    set e | e in es :: (q, e.dst)
  }

  lemma PairsOfGrow(exactBy: map<Id, seq<Edge>>, todo: set<Id>, q: Id)
    requires q in todo && todo <= exactBy.Keys
    ensures PairsOf(exactBy, exactBy.Keys - (todo - {q})) == PairsOf(exactBy, exactBy.Keys - todo)
      + PairsAt(q, exactBy[q])
  {
  }

  lemma PairsAtGrow(q: Id, es: seq<Edge>, i: nat)
    requires i < |es|
    ensures PairsAt(q, es[..i + 1]) == PairsAt(q, es[..i]) + {(q, es[i].dst)}
  {
    assert es[..i + 1] == es[..i] + [es[i]];
  }

  /** Rule 1's loop: over the concepts in any order, and over each one's exact edges. */
  method FuseExact(dsu: DSU, exactBy: map<Id, seq<Edge>>) returns (pairs: Links)
    requires dsu.Valid() && dsu.links == {} && dsu.rep == map[]
    modifies dsu
    ensures dsu.Valid() && dsu.rep.Keys == Endpoints(dsu.links)
    ensures pairs == dsu.links == PairsOf(exactBy, exactBy.Keys)
  {
    pairs := {};
    var todo := exactBy.Keys;
    while todo != {}
      invariant dsu.Valid() && todo <= exactBy.Keys
      invariant pairs == dsu.links == PairsOf(exactBy, exactBy.Keys - todo)
      invariant dsu.rep.Keys == Endpoints(dsu.links)
    {
      var q :| q in todo;
      var fused := FuseOne(dsu, q, exactBy[q]);
      PairsOfGrow(exactBy, todo, q);
      pairs, todo := pairs + fused, todo - {q};
    }
    assert exactBy.Keys - todo == exactBy.Keys;
  }

  method FuseOne(dsu: DSU, q: Id, edges: seq<Edge>) returns (pairs: Links)
    requires dsu.Valid() && dsu.rep.Keys == Endpoints(dsu.links)
    modifies dsu
    ensures dsu.Valid() && dsu.rep.Keys == Endpoints(dsu.links)
    ensures pairs == PairsAt(q, edges) && dsu.links == old(dsu.links) + pairs
  {
    pairs := {};
    for i := 0 to |edges|
      invariant dsu.Valid() && dsu.rep.Keys == Endpoints(dsu.links)
      invariant pairs == PairsAt(q, edges[..i]) && dsu.links == old(dsu.links) + pairs
    {
      EndpointsGrow(dsu.links, q, edges[i].dst);
      PairsAtGrow(q, edges, i);
      var _ := dsu.Union(q, edges[i].dst);
      pairs := pairs + {(q, edges[i].dst)};
    }
    assert edges[..|edges|] == edges;
  }

  lemma AttachedGrow(attach: set<Id>, exact: set<Id>, todo: set<Id>, q: Id)
    requires q in todo && todo <= attach
    ensures attach - (todo - {q}) - exact == attach - todo - exact + (if q in exact then {} else {q})
  {
  }

  lemma TargetLinksGrow(all: seq<Edge>, kinds: set<MatchKind>, qs: set<Id>, q: Id)
    requires forall p | p in qs + {q} :: AttachOf(all, kinds, p) != []
    ensures TargetLinks(all, kinds, qs + {q}) == TargetLinks(all, kinds, qs) + {(q, Target(all, kinds, q))}
  {
  }

  /** Rule 2's loop; the result does not depend on the order the concepts come in. */
  method AttachBest(dsu: DSU, exactBy: map<Id, seq<Edge>>, attachBy: map<Id, seq<Edge>>,
                    ghost all: seq<Edge>, ghost kinds: set<MatchKind>) returns (pairs: Links)
    requires dsu.Valid() && dsu.rep.Keys == Endpoints(dsu.links)
    requires Classified(all, kinds, exactBy, attachBy)
    modifies dsu
    ensures dsu.Valid() && dsu.rep.Keys == Endpoints(dsu.links)
    ensures forall q | q in attachBy :: AttachOf(all, kinds, q) != []
    ensures pairs == TargetLinks(all, kinds, attachBy.Keys - exactBy.Keys)
    ensures dsu.links == old(dsu.links) + pairs
  {
    forall q | q in attachBy ensures AttachOf(all, kinds, q) == attachBy[q] != [] {
      assert ClassifiedAt(all, kinds, exactBy, attachBy, q);
    }
    pairs := {};
    var todo := attachBy.Keys;
    while todo != {}
      invariant dsu.Valid() && todo <= attachBy.Keys
      invariant pairs == TargetLinks(all, kinds, attachBy.Keys - todo - exactBy.Keys)
      invariant dsu.links == old(dsu.links) + pairs
      invariant dsu.rep.Keys == Endpoints(dsu.links)
    {
      var q :| q in todo;
      AttachedGrow(attachBy.Keys, exactBy.Keys, todo, q);
      if q !in exactBy {
        TargetLinksGrow(all, kinds, attachBy.Keys - todo - exactBy.Keys, q);
        var best := Best(attachBy[q]);
        EndpointsGrow(dsu.links, q, best.dst);
        var _ := dsu.Union(q, best.dst);
        pairs := pairs + {(q, best.dst)};
      }
      todo := todo - {q};
    }
    assert attachBy.Keys - todo - exactBy.Keys == attachBy.Keys - exactBy.Keys;
  }

  ghost function Endpoints(links: Links): set<Id> {
    (set e | e in links :: e.0) + (set e | e in links :: e.1)
  }

  lemma EndpointsGrow(links: Links, a: Id, b: Id)
    ensures Endpoints(links + {(a, b)}) == Endpoints(links) + {a, b}
  {
    var more := links + {(a, b)};
    assert (a, b) in more;
    forall x | x in Endpoints(links) ensures x in Endpoints(more) {
      var e :| e in links && (e.0 == x || e.1 == x);
      assert e in more;
    }
  }

  ghost predicate ClassifiedAt(all: seq<Edge>, kinds: set<MatchKind>,
                               exactBy: map<Id, seq<Edge>>, attachBy: map<Id, seq<Edge>>, q: Id)
  {
    && (q in exactBy <==> ExactOf(all, q) != [])
    && (q in exactBy ==> exactBy[q] == ExactOf(all, q))
    && (q in attachBy <==> AttachOf(all, kinds, q) != [])
    && (q in attachBy ==> attachBy[q] == AttachOf(all, kinds, q))
  }

  /** Both dictionaries hold, per concept, exactly its edges of that class, in input order. */
  ghost predicate Classified(all: seq<Edge>, kinds: set<MatchKind>,
                             exactBy: map<Id, seq<Edge>>, attachBy: map<Id, seq<Edge>>)
  {
    forall q {:trigger ClassifiedAt(all, kinds, exactBy, attachBy, q)} ::
      ClassifiedAt(all, kinds, exactBy, attachBy, q)
  }

  lemma ClassifiedHomeless(all: seq<Edge>, kinds: set<MatchKind>,
                           exactBy: map<Id, seq<Edge>>, attachBy: map<Id, seq<Edge>>)
    requires Classified(all, kinds, exactBy, attachBy)
    ensures Homeless(all, kinds) == attachBy.Keys - exactBy.Keys
  {
    forall q ensures q in Homeless(all, kinds) <==> q in attachBy && q !in exactBy {
      assert ClassifiedAt(all, kinds, exactBy, attachBy, q);
      if q in Homeless(all, kinds) { HomelessHasAttach(all, kinds, q); }
      if q in attachBy && q !in exactBy {
        var e := attachBy[q][0];
        assert e in all && AttachesAt(e, kinds, e.src);
      }
    }
  }

  function Append(m: map<Id, seq<Edge>>, q: Id, e: Edge): map<Id, seq<Edge>> {
    m[q := (if q in m then m[q] else []) + [e]]
  }

  lemma ExactPairs(all: seq<Edge>, kinds: set<MatchKind>,
                   exactBy: map<Id, seq<Edge>>, attachBy: map<Id, seq<Edge>>)
    requires Classified(all, kinds, exactBy, attachBy)
    ensures ExactLinks(all) == PairsOf(exactBy, exactBy.Keys)
  {
    forall l | l in ExactLinks(all) ensures l in PairsOf(exactBy, exactBy.Keys) {
      var e :| e in all && e.kind == Exact && l == (e.src, e.dst);
      assert e in ExactOf(all, e.src);
      assert ClassifiedAt(all, kinds, exactBy, attachBy, e.src);
    }
    forall l | l in PairsOf(exactBy, exactBy.Keys) ensures l in ExactLinks(all) {
      var q, e :| q in exactBy.Keys && e in exactBy[q] && l == (q, e.dst);
      assert ClassifiedAt(all, kinds, exactBy, attachBy, q);
    }
  }

  /** The two dictionaries after one more edge. */
  function AddExact(m: map<Id, seq<Edge>>, e: Edge): map<Id, seq<Edge>> {
    if e.kind == Exact then Append(m, e.src, e) else m
  }

  function AddAttach(m: map<Id, seq<Edge>>, e: Edge, kinds: set<MatchKind>): map<Id, seq<Edge>> {
    if e.kind != Exact && e.kind in kinds then Append(m, e.src, e) else m
  }

  lemma ClassifyStep(all: seq<Edge>, e: Edge, kinds: set<MatchKind>,
                     exactBy: map<Id, seq<Edge>>, attachBy: map<Id, seq<Edge>>)
    requires Classified(all, kinds, exactBy, attachBy)
    ensures Classified(all + [e], kinds, AddExact(exactBy, e), AddAttach(attachBy, e, kinds))
  {
    forall q ensures ClassifiedAt(all + [e], kinds, AddExact(exactBy, e), AddAttach(attachBy, e, kinds), q) {
      OfStep(all, e, kinds, q);
      assert ClassifiedAt(all, kinds, exactBy, attachBy, q);
    }
  }

  lemma OfStep(all: seq<Edge>, e: Edge, kinds: set<MatchKind>, q: Id)
    ensures ExactOf(all + [e], q) == ExactOf(all, q) + (if e.src == q && e.kind == Exact then [e] else [])
    ensures AttachOf(all + [e], kinds, q)
            == AttachOf(all, kinds, q) + (if AttachesAt(e, kinds, q) then [e] else [])
  {
    assert (all + [e])[..|all|] == all;
  }

  lemma OfferedStep(formalizes: seq<Edge>, bonds: seq<Bond>, e: Edge, b: Bond)
    ensures Offered(formalizes + [e], []) == Offered(formalizes, []) + (if ToContainer(e) then [] else [e])
    ensures Offered(formalizes, bonds + [b]) == Offered(formalizes, bonds) + [BondEdge(b)]
  {
    assert (formalizes + [e])[..|formalizes|] == formalizes;
    assert (bonds + [b])[..|bonds|] == bonds;
  }

  /** The two classification loops: formalizations, then queue bonds. */
  method Classify(formalizes: seq<Edge>, bonds: seq<Bond>, attachKinds: set<MatchKind>)
    returns (exactBy: map<Id, seq<Edge>>, attachBy: map<Id, seq<Edge>>)
    ensures Classified(Offered(formalizes, bonds), attachKinds, exactBy, attachBy)
  {
    exactBy, attachBy := map[], map[];
    ghost var all: seq<Edge> := [];
    for i := 0 to |formalizes|
      invariant all == Offered(formalizes[..i], [])
      invariant Classified(all, attachKinds, exactBy, attachBy)
    {
      var e := formalizes[i];
      assert formalizes[..i + 1] == formalizes[..i] + [e];
      OfferedStep(formalizes[..i], [], e, Bond(e.src, e.dst, e.kind));
      if !ToContainer(e) {
        ClassifyStep(all, e, attachKinds, exactBy, attachBy);
        exactBy, attachBy, all := AddExact(exactBy, e), AddAttach(attachBy, e, attachKinds), all + [e];
      }
    }
    assert formalizes[..|formalizes|] == formalizes;
    for i := 0 to |bonds|
      invariant all == Offered(formalizes, bonds[..i])
      invariant Classified(all, attachKinds, exactBy, attachBy)
    {
      var e := BondEdge(bonds[i]);
      assert bonds[..i + 1] == bonds[..i] + [bonds[i]];
      OfferedStep(formalizes, bonds[..i], e, bonds[i]);
      ClassifyStep(all, e, attachKinds, exactBy, attachBy);
      exactBy, attachBy, all := AddExact(exactBy, e), AddAttach(attachBy, e, attachKinds), all + [e];
    }
    assert bonds[..|bonds|] == bonds;
  }

  // ---- rule 2 never bridges ---------------------------------------------------------------------

  /** Sources are concepts and targets are declarations: no id is both. */
  ghost predicate Bipartite(all: seq<Edge>) {
    forall e, f | e in all && f in all :: e.src != f.dst
  }

  /** Where an organ stands once rule 2 is undone: an attached concept stands at its target. */
  ghost function Home(all: seq<Edge>, kinds: set<MatchKind>, x: Id): Id {
    if x in Homeless(all, kinds) then
      HomelessHasAttach(all, kinds, x); Target(all, kinds, x)
    else x
  }

  lemma HomeLinked(all: seq<Edge>, kinds: set<MatchKind>, x: Id)
    ensures Connected(MergeLinks(all, kinds), x, Home(all, kinds, x))
  {
    if x in Homeless(all, kinds) {
      HomelessHasAttach(all, kinds, x);
      ConnectedStep(MergeLinks(all, kinds), x, Home(all, kinds, x));
    } else {
      ConnectedRefl(MergeLinks(all, kinds), x);
    }
  }

  /** Every merge link, seen through `Home`, is an exact link or nothing. */
  lemma LinksThroughHome(all: seq<Edge>, kinds: set<MatchKind>, a: Id, b: Id)
    requires Bipartite(all) && (a, b) in MergeLinks(all, kinds)
    ensures Home(all, kinds, a) == Home(all, kinds, b) || (Home(all, kinds, a), Home(all, kinds, b)) in ExactLinks(all)
  {
    if (a, b) in ExactLinks(all) {
      var e :| e in all && e.kind == Exact && e.src == a && e.dst == b;
      assert e in ExactOf(all, a);
      NotHomeless(all, kinds, e);
    } else {
      HomelessHasAttach(all, kinds, a);
      var t := Best(AttachOf(all, kinds, a));
      NotHomeless(all, kinds, t);
    }
  }

  lemma NotHomeless(all: seq<Edge>, kinds: set<MatchKind>, e: Edge)
    requires Bipartite(all) && e in all
    ensures e.dst !in Homeless(all, kinds)
  {
    assert forall f | f in all :: f.src != e.dst;
  }

  /**
   Rule 2 never bridges: merging links two organs exactly when exact edges alone link their homes,
   an attached concept's home being its single best target and any other organ's home itself.
   */
  lemma MergedIffHomesExact(all: seq<Edge>, kinds: set<MatchKind>, x: Id, y: Id)
    requires Bipartite(all)
    ensures Connected(MergeLinks(all, kinds), x, y)
            <==> Connected(ExactLinks(all), Home(all, kinds, x), Home(all, kinds, y))
  {
    var links, exact := MergeLinks(all, kinds), ExactLinks(all);
    var hx, hy := Home(all, kinds, x), Home(all, kinds, y);
    if Connected(exact, hx, hy) {
      ConnectedMono(exact, links, hx, hy);
      HomeLinked(all, kinds, x);
      HomeLinked(all, kinds, y);
      ConnectedSym(links, y, hy);
      ConnectedTrans(links, x, hx, hy);
      ConnectedTrans(links, x, hy, y);
    }
    if Connected(links, x, y) {
      var sameHome: Id -> bool := z => Connected(exact, hx, Home(all, kinds, z));
      forall e | e in links ensures sameHome(e.0) == sameHome(e.1) {
        var a, b := Home(all, kinds, e.0), Home(all, kinds, e.1);
        assert e == (e.0, e.1);
        LinksThroughHome(all, kinds, e.0, e.1);
        if a != b {
          ConnectedStep(exact, a, b);
          ConnectedStep(exact, b, a);
          if sameHome(e.0) { ConnectedTrans(exact, hx, a, b); }
          if sameHome(e.1) { ConnectedTrans(exact, hx, b, a); }
        }
      }
      ConnectedRefl(exact, hx);
      ConnectedKeepsLabel(links, sameHome, x, y);
    }
  }

  /** The same, on the cells the union-find delivers. */
  lemma ShareCellIffHomesExact(all: seq<Edge>, kinds: set<MatchKind>, rep: Table, x: Id, y: Id)
    requires Bipartite(all) && Tracks(rep, MergeLinks(all, kinds)) && x in rep && y in rep
    ensures rep[x] == rep[y] <==> Connected(ExactLinks(all), Home(all, kinds, x), Home(all, kinds, y))
  {
    SameRootIffConnected(rep, MergeLinks(all, kinds), x, y);
    MergedIffHomesExact(all, kinds, x, y);
  }

  /** Attaching any number of home-less concepts joins no two cells that stood apart without it. */
  lemma AttachingJoinsNothing(all: seq<Edge>, kinds: set<MatchKind>, x: Id, y: Id)
    requires Bipartite(all) && x !in Homeless(all, kinds) && y !in Homeless(all, kinds)
    ensures Connected(MergeLinks(all, kinds), x, y) <==> Connected(MergeLinks(all, {}), x, y)
  {
    MergedIffHomesExact(all, kinds, x, y);
    MergedIffHomesExact(all, {}, x, y);
  }

  /** The input order is irrelevant: the same edges in any order and multiplicity merge the same way. */
  lemma MergeIsOrderFree(all: seq<Edge>, all': seq<Edge>, kinds: set<MatchKind>)
    requires forall e :: e in all <==> e in all'
    requires kinds <= ATTACHABLE
    ensures MergeLinks(all, kinds) == MergeLinks(all', kinds)
  {
    forall q ensures q in Homeless(all, kinds) <==> q in Homeless(all', kinds) {
      assert ExactOf(all, q) == [] <==> ExactOf(all', q) == [] by {
        if ExactOf(all, q) != [] { assert ExactOf(all, q)[0] in ExactOf(all', q); }
        if ExactOf(all', q) != [] { assert ExactOf(all', q)[0] in ExactOf(all, q); }
      }
    }
    forall q | q in Homeless(all, kinds)
      ensures AttachOf(all, kinds, q) != [] && AttachOf(all', kinds, q) != []
      ensures Target(all, kinds, q) == Target(all', kinds, q)
    {
      HomelessHasAttach(all, kinds, q);
      HomelessHasAttach(all', kinds, q);
      var b, b' := Best(AttachOf(all, kinds, q)), Best(AttachOf(all', kinds, q));
      assert b in AttachOf(all', kinds, q) && b' in AttachOf(all, kinds, q);
      LessTotal(b.dst, b'.dst);
    }
  }
}
