/** Every weak bond between two atoms is aggregated into one row per unordered pair of atoms. */
module Synapses {
  import opened Bags
  import opened Ids
  import opened Sums

  type Pair = (Id, Id)
  type Kind = string

  datatype Trace = Trace(kind: Kind, src: Id, dst: Id)
  /** A bond between two owners, as it is offered to the table. */
  datatype Bond = Bond(a: Id, b: Id, kind: Kind, trace: Trace)
  datatype Row = Row(weight: nat, kinds: map<Kind, nat>, traces: seq<Trace>, truncated: nat)
  /** The rows, with what was dropped inside one cell or for want of an owner. */
  datatype Tally = Tally(rows: map<Pair, Row>, intracell: nat, unowned: nat)

  const TRACE_CAP: nat := 64
  const EMPTY_ROW := Row(0, map[], [], 0)

  function Key(a: Id, b: Id): Pair {
    if Less(a, b) then (a, b) else (b, a)
  }

  lemma KeyIsUnordered(a: Id, b: Id)
    ensures Key(a, b) == Key(b, a)
    ensures a != b ==> Less(Key(a, b).0, Key(a, b).1)
  {
    LessTotal(a, b);
    if Less(a, b) { LessAsymmetric(a, b); } else if Less(b, a) { LessAsymmetric(b, a); }
  }

  predicate Lands(valid: set<Id>, b: Bond) {
    b.a != b.b && b.a in valid && b.b in valid
  }

  function AddBond(r: Row, b: Bond): Row {
    var kinds := r.kinds[b.kind := (if b.kind in r.kinds then r.kinds[b.kind] else 0) + 1];
    if |r.traces| < TRACE_CAP then Row(r.weight + 1, kinds, r.traces + [b.trace], r.truncated)
    else Row(r.weight + 1, kinds, r.traces, r.truncated + 1)
  }

  function Offer(valid: set<Id>, t: Tally, b: Bond): Tally {
    if b.a == b.b then t.(intracell := t.intracell + 1)
    else if b.a !in valid || b.b !in valid then t.(unowned := t.unowned + 1)
    else
      var k := Key(b.a, b.b);
      t.(rows := t.rows[k := AddBond(if k in t.rows then t.rows[k] else EMPTY_ROW, b)])
  }

  function Aggregate(valid: set<Id>, bonds: seq<Bond>): Tally {
    if bonds == [] then Tally(map[], 0, 0)
    else Offer(valid, Aggregate(valid, bonds[..|bonds| - 1]), bonds[|bonds| - 1])
  }

  class SynapseTable {
    const valid: set<Id>
    var rows: map<Pair, Row>
    var intracell: nat
    var unowned: nat
    ghost var offered: seq<Bond>

    ghost predicate Valid()
      reads this
    {
      Tally(rows, intracell, unowned) == Aggregate(valid, offered)
    }

    constructor (valid: set<Id>)
      ensures Valid() && offered == [] && this.valid == valid
    {
      this.valid, rows, intracell, unowned, offered := valid, map[], 0, 0, [];
    }

    /** `add`: the guards come before any counter but the two that count the drops. */
    method Add(b: Bond)
      requires Valid()
      modifies this
      ensures Valid() && offered == old(offered) + [b]
    {
      offered := offered + [b];
      assert offered[..|offered| - 1] == old(offered);
      if b.a == b.b {
        intracell := intracell + 1;
        return;
      }
      if b.a !in valid || b.b !in valid {
        unowned := unowned + 1;
        return;
      }
      var key := if Less(b.a, b.b) then (b.a, b.b) else (b.b, b.a);
      var row := if key in rows then rows[key] else Row(0, map[], [], 0);
      var weight := row.weight + 1;
      var kinds := row.kinds[b.kind := (if b.kind in row.kinds then row.kinds[b.kind] else 0) + 1];
      var traces, truncated := row.traces, row.truncated;
      if |traces| < TRACE_CAP {
        traces := traces + [b.trace];
      } else {
        truncated := truncated + 1;
      }
      rows := rows[key := Row(weight, kinds, traces, truncated)];
    }
  }

  // ---- what the table holds -----------------------------------------------------------------------

  /** The bonds that landed on `p`, in order. */
  function Hits(valid: set<Id>, bonds: seq<Bond>, p: Pair): seq<Bond> {
    if bonds == [] then [] else
      var last := bonds[|bonds| - 1];
      Hits(valid, bonds[..|bonds| - 1], p) + (if Lands(valid, last) && Key(last.a, last.b) == p then [last] else [])
  }

  function RowOf(hits: seq<Bond>): Row {
    if hits == [] then EMPTY_ROW else AddBond(RowOf(hits[..|hits| - 1]), hits[|hits| - 1])
  }

  /** One row per pair that some bond landed on, built from exactly those bonds. */
  lemma {:induction false} RowsAreHits(valid: set<Id>, bonds: seq<Bond>, p: Pair)
    ensures var rows, hits := Aggregate(valid, bonds).rows, Hits(valid, bonds, p);
            (p in rows <==> hits != []) && (p in rows ==> rows[p] == RowOf(hits))
  {
    if bonds != [] {
      var init, last := bonds[..|bonds| - 1], bonds[|bonds| - 1];
      RowsAreHits(valid, init, p);
      assert Hits(valid, init, p) + [] == Hits(valid, init, p);
      RowOfAppended(Hits(valid, init, p), last);
    }
  }

  lemma RowOfAppended(hits: seq<Bond>, b: Bond)
    ensures RowOf(hits + [b]) == AddBond(RowOf(hits), b)
  {
    assert (hits + [b])[..|hits|] == hits;
  }

  function CountKind(hits: seq<Bond>, k: Kind): nat {
    if hits == [] then 0 else CountKind(hits[..|hits| - 1], k) + if hits[|hits| - 1].kind == k then 1 else 0
  }

  lemma {:induction false} RowKinds(hits: seq<Bond>)
    ensures forall k :: k in RowOf(hits).kinds <==> CountKind(hits, k) > 0
    ensures forall k | k in RowOf(hits).kinds :: RowOf(hits).kinds[k] == CountKind(hits, k)
  {
    if hits != [] { RowKinds(hits[..|hits| - 1]); }
  }

  lemma {:induction false} RowTraces(hits: seq<Bond>)
    ensures |RowOf(hits).traces| == if |hits| < TRACE_CAP then |hits| else TRACE_CAP
    ensures forall i | 0 <= i < |RowOf(hits).traces| :: RowOf(hits).traces[i] == hits[i].trace
  {
    if hits != [] { RowTraces(hits[..|hits| - 1]); }
  }

  /** Weight is the sum of the kind counts, and kept plus truncated traces. */
  lemma {:induction false} RowShape(hits: seq<Bond>)
    ensures var r := RowOf(hits); r.weight == |hits| == Sum(r.kinds) == |r.traces| + r.truncated
  {
    if hits != [] {
      var init, last := hits[..|hits| - 1], hits[|hits| - 1];
      RowShape(init);
      var kinds := RowOf(init).kinds;
      SumUpdate(kinds, last.kind, (if last.kind in kinds then kinds[last.kind] else 0) + 1);
    }
  }

  /** A row keeps the first traces up to the cap; the rest are counted as truncated. */
  lemma RowKeepsFirstTraces(valid: set<Id>, bonds: seq<Bond>, p: Pair)
    requires p in Aggregate(valid, bonds).rows
    ensures var r, hits := Aggregate(valid, bonds).rows[p], Hits(valid, bonds, p);
            && r.weight == Sum(r.kinds) == |r.traces| + r.truncated == |hits|
            && |r.traces| <= 64 && (r.truncated > 0 ==> |r.traces| == 64)
            && forall i | 0 <= i < |r.traces| :: r.traces[i] == hits[i].trace
  {
    RowsAreHits(valid, bonds, p);
    RowShape(Hits(valid, bonds, p));
    RowTraces(Hits(valid, bonds, p));
  }

  lemma {:induction false} HitsLand(valid: set<Id>, bonds: seq<Bond>, p: Pair)
    ensures forall b | b in Hits(valid, bonds, p) :: b in bonds && Lands(valid, b) && Key(b.a, b.b) == p
  {
    if bonds != [] { HitsLand(valid, bonds[..|bonds| - 1], p); }
  }

  /** Every row joins two distinct valid atoms, lesser id first. */
  lemma RowsJoinDistinctAtoms(valid: set<Id>, bonds: seq<Bond>, p: Pair)
    requires p in Aggregate(valid, bonds).rows
    ensures Less(p.0, p.1) && p.0 in valid && p.1 in valid
  {
    RowsAreHits(valid, bonds, p);
    HitsLand(valid, bonds, p);
    var b := Hits(valid, bonds, p)[0];
    KeyIsUnordered(b.a, b.b);
  }

  ghost function Weights(rows: map<Pair, Row>): map<Pair, int> {
    map p | p in rows :: rows[p].weight
  }

  /** No bond is lost: the weights and the two drop counters add up to the bonds offered. */
  lemma {:induction false} BondsConserved(valid: set<Id>, bonds: seq<Bond>)
    ensures var t := Aggregate(valid, bonds); Sum(Weights(t.rows)) + t.intracell + t.unowned == |bonds|
  {
    if bonds != [] {
      var init, last := bonds[..|bonds| - 1], bonds[|bonds| - 1];
      BondsConserved(valid, init);
      var before, after := Aggregate(valid, init), Aggregate(valid, bonds);
      if Lands(valid, last) {
        var k := Key(last.a, last.b);
        var w := if k in before.rows then before.rows[k].weight else 0;
        SumUpdate(Weights(before.rows), k, w + 1);
        assert Weights(after.rows) == Weights(before.rows)[k := w + 1];
      }
    }
  }

  // ---- order and orientation ----------------------------------------------------------------------

  /** A bond stripped of its orientation and trace. */
  function Unoriented(b: Bond): (Pair, Kind) {
    (Key(b.a, b.b), b.kind)
  }

  function AllUnoriented(bonds: seq<Bond>): multiset<(Pair, Kind)> {
    multiset(Mapped(Unoriented, bonds))
  }

  predicate PairLands(valid: set<Id>, p: Pair) {
    p.0 != p.1 && p.0 in valid && p.1 in valid
  }

  lemma LandsIffPairLands(valid: set<Id>, b: Bond)
    ensures Lands(valid, b) <==> PairLands(valid, Key(b.a, b.b))
  {
  }

  lemma CountKindStep(hits: seq<Bond>, b: Bond, k: Kind)
    ensures CountKind(hits + [b], k) == CountKind(hits, k) + if b.kind == k then 1 else 0
  {
    assert (hits + [b])[..|hits|] == hits;
  }

  lemma HitsStep(valid: set<Id>, bonds: seq<Bond>, last: Bond, p: Pair)
    ensures Hits(valid, bonds + [last], p) ==
            if Lands(valid, last) && Key(last.a, last.b) == p then Hits(valid, bonds, p) + [last]
            else Hits(valid, bonds, p)
  {
    assert (bonds + [last])[..|bonds|] == bonds;
  }

  lemma BagStep(bonds: seq<Bond>, last: Bond, p: Pair, k: Kind)
    ensures AllUnoriented(bonds + [last])[(p, k)] ==
            AllUnoriented(bonds)[(p, k)] + if Key(last.a, last.b) == p && last.kind == k then 1 else 0
  {
    MappedConcat(Unoriented, bonds, [last]);
    assert Mapped(Unoriented, [last]) == [Unoriented(last)];
  }

  /** A row's kind counts are multiplicities in the bag of unoriented bonds. */
  lemma {:induction false} CountsAreMultiplicities(valid: set<Id>, bonds: seq<Bond>, p: Pair, k: Kind)
    ensures CountKind(Hits(valid, bonds, p), k) == if PairLands(valid, p) then AllUnoriented(bonds)[(p, k)] else 0
  {
    if bonds != [] {
      var init, last := bonds[..|bonds| - 1], bonds[|bonds| - 1];
      CountsAreMultiplicities(valid, init, p, k);
      LandsIffPairLands(valid, last);
      assert bonds == init + [last];
      HitsStep(valid, init, last, p);
      BagStep(init, last, p, k);
      CountKindStep(Hits(valid, init, p), last, k);
    }
  }

  lemma {:induction false} SomeKindHits(hits: seq<Bond>)
    requires hits != []
    ensures CountKind(hits, hits[|hits| - 1].kind) > 0
  {
  }

  lemma NoKindNoHits(hits: seq<Bond>)
    requires forall k :: CountKind(hits, k) == 0
    ensures hits == []
  {
    if hits != [] { SomeKindHits(hits); }
  }

  lemma SameCountsSameRow(hits: seq<Bond>, hits': seq<Bond>)
    requires forall k :: CountKind(hits, k) == CountKind(hits', k)
    ensures hits == [] <==> hits' == []
    ensures RowOf(hits).weight == RowOf(hits').weight && RowOf(hits).kinds == RowOf(hits').kinds
  {
    RowShape(hits);
    RowShape(hits');
    RowKinds(hits);
    RowKinds(hits');
    if hits == [] { NoKindNoHits(hits'); }
    if hits' == [] { NoKindNoHits(hits); }
    var m, m' := RowOf(hits).kinds, RowOf(hits').kinds;
    assert m.Keys == m'.Keys;
    assert m == m';
  }

  /** Pairs, weights and kind counts do not depend on the order or the orientation of the bonds. */
  lemma AggregationIsOrderFree(valid: set<Id>, bonds: seq<Bond>, bonds': seq<Bond>, p: Pair)
    requires AllUnoriented(bonds) == AllUnoriented(bonds')
    ensures var rows, rows' := Aggregate(valid, bonds).rows, Aggregate(valid, bonds').rows;
            && (p in rows <==> p in rows')
            && (p in rows ==> rows[p].weight == rows'[p].weight && rows[p].kinds == rows'[p].kinds)
  {
    RowsAreHits(valid, bonds, p);
    RowsAreHits(valid, bonds', p);
    forall k ensures CountKind(Hits(valid, bonds, p), k) == CountKind(Hits(valid, bonds', p), k) {
      CountsAreMultiplicities(valid, bonds, p, k);
      CountsAreMultiplicities(valid, bonds', p, k);
    }
    SameCountsSameRow(Hits(valid, bonds, p), Hits(valid, bonds', p));
  }

  /** Bonds in another order make the same bag. */
  lemma ReorderingKeepsBag(s: seq<Bond>, t: seq<Bond>)
    requires multiset(s) == multiset(t)
    ensures AllUnoriented(s) == AllUnoriented(t)
  {
    MappedReordering(Unoriented, s, t);
  }

  /** A bond turned around counts as the same bond. */
  lemma FlipIsUnoriented(b: Bond)
    ensures Unoriented(b) == Unoriented(Bond(b.b, b.a, b.kind, b.trace))
  {
    KeyIsUnordered(b.a, b.b);
  }

  // ---- the streams that feed the table ------------------------------------------------------------

  datatype Edge = Edge(src: Id, dst: Id, kind: Kind)
  /** A page link as harvested, or a concept link already projected from one, naming its two pages. */
  datatype LinkRow = Raw(src: Id, dst: Id) | Projected(src: Id, dst: Id, srcPage: Id, dstPage: Id)

  predicate BothOwned(owner: map<Id, Id>, src: Id, dst: Id) {
    src in owner && dst in owner
  }

  function BondOf(owner: map<Id, Id>, src: Id, dst: Id, kind: Kind): Bond
    requires BothOwned(owner, src, dst)
  {
    Bond(owner[src], owner[dst], kind, Trace(kind, src, dst))
  }

  function EdgeBonds(owner: map<Id, Id>, edges: seq<Edge>): seq<Bond> {
    if edges == [] then [] else
      var e := edges[|edges| - 1];
      EdgeBonds(owner, edges[..|edges| - 1])
      + if BothOwned(owner, e.src, e.dst) then [BondOf(owner, e.src, e.dst, e.kind)] else []
  }

  /** Rule 3: the formalizations that neither merged nor point at a container. */
  function Unmerged(formalizes: seq<Edge>, merged: set<Pair>): seq<Edge> {
    if formalizes == [] then [] else
      var e := formalizes[|formalizes| - 1];
      Unmerged(formalizes[..|formalizes| - 1], merged)
      + if "path:" <= e.dst || (e.src, e.dst) in merged then [] else [e]
  }

  function RawLinks(owner: map<Id, Id>, links: seq<LinkRow>): seq<LinkRow> {
    if links == [] then [] else
      var l := links[|links| - 1];
      RawLinks(owner, links[..|links| - 1]) + if l.Raw? && BothOwned(owner, l.src, l.dst) then [l] else []
  }

  function Consumed(owner: map<Id, Id>, links: seq<LinkRow>): set<Pair> {
    set l | l in links && l.Raw? && BothOwned(owner, l.src, l.dst) :: (l.src, l.dst)
  }

  function ProjectedLinks(owner: map<Id, Id>, consumed: set<Pair>, links: seq<LinkRow>): seq<LinkRow> {
    if links == [] then [] else
      var l := links[|links| - 1];
      ProjectedLinks(owner, consumed, links[..|links| - 1])
      + if l.Projected? && (l.srcPage, l.dstPage) !in consumed && BothOwned(owner, l.src, l.dst) then [l] else []
  }

  /** The link rows that become bonds: raw rows first, then projected rows of facts not yet counted. */
  function CountedLinks(owner: map<Id, Id>, links: seq<LinkRow>): seq<LinkRow> {
    RawLinks(owner, links) + ProjectedLinks(owner, Consumed(owner, links), links)
  }

  function LinkBonds(owner: map<Id, Id>, links: seq<LinkRow>): seq<Bond> {
    if links == [] then [] else
      var l := links[|links| - 1];
      LinkBonds(owner, links[..|links| - 1])
      + if BothOwned(owner, l.src, l.dst) then [BondOf(owner, l.src, l.dst, "links")] else []
  }

  /** A projected link never counts when its raw page link was counted, wherever that row stands. */
  lemma {:induction false} ProjectedNeverDoubleCounts(owner: map<Id, Id>, links: seq<LinkRow>, l: LinkRow)
    ensures l in CountedLinks(owner, links) && l.Projected? ==>
              forall r | r in links && r.Raw? && BothOwned(owner, r.src, r.dst) ::
                (r.src, r.dst) != (l.srcPage, l.dstPage)
    ensures l in links && BothOwned(owner, l.src, l.dst) ==>
              l in CountedLinks(owner, links) || (l.Projected? && (l.srcPage, l.dstPage) in Consumed(owner, links))
  {
    RawMembers(owner, links, l);
    ProjectedMembers(owner, Consumed(owner, links), links, l);
    if l in CountedLinks(owner, links) && l.Projected? {
      forall r | r in links && r.Raw? && BothOwned(owner, r.src, r.dst)
        ensures (r.src, r.dst) != (l.srcPage, l.dstPage)
      {
        assert (r.src, r.dst) in Consumed(owner, links);
      }
    }
  }

  lemma {:induction false} RawMembers(owner: map<Id, Id>, links: seq<LinkRow>, l: LinkRow)
    ensures l in RawLinks(owner, links) <==> l in links && l.Raw? && BothOwned(owner, l.src, l.dst)
  {
    if links != [] {
      assert links == links[..|links| - 1] + [links[|links| - 1]];
      RawMembers(owner, links[..|links| - 1], l);
    }
  }

  lemma {:induction false} ProjectedMembers(owner: map<Id, Id>, consumed: set<Pair>, links: seq<LinkRow>, l: LinkRow)
    ensures l in ProjectedLinks(owner, consumed, links)
            <==> l in links && l.Projected? && (l.srcPage, l.dstPage) !in consumed && BothOwned(owner, l.src, l.dst)
  {
    if links != [] {
      assert links == links[..|links| - 1] + [links[|links| - 1]];
      ProjectedMembers(owner, consumed, links[..|links| - 1], l);
    }
  }

  // ---- which bonds there are ---------------------------------------------------------------------------------

  /** `b` is the bond of an edge or link whose ends are both owned: between their owners, with a trace naming them. */
  ghost predicate Between(owner: map<Id, Id>, src: Id, dst: Id, kind: Kind, b: Bond) {
    && src in owner && dst in owner
    && b.a == owner[src] && b.b == owner[dst] && b.kind == kind
    && b.trace.kind == kind && b.trace.src == src && b.trace.dst == dst
  }

  ghost predicate FromEdge(owner: map<Id, Id>, edges: seq<Edge>, b: Bond) {
    exists e :: e in edges && Between(owner, e.src, e.dst, e.kind, b)
  }

  /** Edges to containers and merged pairs make no bond. */
  ghost predicate FromFormalizes(owner: map<Id, Id>, formalizes: seq<Edge>, merged: set<Pair>, b: Bond) {
    exists e :: e in formalizes && !("path:" <= e.dst) && (e.src, e.dst) !in merged
                && Between(owner, e.src, e.dst, e.kind, b)
  }

  /** A page link that two owned pages have themselves. */
  ghost predicate OwnedPageLink(owner: map<Id, Id>, links: seq<LinkRow>, p: Id, q: Id) {
    exists r :: r in links && r.Raw? && r.src == p && r.dst == q && p in owner && q in owner
  }

  ghost predicate FromLink(owner: map<Id, Id>, links: seq<LinkRow>, b: Bond) {
    exists l :: l in links && Between(owner, l.src, l.dst, "links", b)
                && (l.Projected? ==> !OwnedPageLink(owner, links, l.srcPage, l.dstPage))
  }

  lemma {:induction false} EdgeBondsAre(owner: map<Id, Id>, edges: seq<Edge>, b: Bond)
    ensures b in EdgeBonds(owner, edges) <==> FromEdge(owner, edges, b)
  {
    if edges != [] {
      var init, last := edges[..|edges| - 1], edges[|edges| - 1];
      EdgeBondsAre(owner, init, b);
      assert edges == init + [last];
    }
  }

  lemma {:induction false} UnmergedAre(formalizes: seq<Edge>, merged: set<Pair>, e: Edge)
    ensures e in Unmerged(formalizes, merged) <==> e in formalizes && !("path:" <= e.dst) && (e.src, e.dst) !in merged
  {
    if formalizes != [] {
      var init, last := formalizes[..|formalizes| - 1], formalizes[|formalizes| - 1];
      UnmergedAre(init, merged, e);
      assert formalizes == init + [last];
    }
  }

  lemma FormalizesBondsAre(owner: map<Id, Id>, formalizes: seq<Edge>, merged: set<Pair>, b: Bond)
    ensures b in EdgeBonds(owner, Unmerged(formalizes, merged)) <==> FromFormalizes(owner, formalizes, merged, b)
  {
    EdgeBondsAre(owner, Unmerged(formalizes, merged), b);
    forall e ensures e in Unmerged(formalizes, merged) <==>
                       e in formalizes && !("path:" <= e.dst) && (e.src, e.dst) !in merged
    {
      UnmergedAre(formalizes, merged, e);
    }
  }

  lemma {:induction false} LinkBondsAre(owner: map<Id, Id>, links: seq<LinkRow>, b: Bond)
    ensures b in LinkBonds(owner, links) <==> exists l :: l in links && Between(owner, l.src, l.dst, "links", b)
  {
    if links != [] {
      var init, last := links[..|links| - 1], links[|links| - 1];
      LinkBondsAre(owner, init, b);
      assert links == init + [last];
    }
  }

  lemma CountedLinksAre(owner: map<Id, Id>, links: seq<LinkRow>, l: LinkRow)
    ensures l in CountedLinks(owner, links) <==>
      && l in links && l.src in owner && l.dst in owner
      && (l.Projected? ==> !OwnedPageLink(owner, links, l.srcPage, l.dstPage))
  {
    RawMembers(owner, links, l);
    ProjectedMembers(owner, Consumed(owner, links), links, l);
    if l.Projected? {
      assert (l.srcPage, l.dstPage) in Consumed(owner, links) <==> OwnedPageLink(owner, links, l.srcPage, l.dstPage);
    }
  }

  lemma CountedBondsAre(owner: map<Id, Id>, links: seq<LinkRow>, b: Bond)
    ensures b in LinkBonds(owner, CountedLinks(owner, links)) <==> FromLink(owner, links, b)
  {
    LinkBondsAre(owner, CountedLinks(owner, links), b);
    if l :| l in CountedLinks(owner, links) && Between(owner, l.src, l.dst, "links", b) {
      CountedLinksAre(owner, links, l);
    }
    if FromLink(owner, links, b) {
      var l :| l in links && Between(owner, l.src, l.dst, "links", b)
               && (l.Projected? ==> !OwnedPageLink(owner, links, l.srcPage, l.dstPage));
      CountedLinksAre(owner, links, l);
    }
  }

  lemma OfferedAre(owner: map<Id, Id>, weak: seq<Edge>, formalizes: seq<Edge>, merged: set<Pair>, coClaims: seq<Bond>,
                   links: seq<LinkRow>, b: Bond)
    ensures b in EdgeBonds(owner, weak) + EdgeBonds(owner, Unmerged(formalizes, merged)) + coClaims
                 + LinkBonds(owner, CountedLinks(owner, links)) <==>
      || FromEdge(owner, weak, b) || FromFormalizes(owner, formalizes, merged, b) || b in coClaims
      || FromLink(owner, links, b)
  {
    EdgeBondsAre(owner, weak, b);
    FormalizesBondsAre(owner, formalizes, merged, b);
    CountedBondsAre(owner, links, b);
  }

  /** `build_synapses`: the table receives the four streams, each filtered by its own rule. */
  method BuildSynapses(owner: map<Id, Id>, valid: set<Id>, weak: seq<Edge>, formalizes: seq<Edge>,
                       merged: set<Pair>, coClaims: seq<Bond>, links: seq<LinkRow>) returns (table: SynapseTable)
    ensures fresh(table) && table.Valid() && table.valid == valid
    ensures table.offered == EdgeBonds(owner, weak) + EdgeBonds(owner, Unmerged(formalizes, merged)) + coClaims
                             + LinkBonds(owner, CountedLinks(owner, links))
    ensures forall b :: b in table.offered <==>
      || FromEdge(owner, weak, b) || FromFormalizes(owner, formalizes, merged, b) || b in coClaims
      || FromLink(owner, links, b)
  {
    forall b ensures b in EdgeBonds(owner, weak) + EdgeBonds(owner, Unmerged(formalizes, merged)) + coClaims
                          + LinkBonds(owner, CountedLinks(owner, links)) <==>
               || FromEdge(owner, weak, b) || FromFormalizes(owner, formalizes, merged, b) || b in coClaims
               || FromLink(owner, links, b)
    {
      OfferedAre(owner, weak, formalizes, merged, coClaims, links, b);
    }
    table := new SynapseTable(valid);
    AddEdges(table, owner, weak);
    assert table.offered == EdgeBonds(owner, weak);
    var rest := UnmergedEdges(formalizes, merged);
    AddEdges(table, owner, rest);
    AddAll(table, coClaims);
    AddLinks(table, owner, links);
  }

  method AddAll(table: SynapseTable, bonds: seq<Bond>)
    requires table.Valid()
    modifies table
    ensures table.Valid() && table.offered == old(table.offered) + bonds
  {
    for i := 0 to |bonds|
      invariant table.Valid() && table.offered == old(table.offered) + bonds[..i]
    {
      table.Add(bonds[i]);
    }
  }

  method AddEdges(table: SynapseTable, owner: map<Id, Id>, edges: seq<Edge>)
    requires table.Valid()
    modifies table
    ensures table.Valid() && table.offered == old(table.offered) + EdgeBonds(owner, edges)
  {
    for i := 0 to |edges|
      invariant table.Valid() && table.offered == old(table.offered) + EdgeBonds(owner, edges[..i])
    {
      var e := edges[i];
      assert edges[..i + 1][..i] == edges[..i];
      if BothOwned(owner, e.src, e.dst) {
        table.Add(BondOf(owner, e.src, e.dst, e.kind));
      }
    }
    assert edges[..|edges|] == edges;
  }

  method UnmergedEdges(formalizes: seq<Edge>, merged: set<Pair>) returns (rest: seq<Edge>)
    ensures rest == Unmerged(formalizes, merged)
  {
    rest := [];
    for i := 0 to |formalizes|
      invariant rest == Unmerged(formalizes[..i], merged)
    {
      var e := formalizes[i];
      assert formalizes[..i + 1][..i] == formalizes[..i];
      if !("path:" <= e.dst || (e.src, e.dst) in merged) {
        rest := rest + [e];
      }
    }
    assert formalizes[..|formalizes|] == formalizes;
  }

  /** Raw rows are added as they stream by; projected rows wait until every raw row has been seen. */
  method AddLinks(table: SynapseTable, owner: map<Id, Id>, links: seq<LinkRow>)
    requires table.Valid()
    modifies table
    ensures table.Valid() && table.offered == old(table.offered) + LinkBonds(owner, CountedLinks(owner, links))
  {
    var consumed, projected := AddRawLinks(table, owner, links);
    AddProjectedLinks(table, owner, consumed, projected);
    LinkBondsConcat(owner, RawLinks(owner, links), ProjectedLinks(owner, consumed, links));
  }

  /** `offered` is `start` and the bonds of the raw rows among the first `i`. */
  ghost predicate RawOffered(owner: map<Id, Id>, links: seq<LinkRow>, start: seq<Bond>, offered: seq<Bond>, i: nat) {
    i <= |links| && offered == start + LinkBonds(owner, RawLinks(owner, links[..i]))
  }

  lemma NextRaw(owner: map<Id, Id>, links: seq<LinkRow>, start: seq<Bond>, offered: seq<Bond>, i: nat)
    requires i < |links| && RawOffered(owner, links, start, offered, i)
    ensures var l := links[i];
      var counts := l.Raw? && BothOwned(owner, l.src, l.dst);
      && (counts ==> RawOffered(owner, links, start, offered + [BondOf(owner, l.src, l.dst, "links")], i + 1))
      && (!counts ==> RawOffered(owner, links, start, offered, i + 1))
  {
    var seen, l := links[..i], links[i];
    RawBondsStep(owner, seen, l);
    assert links[..i + 1] == seen + [l];
  }

  method AddRawLinks(table: SynapseTable, owner: map<Id, Id>, links: seq<LinkRow>)
    returns (consumed: set<Pair>, projected: seq<LinkRow>)
    requires table.Valid()
    modifies table
    ensures table.Valid() && table.offered == old(table.offered) + LinkBonds(owner, RawLinks(owner, links))
    ensures consumed == Consumed(owner, links)
    ensures ProjectedLinks(owner, consumed, projected) == ProjectedLinks(owner, consumed, links)
    ensures forall l | l in projected :: l.Projected?
  {
    consumed, projected := {}, [];
    ghost var final, start := Consumed(owner, links), table.offered;
    for i := 0 to |links|
      invariant table.Valid()
      invariant RawOffered(owner, links, start, table.offered, i)
      invariant Streamed(owner, final, links[..i], consumed, projected)
    {
      var l := links[i];
      NextRaw(owner, links, start, table.offered, i);
      assert links[..i + 1] == links[..i] + [l];
      StreamStep(owner, final, links[..i], consumed, projected, l);
      if l.Projected? {
        projected := projected + [l];
      } else if BothOwned(owner, l.src, l.dst) {
        table.Add(BondOf(owner, l.src, l.dst, "links"));
        consumed := consumed + {(l.src, l.dst)};
      }
    }
    assert links[..|links|] == links;
  }

  /** After the rows `seen`: the facts consumed, and the projected rows set aside. */
  ghost predicate Streamed(owner: map<Id, Id>, final: set<Pair>, seen: seq<LinkRow>, consumed: set<Pair>,
                           projected: seq<LinkRow>) {
    && consumed == Consumed(owner, seen)
    && (forall l | l in projected :: l.Projected?)
    && ProjectedLinks(owner, final, projected) == ProjectedLinks(owner, final, seen)
  }

  lemma StreamStep(owner: map<Id, Id>, final: set<Pair>, seen: seq<LinkRow>, consumed: set<Pair>,
                   projected: seq<LinkRow>, l: LinkRow)
    requires Streamed(owner, final, seen, consumed, projected)
    ensures l.Projected? ==> Streamed(owner, final, seen + [l], consumed, projected + [l])
    ensures l.Raw? && BothOwned(owner, l.src, l.dst) ==>
      Streamed(owner, final, seen + [l], consumed + {(l.src, l.dst)}, projected)
    ensures l.Raw? && !BothOwned(owner, l.src, l.dst) ==> Streamed(owner, final, seen + [l], consumed, projected)
  {
    ProjectedStep(owner, final, seen, l);
    ProjectedStep(owner, final, projected, l);
  }

  lemma RawBondsStep(owner: map<Id, Id>, seen: seq<LinkRow>, l: LinkRow)
    ensures LinkBonds(owner, RawLinks(owner, seen + [l]))
            == if l.Raw? && BothOwned(owner, l.src, l.dst)
               then LinkBonds(owner, RawLinks(owner, seen)) + [BondOf(owner, l.src, l.dst, "links")]
               else LinkBonds(owner, RawLinks(owner, seen))
  {
    RawStep(owner, seen, l);
    if l.Raw? && BothOwned(owner, l.src, l.dst) { LinkBondsStep(owner, RawLinks(owner, seen), l); }
  }

  /** `offered` is `start` and the bonds of the first `i` projected rows. */
  ghost predicate ProjectedOffered(owner: map<Id, Id>, consumed: set<Pair>, projected: seq<LinkRow>,
                                   start: seq<Bond>, offered: seq<Bond>, i: nat)
  {
    i <= |projected| && offered == start + LinkBonds(owner, ProjectedLinks(owner, consumed, projected[..i]))
  }

  lemma NextProjected(owner: map<Id, Id>, consumed: set<Pair>, projected: seq<LinkRow>, start: seq<Bond>,
                      offered: seq<Bond>, i: nat)
    requires i < |projected| && projected[i].Projected?
      && ProjectedOffered(owner, consumed, projected, start, offered, i)
    ensures var l := projected[i];
      var counts := (l.srcPage, l.dstPage) !in consumed && BothOwned(owner, l.src, l.dst);
      && (counts ==> ProjectedOffered(owner, consumed, projected, start,
         offered + [BondOf(owner, l.src, l.dst, "links")], i + 1))
      && (!counts ==> ProjectedOffered(owner, consumed, projected, start, offered, i + 1))
  {
    assert projected[..i + 1] == projected[..i] + [projected[i]];
    ProjectedBondsStep(owner, consumed, projected[..i], projected[i]);
  }

  method AddProjectedLinks(table: SynapseTable, owner: map<Id, Id>, consumed: set<Pair>, projected: seq<LinkRow>)
    requires table.Valid() && forall l | l in projected :: l.Projected?
    modifies table
    ensures table.Valid()
    ensures table.offered == old(table.offered) + LinkBonds(owner, ProjectedLinks(owner, consumed, projected))
  {
    ghost var start := table.offered;
    for i := 0 to |projected|
      invariant table.Valid()
      invariant ProjectedOffered(owner, consumed, projected, start, table.offered, i)
    {
      var l := projected[i];
      NextProjected(owner, consumed, projected, start, table.offered, i);
      if (l.srcPage, l.dstPage) !in consumed && BothOwned(owner, l.src, l.dst) {
        table.Add(BondOf(owner, l.src, l.dst, "links"));
      }
    }
    assert projected[..|projected|] == projected;
  }

  lemma RawStep(owner: map<Id, Id>, links: seq<LinkRow>, l: LinkRow)
    ensures RawLinks(owner, links + [l])
            == if l.Raw? && BothOwned(owner, l.src, l.dst) then RawLinks(owner, links) + [l] else RawLinks(owner, links)
  {
    assert (links + [l])[..|links|] == links;
  }

  lemma ProjectedStep(owner: map<Id, Id>, consumed: set<Pair>, links: seq<LinkRow>, l: LinkRow)
    ensures ProjectedLinks(owner, consumed, links + [l])
            == if l.Projected? && (l.srcPage, l.dstPage) !in consumed && BothOwned(owner, l.src, l.dst)
               then ProjectedLinks(owner, consumed, links) + [l] else ProjectedLinks(owner, consumed, links)
  {
    assert (links + [l])[..|links|] == links;
  }

  lemma {:induction false} LinkBondsConcat(owner: map<Id, Id>, s: seq<LinkRow>, t: seq<LinkRow>)
    ensures LinkBonds(owner, s + t) == LinkBonds(owner, s) + LinkBonds(owner, t)
  {
    if t == [] {
      assert s + t == s;
    } else {
      LinkBondsConcat(owner, s, t[..|t| - 1]);
      assert (s + t)[..|s + t| - 1] == s + t[..|t| - 1];
    }
  }

  lemma ProjectedBondsStep(owner: map<Id, Id>, consumed: set<Pair>, links: seq<LinkRow>, l: LinkRow)
    requires l.Projected?
    ensures LinkBonds(owner, ProjectedLinks(owner, consumed, links + [l]))
            == if (l.srcPage, l.dstPage) !in consumed && BothOwned(owner, l.src, l.dst)
               then LinkBonds(owner, ProjectedLinks(owner, consumed, links)) + [BondOf(owner, l.src, l.dst, "links")]
               else LinkBonds(owner, ProjectedLinks(owner, consumed, links))
  {
    ProjectedStep(owner, consumed, links, l);
    if BothOwned(owner, l.src, l.dst) { LinkBondsStep(owner, ProjectedLinks(owner, consumed, links), l); }
  }

  lemma LinkBondsStep(owner: map<Id, Id>, links: seq<LinkRow>, l: LinkRow)
    requires BothOwned(owner, l.src, l.dst)
    ensures LinkBonds(owner, links + [l]) == LinkBonds(owner, links) + [BondOf(owner, l.src, l.dst, "links")]
  {
    assert (links + [l])[..|links|] == links;
  }
}
