/**
 Rule 4: no page and no statement bridges. An item claimed by one cell becomes that cell's organ; an
 item claimed by several becomes an organ of none, and one synapse seed per pair of claimants.
 */
module ClaimAttachment {
  import opened Ids
  import opened CellOwnership

  /** Which owners claim an item, in the order the edges came. */
  type Claims = map<Id, seq<Id>>

  function Claimants(claims: Claims, item: Id): set<Id> {
    if item in claims then SetOf(claims[item]) else {}
  }

  // ---- collecting the claims ----------------------------------------------------------------------

  /** The owners of the sources of the edges that reach `item`. */
  ghost function OwnersReaching(edges: seq<(Id, Id)>, owner: Owners, allowed: set<Id>, item: Id): set<Id> {
    set e | e in edges && e.1 == item && e.0 in owner && owner[e.0] in allowed :: owner[e.0]
  }

  lemma ReachingStep(edges: seq<(Id, Id)>, e: (Id, Id), owner: Owners, allowed: set<Id>, item: Id)
    ensures OwnersReaching(edges + [e], owner, allowed, item) ==
      OwnersReaching(edges, owner, allowed, item) +
      if e.1 == item && e.0 in owner && owner[e.0] in allowed then {owner[e.0]} else {}
  {
  }

  lemma ClaimantsStep(before: Claims, after: Claims, item: Id, x: Id, c: Id)
    requires after == before || after == before[item := (if item in before then before[item] else []) + [c]]
    ensures Claimants(after, x) == Claimants(before, x) + if after == before || x != item then {} else {c}
  {
  }

  method CollectClaims(edges: seq<(Id, Id)>, owner: Owners, allowed: set<Id>, items: set<Id>) returns (claims: Claims)
    ensures forall x | x in claims :: x in items && claims[x] != []
    ensures forall x | x in items :: Claimants(claims, x) == OwnersReaching(edges, owner, allowed, x)
  {
    claims := map[];
    for i := 0 to |edges|
      invariant forall x | x in claims :: x in items && claims[x] != []
      invariant forall x | x in items :: Claimants(claims, x) == OwnersReaching(edges[..i], owner, allowed, x)
    {
      var src, item := edges[i].0, edges[i].1;
      assert edges[..i + 1] == edges[..i] + [edges[i]];
      ghost var before := claims;
      if src in owner && owner[src] in allowed && item in items {
        claims := claims[item := (if item in claims then claims[item] else []) + [owner[src]]];
      }
      forall x | x in items ensures Claimants(claims, x) == OwnersReaching(edges[..i + 1], owner, allowed, x) {
        ReachingStep(edges[..i], edges[i], owner, allowed, x);
        ClaimantsStep(before, claims, item, x, if src in owner then owner[src] else src);
      }
    }
    assert edges[..|edges|] == edges;
  }

  // ---- attaching ----------------------------------------------------------------------------------

  function SeedsWith(item: Id, a: Id, rest: seq<Id>): (r: seq<Seed>) {
    seq(|rest|, k requires 0 <= k < |rest| => Seed(a, rest[k], item))
  }

  function AllPairs(item: Id, claimants: seq<Id>): seq<Seed> {
    if claimants == [] then [] else SeedsWith(item, claimants[0], claimants[1..]) + AllPairs(item, claimants[1..])
  }

  lemma OneMoreSeed(item: Id, a: Id, rest: seq<Id>, j: nat)
    requires j < |rest|
    ensures SeedsWith(item, a, rest[..j + 1]) == SeedsWith(item, a, rest[..j]) + [Seed(a, rest[j], item)]
  {
  }

  lemma PairsFrom(item: Id, claimants: seq<Id>, i: nat)
    requires i < |claimants|
    ensures AllPairs(item, claimants[i..]) == SeedsWith(item, claimants[i], claimants[i + 1..])
      + AllPairs(item, claimants[i + 1..])
  {
    assert claimants[i..][1..] == claimants[i + 1..];
  }

  /** The inner loop: one claimant and those after it. */
  method SeedsOf(item: Id, a: Id, rest: seq<Id>) returns (seeds: seq<Seed>)
    ensures seeds == SeedsWith(item, a, rest)
  {
    seeds := [];
    for j := 0 to |rest|
      invariant seeds == SeedsWith(item, a, rest[..j])
    {
      OneMoreSeed(item, a, rest, j);
      seeds := seeds + [Seed(a, rest[j], item)];
    }
    assert rest[..|rest|] == rest;
  }

  /** The nested loops over a sorted claimant list. */
  method PairSeeds(item: Id, claimants: seq<Id>) returns (seeds: seq<Seed>)
    ensures seeds == AllPairs(item, claimants)
  {
    seeds := [];
    assert claimants[0..] == claimants;
    for i := 0 to |claimants|
      invariant seeds + AllPairs(item, claimants[i..]) == AllPairs(item, claimants)
    {
      PairsFrom(item, claimants, i);
      var more := SeedsOf(item, claimants[i], claimants[i + 1..]);
      seeds := seeds + more;
    }
  }

  /** Exactly one seed for each unordered pair of distinct claimants. */
  ghost predicate OnePerPair(item: Id, claimants: set<Id>, seeds: seq<Seed>) {
    && (forall i, j | 0 <= i < j < |seeds| :: seeds[i] != seeds[j])
    && (forall s: Seed :: s in seeds <==>
       s.via == item && s.src in claimants && s.dst in claimants && Less(s.src, s.dst))
  }

  lemma {:induction false} PairsMembers(item: Id, claimants: seq<Id>, s: Seed)
    requires Increasing(claimants)
    ensures s in AllPairs(item, claimants) <==>
      s.via == item && s.src in claimants && s.dst in claimants && Less(s.src, s.dst)
  {
    if claimants != [] {
      var a, rest := claimants[0], claimants[1..];
      assert claimants == [a] + rest;
      PairsMembers(item, rest, s);
      if s in SeedsWith(item, a, rest) {
        var k :| 0 <= k < |rest| && s == Seed(a, rest[k], item);
        assert rest[k] == claimants[k + 1];
      }
      if s.via == item && s.src == a && s.dst in claimants && Less(a, s.dst) {
        LessIrreflexive(a);
        var k :| 0 <= k < |rest| && rest[k] == s.dst;
        assert SeedsWith(item, a, rest)[k] == s;
      }
      if s.src in rest && s.dst == a {
        var k :| 0 <= k < |rest| && rest[k] == s.src;
        assert Less(claimants[0], claimants[k + 1]);
        LessAsymmetric(a, s.src);
      }
    }
  }

  lemma {:induction false} PairsDistinct(item: Id, claimants: seq<Id>)
    requires Increasing(claimants)
    ensures var p := AllPairs(item, claimants); forall i, j | 0 <= i < j < |p| :: p[i] != p[j]
  {
    if claimants != [] {
      var a, rest := claimants[0], claimants[1..];
      PairsDistinct(item, rest);
      IncreasingHasNoRepeats(claimants);
      var head, tail := SeedsWith(item, a, rest), AllPairs(item, rest);
      forall i, j | 0 <= i < j < |head + tail| ensures (head + tail)[i] != (head + tail)[j] {
        if j < |head| {
          assert rest[i] == claimants[i + 1] && rest[j] == claimants[j + 1];
        } else if i < |head| {
          PairsMembers(item, rest, tail[j - |head|]);
          assert a !in rest;
        }
      }
    }
  }

  lemma PairsAreOnePerPair(item: Id, claimants: set<Id>)
    ensures OnePerPair(item, claimants, AllPairs(item, Sorted(claimants)))
  {
    PairsDistinct(item, Sorted(claimants));
    forall s: Seed
      ensures s in AllPairs(item, Sorted(claimants)) <==>
        s.via == item && s.src in claimants && s.dst in claimants && Less(s.src, s.dst)
    {
      PairsMembers(item, Sorted(claimants), s);
    }
  }

  /** What attaching the items in `done` has done to the layer, and nothing more. */
  ghost predicate Attached(kind: NodeKind, claims: Claims, done: set<Id>,
                           cells0: Cells, owner0: Owners, cells: Cells, owner: Owners)
  {
    && cells.Keys == cells0.Keys
    && (forall x :: x in owner <==> x in owner0 || (x in done && |Claimants(claims, x)| == 1))
    && (forall x | x in owner0 :: x in owner && owner[x] == owner0[x])
    && (forall x | x in done && |Claimants(claims, x)| == 1 :: SoleOwner(kind, claims, cells, owner, x))
    && (forall c | c in cells0 :: OnlySoleAdded(kind, claims, done, cells0, cells, c))
  }

  /** The one claimant owns the item, and lists it if it is a cell. */
  ghost predicate SoleOwner(kind: NodeKind, claims: Claims, cells: Cells, owner: Owners, x: Id) {
    x in owner && Claimants(claims, x) == {owner[x]} && (owner[x] in cells ==> Organ(kind, x) in cells[owner[x]])
  }

  ghost predicate OnlySoleAdded(kind: NodeKind, claims: Claims, done: set<Id>, cells0: Cells, cells: Cells, c: Id)
    requires c in cells0
  {
    c in cells && cells0[c] <= cells[c]
    && forall o | o in cells[c][|cells0[c]|..] :: o.kind == kind && o.id in done && Claimants(claims, o.id) == {c}
  }

  /** One seed per unordered claimant pair of each item in `done`. */
  ghost predicate Seeded(claims: Claims, done: set<Id>, seeds: seq<Seed>) {
    && (forall i, j | 0 <= i < j < |seeds| :: seeds[i] != seeds[j])
    && (forall s: Seed :: s in seeds <==> s.via in done && s.src in Claimants(claims, s.via)
                                          && s.dst in Claimants(claims, s.via) && Less(s.src, s.dst))
  }

  lemma SeededStep(claims: Claims, done: set<Id>, seeds: seq<Seed>, item: Id, more: seq<Seed>)
    requires Seeded(claims, done, seeds) && item !in done
    requires OnePerPair(item, Claimants(claims, item), more)
    ensures Seeded(claims, done + {item}, seeds + more)
  {
    forall i, j | 0 <= i < j < |seeds + more| ensures (seeds + more)[i] != (seeds + more)[j] {
      if i < |seeds| <= j {
        assert seeds[i] in seeds && more[j - |seeds|] in more;
      }
    }
  }

  lemma SingleHasNoPairs(item: Id, claimants: set<Id>, c: Id)
    requires claimants == {c}
    ensures OnePerPair(item, claimants, [])
  {
    LessIrreflexive(c);
  }

  lemma SingletonOf(claimants: set<Id>, c: Id)
    requires |claimants| == 1 && c in claimants
    ensures claimants == {c}
  {
    assert |claimants - {c}| == 0;
  }

  function Listed(cells: Cells, c: Id, o: Organ): Cells {
    if c in cells then cells[c := cells[c] + [o]] else cells
  }

  lemma ListKeepsOwned(cells: Cells, owner: Owners, c: Id, o: Organ)
    requires Owned(cells, owner) && o.id !in owner && (c in cells || IsPath(c))
    ensures Owned(Listed(cells, c, o), owner[o.id := c])
  {
    if c in cells {
      AppendKeepsOwned(cells, owner, c, o);
    } else {
      forall d | d in cells ensures ListedOnce(cells, owner[o.id := c], d) { assert ListedOnce(cells, owner, d); }
    }
  }

  lemma AttachSoleStep(kind: NodeKind, claims: Claims, done: set<Id>, cells0: Cells, owner0: Owners,
                       cells: Cells, owner: Owners, item: Id, c: Id)
    requires Attached(kind, claims, done, cells0, owner0, cells, owner)
    requires item !in owner && item !in done && Claimants(claims, item) == {c}
    ensures Attached(kind, claims, done + {item}, cells0, owner0, Listed(cells, c, Organ(kind, item)), owner[item := c])
  {
    var cells', owner' := Listed(cells, c, Organ(kind, item)), owner[item := c];
    forall x | x in done + {item} && |Claimants(claims, x)| == 1 ensures SoleOwner(kind, claims, cells', owner', x) {
      if x != item { assert SoleOwner(kind, claims, cells, owner, x); }
    }
    forall d | d in cells0 ensures OnlySoleAdded(kind, claims, done + {item}, cells0, cells', d) {
      assert OnlySoleAdded(kind, claims, done, cells0, cells, d);
      if d == c {
        assert cells'[d][|cells0[d]|..] == cells[d][|cells0[d]|..] + [Organ(kind, item)];
      }
    }
  }

  /** The attaching loop that pages and statements share; the items may come in any order. */
  method AttachClaims(layer: CellLayer, kind: NodeKind, claims: Claims) returns (seeds: seq<Seed>)
    requires layer.Valid()
    requires forall x | x in claims :: x !in layer.owner && claims[x] != []
    requires forall x, c | x in claims && c in claims[x] :: c in layer.cells || IsPath(c)
    modifies layer
    ensures layer.Valid()
    ensures Attached(kind, claims, claims.Keys, old(layer.cells), old(layer.owner), layer.cells, layer.owner)
    ensures Seeded(claims, claims.Keys, seeds)
  {
    seeds := [];
    var todo := claims.Keys;
    while todo != {}
      invariant layer.Valid() && todo <= claims.Keys
      invariant Attached(kind, claims, claims.Keys - todo, old(layer.cells), old(layer.owner), layer.cells, layer.owner)
      invariant Seeded(claims, claims.Keys - todo, seeds)
    {
      var item :| item in todo;
      var more := AttachItem(layer, kind, claims, item, claims.Keys - todo, old(layer.cells), old(layer.owner));
      SeededStep(claims, claims.Keys - todo, seeds, item, more);
      assert claims.Keys - (todo - {item}) == claims.Keys - todo + {item};
      seeds, todo := seeds + more, todo - {item};
    }
    assert claims.Keys - todo == claims.Keys;
  }

  /** The loop's body: attach to a sole claimant, or emit one seed per pair of claimants. */
  method AttachItem(layer: CellLayer, kind: NodeKind, claims: Claims, item: Id,
                    ghost done: set<Id>, ghost cells0: Cells, ghost owner0: Owners) returns (seeds: seq<Seed>)
    requires layer.Valid() && Attached(kind, claims, done, cells0, owner0, layer.cells, layer.owner)
    requires item in claims && item !in done && item !in layer.owner && claims[item] != []
    requires forall c | c in claims[item] :: c in layer.cells || IsPath(c)
    modifies layer
    ensures layer.Valid() && Attached(kind, claims, done + {item}, cells0, owner0, layer.cells, layer.owner)
    ensures OnePerPair(item, Claimants(claims, item), seeds)
  {
    var claimants := Sorted(Claimants(claims, item));
    assert claims[item][0] in Claimants(claims, item) && claimants[0] in Claimants(claims, item);
    if |claimants| == 1 {
      var c := claimants[0];
      SingletonOf(Claimants(claims, item), c);
      SingleHasNoPairs(item, Claimants(claims, item), c);
      AttachSoleStep(kind, claims, done, cells0, owner0, layer.cells, layer.owner, item, c);
      ListKeepsOwned(layer.cells, layer.owner, c, Organ(kind, item));
      layer.cells, layer.owner := Listed(layer.cells, c, Organ(kind, item)), layer.owner[item := c];
      seeds := [];
    } else {
      seeds := PairSeeds(item, claimants);
      PairsAreOnePerPair(item, Claimants(claims, item));
      AttachSharedStep(kind, claims, done, cells0, owner0, layer.cells, layer.owner, item);
    }
  }

  lemma AttachSharedStep(kind: NodeKind, claims: Claims, done: set<Id>, cells0: Cells, owner0: Owners,
                         cells: Cells, owner: Owners, item: Id)
    requires Attached(kind, claims, done, cells0, owner0, cells, owner) && |Claimants(claims, item)| != 1
    ensures Attached(kind, claims, done + {item}, cells0, owner0, cells, owner)
  {
    forall d | d in cells0 ensures OnlySoleAdded(kind, claims, done + {item}, cells0, cells, d) {
      assert OnlySoleAdded(kind, claims, done, cells0, cells, d);
    }
  }

  /** An item with several claimants is an organ of no cell and has no owner. */
  lemma SharedItemsAreUnowned(kind: NodeKind, claims: Claims, cells0: Cells, owner0: Owners,
                              cells: Cells, owner: Owners, item: Id)
    requires Owned(cells, owner) && Attached(kind, claims, claims.Keys, cells0, owner0, cells, owner)
    requires item in claims && item !in owner0 && |Claimants(claims, item)| > 1
    ensures item !in owner && forall c, o | c in cells && o in cells[c] :: o.id != item
  {
    forall c, o | c in cells && o in cells[c] ensures o.id != item {
      assert ListedOnce(cells, owner, c);
    }
  }

  /** `attach_pages`: cells and containers may claim a page. */
  method AttachPages(layer: CellLayer, xrefs: seq<(Id, Id)>) returns (seeds: seq<Seed>, ghost claims: Claims)
    requires layer.Valid()
    requires forall e | e in xrefs && e.1 in layer.nodes :: e.1 !in layer.owner
    modifies layer
    ensures layer.Valid()
    ensures forall x | x in layer.nodes ::
        Claimants(claims, x) == OwnersReaching(xrefs, old(layer.owner), old(layer.owner).Values, x)
    ensures claims.Keys <= layer.nodes.Keys
    ensures Attached(Page, claims, claims.Keys, old(layer.cells), old(layer.owner), layer.cells, layer.owner)
    ensures Seeded(claims, claims.Keys, seeds)
  {
    var found := CollectClaims(xrefs, layer.owner, layer.owner.Values, layer.nodes.Keys);
    ClaimsAreUsable(found, xrefs, layer.owner, layer.owner.Values, layer.nodes.Keys);
    OwnersAreCellsOrPaths(layer.cells, layer.owner);
    claims := found;
    seeds := AttachClaims(layer, Page, found);
  }

  /** `attach_statements`: only cells may claim a statement. */
  method AttachStatements(layer: CellLayer, matches: seq<(Id, Id)>) returns (seeds: seq<Seed>, ghost claims: Claims)
    requires layer.Valid()
    requires forall e | e in matches :: e.1 !in layer.owner
    modifies layer
    ensures layer.Valid()
    ensures forall e | e in matches ::
        Claimants(claims, e.1) == OwnersReaching(matches, old(layer.owner), old(layer.cells).Keys, e.1)
    ensures Attached(Statement, claims, claims.Keys, old(layer.cells), old(layer.owner), layer.cells, layer.owner)
    ensures Seeded(claims, claims.Keys, seeds)
  {
    var items := set e | e in matches :: e.1;
    var found := CollectClaims(matches, layer.owner, layer.cells.Keys, items);
    ClaimsAreUsable(found, matches, layer.owner, layer.cells.Keys, items);
    claims := found;
    seeds := AttachClaims(layer, Statement, found);
  }

  lemma OwnersAreCellsOrPaths(cells: Cells, owner: Owners)
    requires Owned(cells, owner)
    ensures forall c | c in owner.Values :: c in cells || IsPath(c)
  {
    forall c | c in owner.Values ensures c in cells || IsPath(c) {
      var x :| x in owner && owner[x] == c;
    }
  }

  lemma ClaimsAreUsable(claims: Claims, edges: seq<(Id, Id)>, owner: Owners, allowed: set<Id>, items: set<Id>)
    requires forall x | x in claims :: x in items && claims[x] != []
    requires forall x | x in items :: Claimants(claims, x) == OwnersReaching(edges, owner, allowed, x)
    ensures forall x, c | x in claims && c in claims[x] :: c in owner.Values && c in allowed
    ensures forall x | x in claims :: exists e :: e in edges && e.1 == x
  {
    forall x, c | x in claims && c in claims[x] ensures c in owner.Values && c in allowed {
      assert c in Claimants(claims, x);
      var e :| e in edges && e.1 == x && e.0 in owner && owner[e.0] == c;
    }
    forall x | x in claims ensures exists e :: e in edges && e.1 == x {
      assert claims[x][0] in Claimants(claims, x);
    }
  }
}
