/**
 Cell assembly: every merge group becomes one cell, named by its anchor; pages and statements then
 attach to the one cell that claims them, or to none when several do.
 */
module CellOwnership {
  import opened Ids
  import UnionFind

  datatype NodeKind = Concept | Decl | Page | Statement | Module
  datatype Organ = Organ(kind: NodeKind, id: Id)
  datatype Seed = Seed(src: Id, dst: Id, via: Id)

  type Cells = map<Id, seq<Organ>>
  type Owners = map<Id, Id>
  type Groups = map<Id, seq<Id>>

  predicate IsPath(x: Id) { "path:" <= x }

  // ---- anchors ------------------------------------------------------------------------------------

  predicate IsQid(x: Id) {
    |x| > 1 && x[0] == 'Q' && forall i | 1 <= i < |x| :: '0' <= x[i] <= '9'
  }

  function Number(digits: string): nat
    requires forall i | 0 <= i < |digits| :: '0' <= digits[i] <= '9'
  {
    if digits == [] then 0
    else 10 * Number(digits[..|digits| - 1]) + (digits[|digits| - 1] as int - '0' as int)
  }

  predicate IsDeclId(x: Id) { "decl:" <= x }

  function QidNumber(x: Id): nat
    requires IsQid(x)
  {
    Number(x[1..])
  }

  /** The first id with the lowest number. */
  function LowestQid(qids: seq<Id>): (q: Id)
    requires qids != [] && forall x | x in qids :: IsQid(x)
    ensures q in qids && forall x | x in qids :: QidNumber(q) <= QidNumber(x)
  {
    if |qids| == 1 then qids[0] else
      var init, last := qids[..|qids| - 1], qids[|qids| - 1];
      assert qids == init + [last];
      var q := LowestQid(init);
      if QidNumber(last) < QidNumber(q) then last else q
  }

  function QidsOf(ids: seq<Id>): (r: seq<Id>)
    ensures forall x :: x in r <==> x in ids && IsQid(x)
  {
    if ids == [] then [] else (if IsQid(ids[0]) then [ids[0]] else []) + QidsOf(ids[1..])
  }

  function Within(ids: seq<Id>, s: set<Id>): (r: seq<Id>)
    ensures forall x :: x in r <==> x in ids && x in s
  {
    if ids == [] then [] else (if ids[0] in s then [ids[0]] else []) + Within(ids[1..], s)
  }

  /** An `exact` concept names the cell if there is one, then any concept, then a declaration. */
  function AnchorOf(members: set<Id>, exact: set<Id>): (a: Id)
    requires members != {}
    ensures a in members
  {
    var sorted := Sorted(members);
    var qids := QidsOf(sorted);
    var exactQids := Within(qids, exact);
    var decls := set x | x in members && IsDeclId(x);
    if exactQids != [] then LowestQid(exactQids)
    else if qids != [] then LowestQid(qids)
    else if decls != {} then Least(decls)
    else Least(members)
  }

  /** What the anchor is: the lowest exact QID, failing that the lowest QID, failing that the least declaration. */
  lemma AnchorNamesTheAtom(members: set<Id>, exact: set<Id>)
    requires members != {}
    ensures var a := AnchorOf(members, exact);
            && ((exists x :: x in members && IsQid(x)) <==> IsQid(a))
            && (forall x | x in members && IsQid(x) && (x in exact || a !in exact) ::
                  QidNumber(a) <= QidNumber(x) && (x in exact ==> a in exact))
            && (!IsQid(a) ==> forall x | x in members && IsDeclId(x) :: IsDeclId(a) && (x == a || Less(a, x)))
            && (!IsQid(a) && !IsDeclId(a) ==> IsLeast(members, a))
  {
    var qids := QidsOf(Sorted(members));
    var exactQids := Within(qids, exact);
    forall x | x in members && IsQid(x) ensures x in qids && (x in exact ==> x in exactQids) {
    }
  }

  // ---- the same without numbers: fewer digits first, then lexicographic order --------------------------

  /** `Q` and digits, the first of them not a zero. */
  ghost predicate PlainQid(x: Id) {
    |x| > 1 && x[0] == 'Q' && x[1] != '0' && forall i | 1 <= i < |x| :: '0' <= x[i] <= '9'
  }

  ghost predicate Lower(x: Id, y: Id) { |x| < |y| || (|x| == |y| && Less(x, y)) }

  function Power(n: nat): nat { if n == 0 then 1 else 10 * Power(n - 1) }

  lemma {:induction false} PowerGrows(m: nat, n: nat)
    requires m <= n
    ensures 0 < Power(m) <= Power(n)
  {
    if m < n { PowerGrows(m, n - 1); } else if n > 0 { PowerGrows(n - 1, n - 1); }
  }

  lemma {:induction false} NumberHasDigits(d: string)
    requires d != [] && d[0] != '0' && forall i | 0 <= i < |d| :: '0' <= d[i] <= '9'
    ensures Power(|d| - 1) <= Number(d) < Power(|d|)
  {
    var init := d[..|d| - 1];
    if init != [] {
      NumberHasDigits(init);
      assert Power(|d| - 1) == 10 * Power(|init| - 1);
    } else {
      assert Number(init) == 0;
    }
  }

  lemma {:induction false} LessByLast(a: string, b: string)
    requires |a| == |b| > 0
    ensures Less(a, b) <==>
      Less(a[..|a| - 1], b[..|b| - 1]) || (a[..|a| - 1] == b[..|b| - 1] && a[|a| - 1] < b[|b| - 1])
  {
    if |a| > 1 {
      LessByLast(a[1..], b[1..]);
      var i, j := a[..|a| - 1], b[..|b| - 1];
      assert a[1..][..|a[1..]| - 1] == i[1..] && b[1..][..|b[1..]| - 1] == j[1..];
      assert i == [i[0]] + i[1..] && j == [j[0]] + j[1..];
    }
  }

  lemma {:induction false} NumberIsLexicographic(a: string, b: string)
    requires |a| == |b|
    requires (forall i | 0 <= i < |a| :: '0' <= a[i] <= '9') && forall i | 0 <= i < |b| :: '0' <= b[i] <= '9'
    ensures Number(a) < Number(b) <==> Less(a, b)
    ensures Number(a) == Number(b) <==> a == b
  {
    if a != [] {
      var i, j, c, d := a[..|a| - 1], b[..|b| - 1], a[|a| - 1], b[|b| - 1];
      NumberIsLexicographic(i, j);
      LessByLast(a, b);
      assert a == b <==> i == j && c == d by { assert a == i + [c] && b == j + [d]; }
      TensFirst(Number(i), Number(j), c as int - '0' as int, d as int - '0' as int);
    }
  }

  lemma TensFirst(m: nat, n: nat, c: int, d: int)
    requires 0 <= c <= 9 && 0 <= d <= 9
    ensures 10 * m + c < 10 * n + d <==> m < n || (m == n && c < d)
    ensures 10 * m + c == 10 * n + d <==> m == n && c == d
  {
  }

  lemma QidOrder(x: Id, y: Id)
    requires PlainQid(x) && PlainQid(y)
    ensures IsQid(x) && IsQid(y) && (QidNumber(x) < QidNumber(y) <==> Lower(x, y))
  {
    var a, b := x[1..], y[1..];
    NumberHasDigits(a);
    NumberHasDigits(b);
    if |a| < |b| { PowerGrows(|a|, |b| - 1); }
    if |b| < |a| { PowerGrows(|b|, |a| - 1); }
    if |a| == |b| { NumberIsLexicographic(a, b); }
  }

  /** Among concepts with plain ids: no exact one is lower than the anchor, and without exact ones none is. */
  lemma AnchorIsLowest(members: set<Id>, exact: set<Id>, x: Id)
    requires x in members && PlainQid(x) && forall y | y in members && IsQid(y) :: PlainQid(y)
    ensures var a := AnchorOf(members, exact);
      && PlainQid(a) && (x in exact ==> a in exact) && (x in exact || a !in exact ==> !Lower(x, a))
  {
    AnchorNamesTheAtom(members, exact);
    QidOrder(x, x);
    QidOrder(x, AnchorOf(members, exact));
  }

  /** Without a concept it is the least id that starts with "decl:", if there is one. */
  lemma AnchorIsLeastDecl(members: set<Id>, exact: set<Id>, x: Id)
    requires x in members && "decl:" <= x && forall y | y in members :: y != [] && y[0] != 'Q'
    ensures var a := AnchorOf(members, exact); "decl:" <= a && (x == a || Less(a, x))
  {
    AnchorNamesTheAtom(members, exact);
    assert AnchorOf(members, exact)[0] != 'Q';
  }

  function SetOf(ids: seq<Id>): set<Id> { set x | x in ids }

  function CellId(members: seq<Id>, exact: set<Id>): Id
    requires members != []
  {
    assert members[0] in SetOf(members);
    "cell:" + AnchorOf(SetOf(members), exact)
  }

  lemma CellIdsDiffer(g: seq<Id>, h: seq<Id>, exact: set<Id>)
    requires g != [] && h != [] && SetOf(g) !! SetOf(h)
    ensures CellId(g, exact) != CellId(h, exact)
  {
    assert g[0] in SetOf(g) && h[0] in SetOf(h);
    var a, b := AnchorOf(SetOf(g), exact), AnchorOf(SetOf(h), exact);
    assert ("cell:" + a)[5..] == a && ("cell:" + b)[5..] == b;
  }

  // ---- the ownership invariant --------------------------------------------------------------------

  ghost predicate DistinctIds(organs: seq<Organ>) {
    forall i, j | 0 <= i < j < |organs| :: organs[i].id != organs[j].id
  }

  /** A cell lists no id twice, and every id it lists is owned by it. */
  ghost predicate ListedOnce(cells: Cells, owner: Owners, c: Id)
    requires c in cells
  {
    && !IsPath(c)
    && DistinctIds(cells[c])
    && (forall o | o in cells[c] :: o.id in owner && owner[o.id] == c)
  }

  /** Ownership is a function: what a cell lists it owns, and owners are cells or containers. */
  ghost predicate Owned(cells: Cells, owner: Owners) {
    && (forall c {:trigger ListedOnce(cells, owner, c)} | c in cells :: ListedOnce(cells, owner, c))
    && (forall x | x in owner :: owner[x] in cells || IsPath(owner[x]))
  }

  /** No organ id is listed by two cells. */
  lemma OrganInOneCell(cells: Cells, owner: Owners, c: Id, d: Id, o: Organ, p: Organ)
    requires Owned(cells, owner) && c in cells && d in cells
    requires o in cells[c] && p in cells[d] && o.id == p.id
    ensures c == d && o == p
  {
    assert ListedOnce(cells, owner, c) && ListedOnce(cells, owner, d);
    var i :| 0 <= i < |cells[c]| && cells[c][i] == o;
    var j :| 0 <= j < |cells[d]| && cells[d][j] == p;
  }

  /** Listing a new id in cell `c` and recording its owner keeps the invariant. */
  lemma AppendKeepsOwned(cells: Cells, owner: Owners, c: Id, o: Organ)
    requires Owned(cells, owner) && c in cells && o.id !in owner
    ensures Owned(cells[c := cells[c] + [o]], owner[o.id := c])
  {
    var cells', owner' := cells[c := cells[c] + [o]], owner[o.id := c];
    forall d | d in cells' ensures ListedOnce(cells', owner', d) {
      assert ListedOnce(cells, owner, d);
      forall i | 0 <= i < |cells[d]| ensures cells[d][i].id != o.id { assert cells[d][i] in cells[d]; }
    }
  }

  // ---- building the cells -------------------------------------------------------------------------

  ghost predicate NoRepeats(ids: seq<Id>) {
    forall i, j | 0 <= i < j < |ids| :: ids[i] != ids[j]
  }

  ghost predicate Apart(groups: Groups, r: Id, s: Id)
    requires r in groups && s in groups
  {
    r != s ==> SetOf(groups[r]) !! SetOf(groups[s])
  }

  ghost predicate Disjoint(groups: Groups) {
    && (forall r | r in groups :: groups[r] != [])
    && (forall r | r in groups :: NoRepeats(groups[r]))
    && (forall r, s {:trigger Apart(groups, r, s)} | r in groups && s in groups :: Apart(groups, r, s))
  }

  /** The merge's groups are such groups, over exactly the ids the merge registered. */
  lemma MergeGroupsAreDisjoint(rep: map<Id, Id>, groups: Groups)
    requires UnionFind.GroupsOf(rep, rep.Keys, groups)
    ensures Disjoint(groups)
    ensures forall r, x | r in groups && x in groups[r] :: x in rep.Keys
  {
    forall r, s | r in groups && s in groups ensures Apart(groups, r, s) {
      forall x | x in SetOf(groups[r]) ensures r == s || x !in SetOf(groups[s]) {
        assert x in groups[r] && rep[x] == r;
      }
    }
  }

  /** Concepts whose only home is a container. */
  function FieldOnly(fields: seq<(Id, Id)>, registered: set<Id>): set<Id> {
    set f | f in fields && f.0 !in registered :: f.0
  }

  /** Containers in the order of their first edge. */
  function FirstSeen(fields: seq<(Id, Id)>): (r: seq<Id>)
    ensures forall c :: c in r <==> exists f :: f in fields && f.1 == c
  {
    if fields == [] then [] else
      var init, last := fields[..|fields| - 1], fields[|fields| - 1];
      assert fields == init + [last];
      var before := FirstSeen(init);
      if last.1 in before then before else before + [last.1]
  }

  /** The unregistered concepts a container lists. */
  function Held(fields: seq<(Id, Id)>, registered: set<Id>, c: Id): set<Id> {
    set f | f in fields && f.1 == c && f.0 !in registered :: f.0
  }

  function HeldHomes(fields: seq<(Id, Id)>, registered: set<Id>, c: Id): map<Id, Id> {
    map x | x in Held(fields, registered, c) :: c
  }

  /** `p` lists `x`, and no container after it does. */
  ghost predicate LastToHold(containers: seq<Id>, fields: seq<(Id, Id)>, registered: set<Id>, x: Id, p: Id) {
    exists i :: 0 <= i < |containers| && LastAt(containers, fields, registered, x, i) && containers[i] == p
  }

  ghost predicate LastAt(containers: seq<Id>, fields: seq<(Id, Id)>, registered: set<Id>, x: Id, i: int)
    requires 0 <= i < |containers|
  {
    x in Held(fields, registered, containers[i]) &&
    forall j | i < j < |containers| :: x !in Held(fields, registered, containers[j])
  }

  /** The home each such concept has after the containers, the last that lists it. */
  function Homes(containers: seq<Id>, fields: seq<(Id, Id)>, registered: set<Id>): map<Id, Id> {
    if containers == [] then map[] else
      var last := containers[|containers| - 1];
      Homes(containers[..|containers| - 1], fields, registered) + HeldHomes(fields, registered, last)
  }

  lemma {:induction false} HomesAreLast(containers: seq<Id>, fields: seq<(Id, Id)>, registered: set<Id>, x: Id)
    ensures var homes := Homes(containers, fields, registered);
      && (x in homes <==> exists c :: c in containers && x in Held(fields, registered, c))
      && (x in homes ==> LastToHold(containers, fields, registered, x, homes[x]))
  {
    if containers != [] {
      var init, last := containers[..|containers| - 1], containers[|containers| - 1];
      assert containers == init + [last];
      HomesAreLast(init, fields, registered, x);
      if x in Held(fields, registered, last) {
        assert LastAt(containers, fields, registered, x, |containers| - 1);
      } else if x in Homes(init, fields, registered) {
        var i :| 0 <= i < |init| && LastAt(init, fields, registered, x, i)
          && init[i] == Homes(init, fields, registered)[x];
        assert LastAt(containers, fields, registered, x, i);
      }
    }
  }

  /** A field-only concept is at home in the container, among those that list it, that was first seen the latest. */
  lemma FieldOnlyHomes(fields: seq<(Id, Id)>, registered: set<Id>, x: Id)
    ensures var containers, homes := FirstSeen(fields), Homes(FirstSeen(fields), fields, registered);
      && (x in homes <==> x in FieldOnly(fields, registered))
      && (x in homes ==> (x, homes[x]) in fields && LastToHold(containers, fields, registered, x, homes[x]))
  {
    var containers, homes := FirstSeen(fields), Homes(FirstSeen(fields), fields, registered);
    HomesAreLast(containers, fields, registered, x);
    if x in FieldOnly(fields, registered) {
      var f :| f in fields && f.0 !in registered && f.0 == x;
      assert f.1 in containers && x in Held(fields, registered, f.1);
    }
    if x in homes {
      var f :| f in fields && f.1 == homes[x] && f.0 !in registered && f.0 == x;
      assert f == (x, homes[x]);
    }
  }

  /** Some edge leads to container `d` before any leads to `c`. */
  ghost predicate SeenBefore(fields: seq<(Id, Id)>, d: Id, c: Id) {
    exists k :: 0 <= k < |fields| && fields[k].1 == d && forall m | 0 <= m <= k :: fields[m].1 != c
  }

  lemma {:induction false} FirstSeenInOrder(fields: seq<(Id, Id)>, i: nat, j: nat)
    requires i < j < |FirstSeen(fields)|
    ensures SeenBefore(fields, FirstSeen(fields)[i], FirstSeen(fields)[j])
  {
    var init, last := fields[..|fields| - 1], fields[|fields| - 1];
    var before := FirstSeen(init);
    if j < |before| {
      FirstSeenInOrder(init, i, j);
      var k :| 0 <= k < |init| && init[k].1 == before[i] && forall m | 0 <= m <= k :: init[m].1 != before[j];
      assert fields[k] == init[k];
      forall m | 0 <= m <= k ensures fields[m].1 != before[j] { assert fields[m] == init[m]; }
    } else {
      assert before[i] in before;
      var f :| f in init && f.1 == before[i];
      var k :| 0 <= k < |init| && init[k] == f;
      forall m | 0 <= m <= k ensures fields[m].1 != last.1 { assert fields[m] in init; }
      assert fields[k] == init[k];
    }
  }

  /** A field-only concept goes to the one of its containers that appears last: every other one was seen before it. */
  lemma OwnedByLatest(fields: seq<(Id, Id)>, registered: set<Id>, x: Id, d: Id)
    requires var homes := Homes(FirstSeen(fields), fields, registered);
      x in homes && (x, d) in fields && d != homes[x]
    ensures SeenBefore(fields, d, Homes(FirstSeen(fields), fields, registered)[x])
  {
    var containers, homes := FirstSeen(fields), Homes(FirstSeen(fields), fields, registered);
    FieldOnlyHomes(fields, registered, x);
    var j :| 0 <= j < |containers| && LastAt(containers, fields, registered, x, j) && containers[j] == homes[x];
    HeldToo(fields, registered, x, d);
    var i :| 0 <= i < |containers| && containers[i] == d;
    assert i <= j;
    FirstSeenInOrder(fields, i, j);
  }

  lemma HeldToo(fields: seq<(Id, Id)>, registered: set<Id>, x: Id, d: Id)
    requires x in FieldOnly(fields, registered) && (x, d) in fields
    ensures x in Held(fields, registered, d) && d in FirstSeen(fields)
  {
    var f := (x, d);
    assert f in fields && f.0 == x && f.1 == d;
  }

  predicate IsAtom(k: NodeKind) { k == Concept || k == Decl }

  /** The merge groups and the lone concepts and declarations that no container claims. */
  function AllGroups(groups: Groups, registered: set<Id>, nodes: map<Id, NodeKind>, fields: seq<(Id, Id)>): Groups {
    groups + map n | n in nodes && IsAtom(nodes[n]) && n !in registered && n !in FieldOnly(fields, registered) :: [n]
  }

  lemma AllGroupsDisjoint(groups: Groups, registered: set<Id>, nodes: map<Id, NodeKind>, fields: seq<(Id, Id)>)
    requires Disjoint(groups)
    requires forall r, x | r in groups && x in groups[r] :: x in registered
    ensures Disjoint(AllGroups(groups, registered, nodes, fields))
  {
    var all := AllGroups(groups, registered, nodes, fields);
    forall r, s | r in all && s in all ensures Apart(all, r, s) {
      if r in groups && s in groups { assert Apart(groups, r, s); }
    }
  }

  function KnownOrgans(members: seq<Id>, nodes: map<Id, NodeKind>): (r: seq<Organ>)
    ensures forall o :: o in r <==> o.id in members && o.id in nodes && o.kind == nodes[o.id]
  {
    if members == [] then [] else
      var last := members[|members| - 1];
      assert members == members[..|members| - 1] + [last];
      KnownOrgans(members[..|members| - 1], nodes) + (if last in nodes then [Organ(nodes[last], last)] else [])
  }

  /** The organs of a cell: the group's known members in the order of their ids. */
  function OrgansOf(members: seq<Id>, nodes: map<Id, NodeKind>): (r: seq<Organ>)
    ensures forall o :: o in r <==> o.id in members && o.id in nodes && o.kind == nodes[o.id]
  {
    KnownOrgans(Sorted(SetOf(members)), nodes)
  }

  lemma {:induction false} KnownOrgansInOrder(members: seq<Id>, nodes: map<Id, NodeKind>)
    requires Increasing(members)
    ensures forall i, j | 0 <= i < j < |KnownOrgans(members, nodes)| ::
      Less(KnownOrgans(members, nodes)[i].id, KnownOrgans(members, nodes)[j].id)
  {
    if members != [] {
      var init, last := members[..|members| - 1], members[|members| - 1];
      KnownOrgansInOrder(init, nodes);
      var s := KnownOrgans(init, nodes);
      forall i | 0 <= i < |s| ensures Less(s[i].id, last) {
        assert s[i] in s;
        var k :| 0 <= k < |init| && init[k] == s[i].id;
        assert members[k] == init[k];
      }
    }
  }

  /** A cell lists its organs in increasing order of their ids, each once. */
  lemma OrgansAreDistinct(members: seq<Id>, nodes: map<Id, NodeKind>)
    ensures DistinctIds(OrgansOf(members, nodes))
    ensures forall i, j | 0 <= i < j < |OrgansOf(members, nodes)| ::
      Less(OrgansOf(members, nodes)[i].id, OrgansOf(members, nodes)[j].id)
  {
    KnownOrgansInOrder(Sorted(SetOf(members)), nodes);
    forall i, j | 0 <= i < j < |OrgansOf(members, nodes)|
      ensures OrgansOf(members, nodes)[i].id != OrgansOf(members, nodes)[j].id
    {
      LessIrreflexive(OrgansOf(members, nodes)[i].id);
    }
  }

  /** Group `r` has been turned into its cell. */
  ghost predicate GroupDone(all: Groups, r: Id, exact: set<Id>, nodes: map<Id, NodeKind>, cells: Cells, owner: Owners)
    requires r in all && all[r] != []
  {
    var known, c := OrgansOf(all[r], nodes), CellId(all[r], exact);
    && (known != [] ==> c in cells && cells[c] == known)
    && (forall o | o in known :: o.id in owner && owner[o.id] == c)
  }

  ghost predicate CellFrom(all: Groups, r: Id, exact: set<Id>, nodes: map<Id, NodeKind>, c: Id)
    requires r in all && all[r] != []
  {
    c == CellId(all[r], exact) && OrgansOf(all[r], nodes) != []
  }

  ghost predicate OwnedFrom(all: Groups, r: Id, nodes: map<Id, NodeKind>, x: Id)
    requires r in all
  {
    exists o :: o in OrgansOf(all[r], nodes) && o.id == x
  }

  /** The groups keyed in `done` have been turned into cells, and nothing else has been added. */
  ghost predicate Assembled(all: Groups, done: set<Id>, exact: set<Id>, nodes: map<Id, NodeKind>,
                            cells: Cells, owner: Owners)
    requires Disjoint(all) && done <= all.Keys
  {
    && (forall r {:trigger GroupDone(all, r, exact, nodes, cells, owner)} | r in done ::
       GroupDone(all, r, exact, nodes, cells, owner))
    && (forall c | c in cells :: HasGroup(all, done, exact, nodes, c))
    && (forall x | x in owner :: HasMember(all, done, nodes, x))
  }

  ghost predicate HasGroup(all: Groups, done: set<Id>, exact: set<Id>, nodes: map<Id, NodeKind>, c: Id)
    requires Disjoint(all) && done <= all.Keys
  {
    exists r :: r in done && CellFrom(all, r, exact, nodes, c)
  }

  ghost predicate HasMember(all: Groups, done: set<Id>, nodes: map<Id, NodeKind>, x: Id)
    requires done <= all.Keys
  {
    exists r :: r in done && OwnedFrom(all, r, nodes, x)
  }

  lemma AssembledIsOwned(all: Groups, done: set<Id>, exact: set<Id>, nodes: map<Id, NodeKind>,
                         cells: Cells, owner: Owners)
    requires Disjoint(all) && done <= all.Keys && Assembled(all, done, exact, nodes, cells, owner)
    ensures Owned(cells, owner)
  {
    forall c | c in cells ensures ListedOnce(cells, owner, c) {
      var r :| r in done && CellFrom(all, r, exact, nodes, c);
      assert GroupDone(all, r, exact, nodes, cells, owner);
      OrgansAreDistinct(all[r], nodes);
      assert c[0] == 'c';
    }
    forall x | x in owner ensures owner[x] in cells {
      var r :| r in done && OwnedFrom(all, r, nodes, x);
      assert GroupDone(all, r, exact, nodes, cells, owner);
    }
  }

  function WithCell(cells: Cells, c: Id, known: seq<Organ>): Cells {
    if known == [] then cells else cells[c := known]
  }

  function WithOwners(owner: Owners, c: Id, known: seq<Organ>): Owners {
    owner + map o | o in known :: o.id := c
  }

  lemma KnownApart(all: Groups, r: Id, s: Id, nodes: map<Id, NodeKind>)
    requires Disjoint(all) && r in all && s in all && r != s
    ensures forall o, p | o in OrgansOf(all[r], nodes) && p in OrgansOf(all[s], nodes) :: o.id != p.id
  {
    assert Apart(all, r, s);
    forall o, p | o in OrgansOf(all[r], nodes) && p in OrgansOf(all[s], nodes) ensures o.id != p.id {
      assert o.id in SetOf(all[r]) && p.id in SetOf(all[s]);
    }
  }

  /** A new group's cell and owners clash with no earlier one's. */
  lemma EarlierGroupsStay(all: Groups, done: set<Id>, r: Id, s: Id, exact: set<Id>, nodes: map<Id, NodeKind>,
                          cells: Cells, owner: Owners)
    requires Disjoint(all) && r in all && s in all && r != s
    requires GroupDone(all, s, exact, nodes, cells, owner)
    ensures var known, c := OrgansOf(all[r], nodes), CellId(all[r], exact);
            GroupDone(all, s, exact, nodes, WithCell(cells, c, known), WithOwners(owner, c, known))
  {
    assert Apart(all, s, r);
    CellIdsDiffer(all[s], all[r], exact);
    KnownApart(all, r, s, nodes);
    ListedStays(CellId(all[s], exact), OrgansOf(all[s], nodes), CellId(all[r], exact), OrgansOf(all[r], nodes),
                cells, owner);
  }

  /** Listed and owned organs stay so when another cell with other organs is added. */
  lemma ListedStays(d: Id, listed: seq<Organ>, c: Id, known: seq<Organ>, cells: Cells, owner: Owners)
    requires d != c && forall o, p | o in known && p in listed :: o.id != p.id
    requires listed != [] ==> d in cells && cells[d] == listed
    requires forall p | p in listed :: p.id in owner && owner[p.id] == d
    ensures listed != [] ==> d in WithCell(cells, c, known) && WithCell(cells, c, known)[d] == listed
    ensures forall p | p in listed :: p.id in WithOwners(owner, c, known) && WithOwners(owner, c, known)[p.id] == d
  {
  }

  lemma AssembleStep(all: Groups, done: set<Id>, r: Id, exact: set<Id>, nodes: map<Id, NodeKind>,
                     cells: Cells, owner: Owners)
    requires Disjoint(all) && done <= all.Keys && r in all && r !in done
    requires Assembled(all, done, exact, nodes, cells, owner)
    ensures var known, c := OrgansOf(all[r], nodes), CellId(all[r], exact);
            Assembled(all, done + {r}, exact, nodes, WithCell(cells, c, known), WithOwners(owner, c, known))
  {
    var known, c := OrgansOf(all[r], nodes), CellId(all[r], exact);
    var cells', owner' := WithCell(cells, c, known), WithOwners(owner, c, known);
    forall s | s in done + {r} ensures GroupDone(all, s, exact, nodes, cells', owner') {
      if s != r {
        assert GroupDone(all, s, exact, nodes, cells, owner);
        EarlierGroupsStay(all, done, r, s, exact, nodes, cells, owner);
      }
    }
    forall d | d in cells' ensures HasGroup(all, done + {r}, exact, nodes, d) {
      if d in cells {
        assert HasGroup(all, done, exact, nodes, d);
        var s :| s in done && CellFrom(all, s, exact, nodes, d);
        assert s in done + {r};
      } else {
        assert CellFrom(all, r, exact, nodes, d) && r in done + {r};
      }
    }
    forall x | x in owner' ensures HasMember(all, done + {r}, nodes, x) {
      if x in owner {
        assert HasMember(all, done, nodes, x);
        var s :| s in done && OwnedFrom(all, s, nodes, x);
        assert s in done + {r};
      } else {
        assert OwnedFrom(all, r, nodes, x) && r in done + {r};
      }
    }
  }

  ghost function GroupedIds(all: Groups): set<Id> {
    set r, x | r in all && x in all[r] :: x
  }

  ghost function KnownIds(all: Groups, nodes: map<Id, NodeKind>): set<Id> {
    set x | x in nodes && x in GroupedIds(all)
  }

  lemma AssembleTodo(all: Groups, todo: set<Id>, r: Id, exact: set<Id>, nodes: map<Id, NodeKind>, cells: Cells,
                     owner: Owners)
    requires Disjoint(all) && todo <= all.Keys && r in todo
    requires Assembled(all, all.Keys - todo, exact, nodes, cells, owner)
    ensures var known, c := OrgansOf(all[r], nodes), CellId(all[r], exact);
            Assembled(all, all.Keys - (todo - {r}), exact, nodes, WithCell(cells, c, known),
              WithOwners(owner, c, known))
  {
    AssembleStep(all, all.Keys - todo, r, exact, nodes, cells, owner);
    assert all.Keys - (todo - {r}) == all.Keys - todo + {r};
  }

  lemma GroupedAreOwned(all: Groups, exact: set<Id>, nodes: map<Id, NodeKind>, cells: Cells, owner: Owners)
    requires Disjoint(all) && Assembled(all, all.Keys, exact, nodes, cells, owner)
    ensures owner.Keys == KnownIds(all, nodes)
  {
    forall x ensures x in owner <==> x in nodes && x in GroupedIds(all) {
      if x in owner {
        assert HasMember(all, all.Keys, nodes, x);
        var r :| r in all && OwnedFrom(all, r, nodes, x);
      }
      if x in nodes && x in GroupedIds(all) {
        var r :| r in all && x in all[r];
        assert GroupDone(all, r, exact, nodes, cells, owner);
        assert Organ(nodes[x], x) in OrgansOf(all[r], nodes);
      }
    }
  }

  /** The finished assembly: one cell per group with a known member, one owner per known organ and homed concept. */
  ghost predicate Built(all: Groups, homes: map<Id, Id>, exact: set<Id>, nodes: map<Id, NodeKind>, cells: Cells,
                        owner: Owners)
    requires Disjoint(all)
  {
    && (forall r {:trigger GroupDone(all, r, exact, nodes, cells, owner)} | r in all ::
       GroupDone(all, r, exact, nodes, cells, owner))
    && (forall c {:trigger HasGroup(all, all.Keys, exact, nodes, c)} | c in cells ::
       HasGroup(all, all.Keys, exact, nodes, c))
    && owner.Keys == KnownIds(all, nodes) + homes.Keys
    && (forall x | x in homes :: owner[x] == homes[x])
  }

  lemma ListedAreGrouped(all: Groups, exact: set<Id>, nodes: map<Id, NodeKind>, cells: Cells, owner: Owners, c: Id,
                         o: Organ)
    requires Disjoint(all) && c in cells && o in cells[c] && HasGroup(all, all.Keys, exact, nodes, c)
    requires forall r {:trigger GroupDone(all, r, exact, nodes, cells, owner)} | r in all ::
      GroupDone(all, r, exact, nodes, cells, owner)
    ensures o.id in GroupedIds(all)
  {
    var r :| r in all && CellFrom(all, r, exact, nodes, c);
    assert GroupDone(all, r, exact, nodes, cells, owner);
  }

  lemma OwnOutsider(cells: Cells, owner: Owners, x: Id, path: Id)
    requires Owned(cells, owner) && IsPath(path)
    requires forall c, o | c in cells && o in cells[c] :: o.id != x
    ensures Owned(cells, owner[x := path])
  {
    forall c | c in cells ensures ListedOnce(cells, owner[x := path], c) {
      assert ListedOnce(cells, owner, c);
    }
  }

  lemma GroupUntouched(all: Groups, r: Id, exact: set<Id>, nodes: map<Id, NodeKind>, cells: Cells, owner: Owners,
                       x: Id, path: Id)
    requires r in all && all[r] != [] && x !in GroupedIds(all) && GroupDone(all, r, exact, nodes, cells, owner)
    ensures GroupDone(all, r, exact, nodes, cells, owner[x := path])
  {
    forall o | o in OrgansOf(all[r], nodes) ensures o.id != x { assert o.id in GroupedIds(all); }
  }

  /** Recording the container of a concept outside every group disturbs no cell. */
  lemma FieldConceptStep(all: Groups, homes: map<Id, Id>, exact: set<Id>, nodes: map<Id, NodeKind>,
                         cells: Cells, owner: Owners, x: Id, path: Id)
    requires Disjoint(all) && Built(all, homes, exact, nodes, cells, owner)
    requires x !in GroupedIds(all)
    ensures Built(all, homes[x := path], exact, nodes, cells, owner[x := path])
  {
    forall r | r in all ensures GroupDone(all, r, exact, nodes, cells, owner[x := path]) {
      assert GroupDone(all, r, exact, nodes, cells, owner);
      GroupUntouched(all, r, exact, nodes, cells, owner, x, path);
    }
    assert owner[x := path].Keys == KnownIds(all, nodes) + homes[x := path].Keys;
  }

  lemma FieldConceptKeepsOwned(all: Groups, homes: map<Id, Id>, exact: set<Id>, nodes: map<Id, NodeKind>,
                               cells: Cells, owner: Owners, x: Id, path: Id)
    requires Disjoint(all) && Built(all, homes, exact, nodes, cells, owner) && Owned(cells, owner)
    requires x !in GroupedIds(all) && IsPath(path)
    ensures Owned(cells, owner[x := path])
  {
    forall c, o | c in cells && o in cells[c] ensures o.id != x {
      assert HasGroup(all, all.Keys, exact, nodes, c);
      ListedAreGrouped(all, exact, nodes, cells, owner, c, o);
    }
    OwnOutsider(cells, owner, x, path);
  }

  lemma FieldOnlyOutside(groups: Groups, registered: set<Id>, nodes: map<Id, NodeKind>, fields: seq<(Id, Id)>)
    requires forall r, x | r in groups && x in groups[r] :: x in registered
    ensures FieldOnly(fields, registered) !! GroupedIds(AllGroups(groups, registered, nodes, fields))
  {
  }

  // ---- the cell of a group ----------------------------------------------------------------------------

  /** `Q` and at least one digit. */
  ghost predicate NamesConcept(x: Id) {
    exists d :: x == "Q" + d && d != "" && forall i | 0 <= i < |d| :: '0' <= d[i] <= '9'
  }

  lemma QidShape(x: Id)
    ensures IsQid(x) <==> NamesConcept(x)
  {
    if IsQid(x) {
      assert x == "Q" + x[1..];
      assert forall i | 0 <= i < |x[1..]| :: x[1..][i] == x[i + 1];
    }
    if NamesConcept(x) {
      var d :| x == "Q" + d && d != "" && forall i | 0 <= i < |d| :: '0' <= d[i] <= '9';
      forall i | 1 <= i < |x| ensures '0' <= x[i] <= '9' { assert x[i] == d[i - 1]; }
    }
  }

  /**
   A lowest exact concept if there is one, else a lowest concept, else the least declaration, else the least member.
   */
  ghost predicate Names(members: set<Id>, exact: set<Id>, a: Id) {
    && a in members
    && if exists x :: x in members && NamesConcept(x) then
         && NamesConcept(a) && ((exists x :: x in members && NamesConcept(x) && x in exact) ==> a in exact)
         && forall x | x in members && PlainQid(x) && PlainQid(a) && (x in exact || a !in exact) :: !Lower(x, a)
       else if exists x :: x in members && "decl:" <= x then
         "decl:" <= a && forall x | x in members && "decl:" <= x :: x == a || Less(a, x)
       else forall x | x in members :: x == a || Less(a, x)
  }

  lemma AnchorNames(members: set<Id>, exact: set<Id>)
    requires members != {}
    ensures Names(members, exact, AnchorOf(members, exact))
  {
    var a := AnchorOf(members, exact);
    AnchorNamesTheAtom(members, exact);
    forall x ensures IsQid(x) <==> NamesConcept(x) { QidShape(x); }
    forall x | x in members && PlainQid(x) && PlainQid(a) && (x in exact || a !in exact) ensures !Lower(x, a) {
      QidOrder(x, a);
    }
  }

  /** Cell `c` holds exactly the known members of the group, in the order of their ids, and owns them. */
  ghost predicate HoldsGroup(group: seq<Id>, nodes: map<Id, NodeKind>, cells: Cells, owner: Owners, c: Id) {
    && c in cells
    && (forall o :: o in cells[c] <==> o.id in group && o.id in nodes && o.kind == nodes[o.id])
    && (forall i, j | 0 <= i < j < |cells[c]| :: Less(cells[c][i].id, cells[c][j].id))
    && (forall x | x in group && x in nodes :: x in owner && owner[x] == c)
  }

  /** A group with a known member has a cell of its own, called after its anchor. */
  ghost predicate HasCell(group: seq<Id>, exact: set<Id>, nodes: map<Id, NodeKind>, cells: Cells, owner: Owners) {
    (exists x :: x in group && x in nodes) ==>
    exists a :: Names(SetOf(group), exact, a) && HoldsGroup(group, nodes, cells, owner, "cell:" + a)
  }

  lemma GroupHasCell(all: Groups, homes: map<Id, Id>, exact: set<Id>, nodes: map<Id, NodeKind>, cells: Cells,
                     owner: Owners, r: Id)
    requires Disjoint(all) && Built(all, homes, exact, nodes, cells, owner) && r in all
    ensures HasCell(all[r], exact, nodes, cells, owner)
  {
    if exists x :: x in all[r] && x in nodes {
      assert all[r][0] in SetOf(all[r]);
      AnchorNames(SetOf(all[r]), exact);
      GroupIsHeld(all, exact, nodes, cells, owner, r);
    }
  }

  lemma GroupIsHeld(all: Groups, exact: set<Id>, nodes: map<Id, NodeKind>, cells: Cells, owner: Owners, r: Id)
    requires r in all && all[r] != [] && GroupDone(all, r, exact, nodes, cells, owner)
    requires exists x :: x in all[r] && x in nodes
    ensures HoldsGroup(all[r], nodes, cells, owner, CellId(all[r], exact))
  {
    var organs := OrgansOf(all[r], nodes);
    var x :| x in all[r] && x in nodes;
    assert Organ(nodes[x], x) in organs;
    OrgansAreDistinct(all[r], nodes);
    forall y | y in all[r] && y in nodes ensures Organ(nodes[y], y) in organs {
    }
  }

  lemma GroupsHaveCells(groups: Groups, registered: set<Id>, exact: set<Id>, nodes: map<Id, NodeKind>,
                        fields: seq<(Id, Id)>, homes: map<Id, Id>, cells: Cells, owner: Owners)
    requires Disjoint(AllGroups(groups, registered, nodes, fields))
    requires Built(AllGroups(groups, registered, nodes, fields), homes, exact, nodes, cells, owner)
    ensures forall r | r in groups && r in registered :: HasCell(groups[r], exact, nodes, cells, owner)
  {
    var all := AllGroups(groups, registered, nodes, fields);
    forall r | r in groups && r in registered ensures HasCell(groups[r], exact, nodes, cells, owner) {
      assert r in all && all[r] == groups[r];
      GroupHasCell(all, homes, exact, nodes, cells, owner, r);
    }
  }

  // ---- nodes that merged with nothing --------------------------------------------------------------

  lemma LoneIsGrouped(groups: Groups, registered: set<Id>, nodes: map<Id, NodeKind>, fields: seq<(Id, Id)>, x: Id)
    requires Disjoint(groups) && forall r, y | r in groups && y in groups[r] :: y in registered
    requires x in nodes && x !in registered && forall f | f in fields :: f.0 != x
    ensures var all := AllGroups(groups, registered, nodes, fields);
      if nodes[x] == Concept || nodes[x] == Decl then x in all && all[x] == [x] else x !in GroupedIds(all)
  {
    assert x !in FieldOnly(fields, registered);
  }

  lemma LoneIsListed(nodes: map<Id, NodeKind>, x: Id)
    requires x in nodes
    ensures OrgansOf([x], nodes) == [Organ(nodes[x], x)]
  {
    var ids := Sorted(SetOf([x]));
    assert x in ids && |ids| == 1 by { assert SetOf([x]) == {x}; }
    assert ids == [x];
    assert KnownOrgans([x], nodes) == KnownOrgans([x][..0], nodes) + [Organ(nodes[x], x)];
  }

  lemma LoneIsNamed(x: Id, exact: set<Id>)
    ensures CellId([x], exact) == "cell:" + x
  {
    assert SetOf([x]) == {x};
  }

  lemma LoneIsOwned(all: Groups, homes: map<Id, Id>, exact: set<Id>, nodes: map<Id, NodeKind>, cells: Cells,
                    owner: Owners, x: Id)
    requires Disjoint(all) && Built(all, homes, exact, nodes, cells, owner)
    requires x in nodes && x in all && all[x] == [x]
    ensures x in owner && owner[x] == "cell:" + x && owner[x] in cells && cells[owner[x]] == [Organ(nodes[x], x)]
  {
    LoneIsListed(nodes, x);
    LoneIsNamed(x, exact);
    assert GroupDone(all, x, exact, nodes, cells, owner);
    var organs := [Organ(nodes[x], x)];
    assert organs[0] in organs;
  }

  ghost predicate LoneDone(nodes: map<Id, NodeKind>, cells: Cells, owner: Owners, x: Id)
    requires x in nodes
  {
    if nodes[x] == Concept || nodes[x] == Decl then
      x in owner && owner[x] == "cell:" + x && owner[x] in cells && cells[owner[x]] == [Organ(nodes[x], x)]
    else x !in owner
  }

  /** A concept or declaration that neither merged nor has a container is an atom by itself; no other node is. */
  lemma LoneNode(groups: Groups, registered: set<Id>, exact: set<Id>, nodes: map<Id, NodeKind>, fields: seq<(Id, Id)>,
                 cells: Cells, owner: Owners, x: Id)
    requires Disjoint(groups) && forall r, y | r in groups && y in groups[r] :: y in registered
    requires Disjoint(AllGroups(groups, registered, nodes, fields))
    requires Built(AllGroups(groups, registered, nodes, fields), Homes(FirstSeen(fields), fields, registered),
                   exact, nodes, cells, owner)
    requires x in nodes && x !in registered && forall f | f in fields :: f.0 != x
    ensures LoneDone(nodes, cells, owner, x)
  {
    LoneIsGrouped(groups, registered, nodes, fields, x);
    var all, homes := AllGroups(groups, registered, nodes, fields), Homes(FirstSeen(fields), fields, registered);
    if nodes[x] == Concept || nodes[x] == Decl {
      LoneIsOwned(all, homes, exact, nodes, cells, owner, x);
    } else {
      FieldOnlyHomes(fields, registered, x);
    }
  }

  class CellLayer {
    const nodes: map<Id, NodeKind>
    var cells: Cells
    var owner: Owners

    ghost predicate Valid()
      reads this
    {
      Owned(cells, owner)
    }

    constructor (nodes: map<Id, NodeKind>)
      ensures this.nodes == nodes && cells == map[] && owner == map[]
    {
      this.nodes, cells, owner := nodes, map[], map[];
    }

    /**
     `build_cells`, from the merge's groups on. `registered` are the ids the merge saw, `fields` the
     (concept, container) edges, `exact` the concepts with an exact edge.
     */
    method Build(groups: Groups, registered: set<Id>, exact: set<Id>, fields: seq<(Id, Id)>)
      requires cells == map[] && owner == map[]
      requires Disjoint(groups) && forall r, x | r in groups && x in groups[r] :: x in registered
      requires forall f | f in fields :: IsPath(f.1)
      modifies this
      ensures Disjoint(AllGroups(groups, registered, nodes, fields))
      ensures Valid() && Built(AllGroups(groups, registered, nodes, fields),
                               Homes(FirstSeen(fields), fields, registered), exact, nodes, cells, owner)
      ensures forall r | r in groups && r in registered :: HasCell(groups[r], exact, nodes, cells, owner)
      ensures forall x | x in nodes && x !in registered && (nodes[x] == Concept || nodes[x] == Decl)
                && (forall f | f in fields :: f.0 != x) ::
                x in owner && owner[x] == "cell:" + x && owner[x] in cells && cells[owner[x]] == [Organ(nodes[x], x)]
      ensures forall x | x in nodes && x !in registered && nodes[x] != Concept && nodes[x] != Decl
                && (forall f | f in fields :: f.0 != x) :: x !in owner
    {
      var all := AllGroups(groups, registered, nodes, fields);
      AllGroupsDisjoint(groups, registered, nodes, fields);
      FieldOnlyOutside(groups, registered, nodes, fields);
      Assemble(all, exact);
      OwnFieldConcepts(registered, fields, all, exact);
      GroupsHaveCells(groups, registered, exact, nodes, fields, Homes(FirstSeen(fields), fields, registered),
                      cells, owner);
      forall x | x in nodes && x !in registered && (forall f | f in fields :: f.0 != x)
        ensures LoneDone(nodes, cells, owner, x)
      {
        LoneNode(groups, registered, exact, nodes, fields, cells, owner, x);
      }
    }

    method Assemble(all: Groups, exact: set<Id>)
      requires cells == map[] && owner == map[] && Disjoint(all)
      modifies this
      ensures Valid() && Built(all, map[], exact, nodes, cells, owner)
    {
      var todo := all.Keys;
      while todo != {}
        invariant todo <= all.Keys && Assembled(all, all.Keys - todo, exact, nodes, cells, owner)
      {
        var r :| r in todo;
        var known, c := OrgansOf(all[r], nodes), CellId(all[r], exact);
        AssembleTodo(all, todo, r, exact, nodes, cells, owner);
        cells, owner, todo := WithCell(cells, c, known), WithOwners(owner, c, known), todo - {r};
      }
      assert all.Keys - todo == all.Keys;
      AssembledIsOwned(all, all.Keys, exact, nodes, cells, owner);
      GroupedAreOwned(all, exact, nodes, cells, owner);
    }

    /** A concept whose only home is a container is owned by it: container by container, in the order first seen. */
    method OwnFieldConcepts(registered: set<Id>, fields: seq<(Id, Id)>, ghost all: Groups, ghost exact: set<Id>)
      requires Disjoint(all) && Valid() && Built(all, map[], exact, nodes, cells, owner)
      requires FieldOnly(fields, registered) !! GroupedIds(all)
      requires forall f | f in fields :: IsPath(f.1)
      modifies this`owner
      ensures Valid() && Built(all, Homes(FirstSeen(fields), fields, registered), exact, nodes, cells, owner)
    {
      var containers := FirstSeen(fields);
      for k := 0 to |containers|
        invariant Valid() && Built(all, Homes(containers[..k], fields, registered), exact, nodes, cells, owner)
      {
        assert containers[k] in containers;
        OwnHeld(containers[k], registered, fields, Homes(containers[..k], fields, registered), all, exact);
        assert containers[..k + 1][..k] == containers[..k];
      }
      assert containers[..|containers|] == containers;
    }

    /** The inner loop: the concepts one container lists. */
    method OwnHeld(path: Id, registered: set<Id>, fields: seq<(Id, Id)>, ghost homes: map<Id, Id>, ghost all: Groups,
                   ghost exact: set<Id>)
      requires Disjoint(all) && Valid() && Built(all, homes, exact, nodes, cells, owner)
      requires FieldOnly(fields, registered) !! GroupedIds(all) && IsPath(path)
      modifies this`owner
      ensures Valid()
      ensures Built(all, homes + HeldHomes(fields, registered, path), exact, nodes, cells, owner)
    {
      assert homes + HeldHomes(fields[..0], registered, path) == homes;
      for i := 0 to |fields|
        invariant Valid()
        invariant Built(all, homes + HeldHomes(fields[..i], registered, path), exact, nodes, cells, owner)
      {
        OwnHeldStep(all, homes, fields, registered, path, i, exact, nodes, cells, owner);
        if fields[i].1 == path && fields[i].0 !in registered {
          owner := owner[fields[i].0 := path];
        }
      }
      assert fields[..|fields|] == fields;
    }
  }

  lemma OwnHeldStep(all: Groups, homes: map<Id, Id>, fields: seq<(Id, Id)>, registered: set<Id>, path: Id, i: nat,
                    exact: set<Id>, nodes: map<Id, NodeKind>, cells: Cells, owner: Owners)
    requires Disjoint(all) && i < |fields| && FieldOnly(fields, registered) !! GroupedIds(all) && IsPath(path)
    requires Owned(cells, owner)
      && Built(all, homes + HeldHomes(fields[..i], registered, path), exact, nodes, cells, owner)
    ensures var x := fields[i].0;
      var after := if fields[i].1 == path && x !in registered then owner[x := path] else owner;
      && Owned(cells, after)
      && Built(all, homes + HeldHomes(fields[..i + 1], registered, path), exact, nodes, cells, after)
  {
    var now := homes + HeldHomes(fields[..i], registered, path);
    HeldStep(fields, registered, path, i, homes);
    if fields[i].1 == path && fields[i].0 !in registered {
      FieldConceptStep(all, now, exact, nodes, cells, owner, fields[i].0, path);
      FieldConceptKeepsOwned(all, now, exact, nodes, cells, owner, fields[i].0, path);
    }
  }

  lemma HeldStep(fields: seq<(Id, Id)>, registered: set<Id>, path: Id, i: nat, homes: map<Id, Id>)
    requires i < |fields|
    ensures var before, after := homes + HeldHomes(fields[..i], registered, path),
                                 homes + HeldHomes(fields[..i + 1], registered, path);
      if fields[i].1 == path && fields[i].0 !in registered
      then fields[i].0 in FieldOnly(fields, registered) && after == before[fields[i].0 := path]
      else after == before
  {
    assert fields[..i + 1] == fields[..i] + [fields[i]];
    assert fields[i] in fields;
  }
}
