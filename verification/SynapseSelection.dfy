/** Which synapses of a cell ship: round robin over bond kinds, so that no kind is hidden by a cap. */
module SynapseSelection {
  import opened Ids
  import opened Sorting
  import opened TraceSelection

  /** Ids are unique within a cell, so a synapse stands for its id. */
  datatype Synapse = Synapse(id: Id, weight: nat, kinds: set<Kind>)

  /** Heaviest first, ties by id: the reading order. */
  predicate Heavier(a: Synapse, b: Synapse) {
    a.weight > b.weight || (a.weight == b.weight && Less(a.id, b.id))
  }

  ghost predicate UniqueIds(s: set<Synapse>) {
    forall a, b | a in s && b in s && a.id == b.id :: a == b
  }

  lemma HeavierIsTotal(s: set<Synapse>)
    requires UniqueIds(s)
    ensures StrictTotal(s, Heavier)
  {
    forall a | a in s ensures !Heavier(a, a) { LessIrreflexive(a.id); }
    forall a, b | a in s && b in s ensures a == b || Heavier(a, b) || Heavier(b, a) { LessTotal(a.id, b.id); }
    forall a, b, c | a in s && b in s && c in s && Heavier(a, b) && Heavier(b, c) ensures Heavier(a, c) {
      if Less(a.id, b.id) && Less(b.id, c.id) { LessTransitive(a.id, b.id, c.id); }
    }
  }

  function KindsOf(s: set<Synapse>): set<Kind> {
    set a, k | a in s && k in a.kinds :: k
  }

  function WithKind(s: set<Synapse>, k: Kind): set<Synapse> {
    set a | a in s && k in a.kinds
  }

  /** The synapses that carry some kind: the ones the round robin can reach. */
  function Bearing(s: set<Synapse>): set<Synapse> {
    set a | a in s && a.kinds != {}
  }

  function ByKind(s: set<Synapse>): map<Kind, seq<Synapse>>
    requires UniqueIds(s)
  {
    HeavierIsTotal(s);
    assert forall k :: WithKind(s, k) <= s;
    map k | k in KindsOf(s) :: SortedBy(WithKind(s, k), Heavier)
  }

  ghost predicate GroupOf(s: set<Synapse>, k: Kind, arr: seq<Synapse>) {
    && arr != [] && IsFirst(WithKind(s, k), Heavier, arr[0]) && (forall a :: a in arr <==> a in WithKind(s, k))
    && forall i, j | 0 <= i < j < |arr| :: Heavier(arr[i], arr[j])
  }

  /** `groups` lists, per kind, the synapses that carry it, the heaviest first. */
  ghost predicate Grouped(s: set<Synapse>, groups: map<Kind, seq<Synapse>>) {
    groups.Keys == KindsOf(s) && forall k {:trigger GroupOf(s, k, groups[k])} | k in groups :: GroupOf(s, k, groups[k])
  }

  lemma ByKindGroups(s: set<Synapse>)
    requires UniqueIds(s)
    ensures Grouped(s, ByKind(s))
  {
    HeavierIsTotal(s);
    var groups := ByKind(s);
    forall k | k in groups ensures GroupOf(s, k, groups[k]) {
      assert WithKind(s, k) <= s;
      var b :| b in s && k in b.kinds;
      var arr := SortedBy(WithKind(s, k), Heavier);
      assert b in arr;
      forall a | a in WithKind(s, k) ensures a == arr[0] || Heavier(arr[0], a) {
        var i :| 0 <= i < |arr| && arr[i] == a;
      }
    }
  }

  /** The entries a cursor has passed are all picked. */
  ghost predicate Passed(arr: seq<Synapse>, cursor: nat, picked: set<Synapse>) {
    forall i | 0 <= i < cursor && i < |arr| :: arr[i] in picked
  }

  ghost predicate PassedAt(groups: map<Kind, seq<Synapse>>, cursor: map<Kind, nat>, picked: set<Synapse>, k: Kind)
    requires k in groups
  {
    k in cursor && Passed(groups[k], cursor[k], picked)
  }

  ghost predicate Seated(groups: map<Kind, seq<Synapse>>, cursor: map<Kind, nat>, all: set<Synapse>,
                         picked: set<Synapse>) {
    && picked <= Bearing(all)
    && forall k {:trigger PassedAt(groups, cursor, picked, k)} | k in groups :: PassedAt(groups, cursor, picked, k)
  }

  /** One kind's turn: skip what rarer kinds have seated already, then seat the next entry. */
  method SeatNext(arr: seq<Synapse>, cursor: nat, picked0: set<Synapse>) returns (next: nat, picked: set<Synapse>)
    requires Passed(arr, cursor, picked0)
    ensures next > cursor && Passed(arr, next, picked)
    ensures picked == picked0 ==> forall a | a in arr :: a in picked
    ensures picked0 <= picked && |picked0| <= |picked| <= |picked0| + 1
    ensures forall a | a in picked :: a in picked0 || a in arr
    ensures if picked == picked0 then forall a | a in arr :: a in picked0 else SeatsNext(arr, picked0, picked)
  {
    var i := cursor;
    while i < |arr| && arr[i] in picked0
      invariant cursor <= i && Passed(arr, i, picked0)
    {
      i := i + 1;
    }
    next, picked := i + 1, picked0;
    if i < |arr| {
      picked := picked + {arr[i]};
    }
  }

  /** The first entry that is not picked yet is picked now. */
  ghost predicate SeatsNext(arr: seq<Synapse>, picked: set<Synapse>, now: set<Synapse>) {
    exists i :: 0 <= i < |arr| && arr[i] !in picked && now == picked + {arr[i]}
                && forall j | 0 <= j < i :: arr[j] in picked
  }

  // ---- whose turn it was --------------------------------------------------------------------------------------

  /** The kind at whose turn each picked synapse was seated. */
  type Seats = map<Synapse, Kind>

  ghost function SeatedBy(seats: Seats, k: Kind): set<Synapse> { set a | a in seats && seats[a] == k }

  /** A kind has seated one synapse at each of its turns, until none of the kind was left. */
  ghost predicate TurnsTaken(all: set<Synapse>, seats: Seats, k: Kind, turns: nat) {
    |SeatedBy(seats, k)| == turns
    || (|SeatedBy(seats, k)| < turns && forall a | a in all && k in a.kinds :: a in seats)
  }

  /** After `level` rounds and the turns of the first `p` kinds. */
  ghost predicate Served(all: set<Synapse>, seats: Seats, order: seq<Kind>, level: nat, p: nat) {
    && p <= |order| && (forall a | a in seats :: a in all && seats[a] in a.kinds)
    && (forall i | 0 <= i < |order| :: TurnsTaken(all, seats, order[i], level + if i < p then 1 else 0))
  }

  /** Of some kind it carries, no heavier synapse was passed over for a picked one. */
  ghost predicate NonePassedOver(all: set<Synapse>, seats: Seats) {
    forall a | a in seats :: forall b | b in all && seats[a] in b.kinds && Heavier(b, a) :: b in seats
  }

  lemma SeatTurn(all: set<Synapse>, seats: Seats, order: seq<Kind>, level: nat, p: nat, a: Synapse)
    requires Served(all, seats, order, level, p) && p < |order| && a in all && a !in seats && order[p] in a.kinds
    requires forall i, j | 0 <= i < j < |order| :: order[i] != order[j]
    ensures Served(all, seats[a := order[p]], order, level, p + 1)
  {
    var now := seats[a := order[p]];
    forall i | 0 <= i < |order| ensures TurnsTaken(all, now, order[i], level + if i < p + 1 then 1 else 0) {
      assert TurnsTaken(all, seats, order[i], level + if i < p then 1 else 0);
      if i == p {
        OwnSeat(all, seats, order[p], level, a);
      } else {
        OtherSeat(all, seats, order[i], level + if i < p then 1 else 0, a, order[p]);
      }
    }
  }

  lemma OwnSeat(all: set<Synapse>, seats: Seats, k: Kind, turns: nat, a: Synapse)
    requires TurnsTaken(all, seats, k, turns) && a in all && a !in seats && k in a.kinds
    ensures TurnsTaken(all, seats[a := k], k, turns + 1)
  {
    assert SeatedBy(seats[a := k], k) == SeatedBy(seats, k) + {a};
  }

  lemma OtherSeat(all: set<Synapse>, seats: Seats, k: Kind, turns: nat, a: Synapse, l: Kind)
    requires TurnsTaken(all, seats, k, turns) && a !in seats && l != k
    ensures TurnsTaken(all, seats[a := l], k, turns)
  {
    assert SeatedBy(seats[a := l], k) == SeatedBy(seats, k);
  }

  lemma SkipTurn(all: set<Synapse>, seats: Seats, order: seq<Kind>, level: nat, p: nat)
    requires Served(all, seats, order, level, p) && p < |order|
    requires forall a | a in all && order[p] in a.kinds :: a in seats
    ensures Served(all, seats, order, level, p + 1)
  {
    forall i | 0 <= i < |order| ensures TurnsTaken(all, seats, order[i], level + if i < p + 1 then 1 else 0) {
      assert TurnsTaken(all, seats, order[i], level + if i < p then 1 else 0);
    }
  }

  lemma RoundOver(all: set<Synapse>, seats: Seats, order: seq<Kind>, level: nat)
    requires Served(all, seats, order, level, |order|)
    ensures Served(all, seats, order, level + 1, 0)
  {
    forall i | 0 <= i < |order| ensures TurnsTaken(all, seats, order[i], level + 1 + if i < 0 then 1 else 0) {
      assert TurnsTaken(all, seats, order[i], level + if i < |order| then 1 else 0);
    }
  }

  lemma SeatsHeaviest(all: set<Synapse>, seats: Seats, k: Kind, arr: seq<Synapse>, i: nat)
    requires GroupOf(all, k, arr) && i < |arr| && (forall j | 0 <= j < i :: arr[j] in seats)
    requires NonePassedOver(all, seats)
    ensures NonePassedOver(all, seats[arr[i] := k])
  {
    forall b | b in all && k in b.kinds && Heavier(b, arr[i]) ensures b in seats {
      assert b in WithKind(all, k) && b in arr;
      var j :| 0 <= j < |arr| && arr[j] == b;
      EarlierIfHeavier(arr, i, j);
    }
  }

  lemma EarlierIfHeavier(arr: seq<Synapse>, i: nat, j: nat)
    requires forall i, j | 0 <= i < j < |arr| :: Heavier(arr[i], arr[j])
    requires i < |arr| && j < |arr| && Heavier(arr[j], arr[i])
    ensures j < i
  {
    HeavierIsStrict(arr[i], arr[j]);
  }

  lemma HeavierIsStrict(a: Synapse, b: Synapse)
    ensures !(Heavier(a, b) && Heavier(b, a)) && !Heavier(a, a)
  {
    LessIrreflexive(a.id);
    if Less(a.id, b.id) { LessAsymmetric(a.id, b.id); }
  }

  /** The record of one turn. */
  ghost method Record(all: set<Synapse>, seats0: Seats, order: seq<Kind>, level: nat, p: nat, arr: seq<Synapse>,
                      now: set<Synapse>)
    returns (seats: Seats)
    requires Served(all, seats0, order, level, p) && NonePassedOver(all, seats0)
    requires p < |order| && GroupOf(all, order[p], arr)
    requires forall i, j | 0 <= i < j < |order| :: order[i] != order[j]
    requires if now == seats0.Keys then forall a | a in arr :: a in now else SeatsNext(arr, seats0.Keys, now)
    ensures seats.Keys == now && Served(all, seats, order, level, p + 1) && NonePassedOver(all, seats)
  {
    seats := seats0;
    if now == seats0.Keys {
      forall a | a in all && order[p] in a.kinds ensures a in seats0 { assert a in WithKind(all, order[p]); }
      SkipTurn(all, seats0, order, level, p);
    } else {
      var i :| 0 <= i < |arr| && arr[i] !in seats0.Keys && now == seats0.Keys + {arr[i]}
               && forall j | 0 <= j < i :: arr[j] in seats0.Keys;
      assert arr[i] in arr && arr[i] in WithKind(all, order[p]);
      SeatTurn(all, seats0, order, level, p, arr[i]);
      SeatsHeaviest(all, seats0, order[p], arr, i);
      seats := seats0[arr[i] := order[p]];
    }
  }

  lemma SeatStep(groups: map<Kind, seq<Synapse>>, cursor: map<Kind, nat>, all: set<Synapse>, picked: set<Synapse>,
                 k: Kind, next: nat, seated: set<Synapse>)
    requires Grouped(all, groups) && Seated(groups, cursor, all, picked) && k in groups
    requires picked <= seated && Passed(groups[k], next, seated)
    requires forall a | a in seated :: a in picked || a in groups[k]
    ensures Seated(groups, cursor[k := next], all, seated)
  {
    assert GroupOf(all, k, groups[k]);
    forall j | j in groups ensures PassedAt(groups, cursor[k := next], seated, j) {
      assert PassedAt(groups, cursor, picked, j);
    }
  }

  /** The seats are those of the picked synapses, turn by turn, with none passed over. */
  ghost predicate Recorded(all: set<Synapse>, picked: set<Synapse>, seats: Seats, order: seq<Kind>, level: nat, p: nat)
  {
    seats.Keys == picked && Served(all, seats, order, level, p) && NonePassedOver(all, seats)
  }

  /** The turn of kind `order[p]`. */
  method TakeTurn(groups: map<Kind, seq<Synapse>>, order: seq<Kind>, ghost all: set<Synapse>, cursor0: map<Kind, nat>,
                  picked0: set<Synapse>, ghost seats0: Seats, ghost level: nat, p: nat)
    returns (cursor: map<Kind, nat>, picked: set<Synapse>, ghost seats: Seats)
    requires Grouped(all, groups) && Seated(groups, cursor0, all, picked0) && p < |order| && order[p] in groups
    requires forall i, j | 0 <= i < j < |order| :: order[i] != order[j]
    requires Recorded(all, picked0, seats0, order, level, p)
    ensures Seated(groups, cursor, all, picked) && Recorded(all, picked, seats, order, level, p + 1)
    ensures picked0 <= picked && |picked0| <= |picked| <= |picked0| + 1
    ensures picked == picked0 && AllSeated(groups, order, p, picked0) ==> AllSeated(groups, order, p + 1, picked)
    ensures AllTurned(order, p, cursor0) ==> AllTurned(order, p + 1, cursor)
  {
    var k := order[p];
    assert PassedAt(groups, cursor0, picked0, k) && GroupOf(all, k, groups[k]);
    var next;
    next, picked := SeatNext(groups[k], cursor0[k], picked0);
    SeatStep(groups, cursor0, all, picked0, k, next, picked);
    seats := Record(all, seats0, order, level, p, groups[k], picked);
    cursor := cursor0[k := next];
    OneMoreTurned(order, p, cursor0, next);
  }

  lemma OneMoreTurned(order: seq<Kind>, p: nat, cursor: map<Kind, nat>, next: nat)
    requires p < |order| && next > 0
    ensures AllTurned(order, p, cursor) ==> AllTurned(order, p + 1, cursor[order[p] := next])
  {
  }

  /** The order has every kind once. */
  ghost predicate Kinds(groups: map<Kind, seq<Synapse>>, order: seq<Kind>) {
    (forall k :: k in order <==> k in groups) && forall i, j | 0 <= i < j < |order| :: order[i] != order[j]
  }

  /** A pass that started from `start` after the turns of the first `n` kinds. */
  ghost predicate Passing(groups: map<Kind, seq<Synapse>>, order: seq<Kind>, all: set<Synapse>, cap: nat,
                          start: set<Synapse>, cursor: map<Kind, nat>, picked: set<Synapse>, seats: Seats,
                          level: nat, n: nat)
  {
    && Seated(groups, cursor, all, picked) && Recorded(all, picked, seats, order, level, n)
    && start <= picked && |start| <= |picked| <= cap && |picked| <= |start| + n
    && AllTurned(order, n, cursor) && (picked == start ==> AllSeated(groups, order, n, picked))
  }

  method NextTurn(groups: map<Kind, seq<Synapse>>, order: seq<Kind>, cap: nat, ghost all: set<Synapse>,
                  ghost start: set<Synapse>, cursor0: map<Kind, nat>, picked0: set<Synapse>, ghost seats0: Seats,
                  ghost level: nat, n: nat)
    returns (cursor: map<Kind, nat>, picked: set<Synapse>, ghost seats: Seats)
    requires Grouped(all, groups) && Kinds(groups, order) && n < |order| && |picked0| < cap
    requires Passing(groups, order, all, cap, start, cursor0, picked0, seats0, level, n)
    ensures Passing(groups, order, all, cap, start, cursor, picked, seats, level, n + 1)
  {
    cursor, picked, seats := TakeTurn(groups, order, all, cursor0, picked0, seats0, level, n);
    if picked == start { assert picked0 == start; }
  }

  method Pass(groups: map<Kind, seq<Synapse>>, order: seq<Kind>, cap: nat, ghost all: set<Synapse>,
              cursor0: map<Kind, nat>, picked0: set<Synapse>, ghost seats0: Seats, ghost level: nat)
    returns (cursor: map<Kind, nat>, picked: set<Synapse>, ghost seats: Seats, ghost p: nat)
    requires Grouped(all, groups) && Kinds(groups, order) && |picked0| < cap
    requires Seated(groups, cursor0, all, picked0)
    requires Recorded(all, picked0, seats0, order, level, 0)
    ensures Recorded(all, picked, seats, order, level, p)
    ensures p == |order| || |picked| == cap
    ensures Seated(groups, cursor, all, picked) && picked0 <= picked && |picked| <= cap
    ensures picked == picked0 ==> picked == Bearing(all)
    ensures |picked0| + |order| <= cap ==> AllTurned(order, |order|, cursor)
  {
    cursor, picked, seats, p := cursor0, picked0, seats0, 0;
    for q := 0 to |order|
      invariant p == q && Passing(groups, order, all, cap, picked0, cursor, picked, seats, level, q)
    {
      if |picked| >= cap {
        break;
      }
      cursor, picked, seats := NextTurn(groups, order, cap, all, picked0, cursor, picked, seats, level, q);
      p := p + 1;
    }
    if picked == picked0 { NothingLeft(groups, order, all, picked); }
  }

  /** Nothing is left of the first `n` kinds. */
  ghost predicate AllSeated(groups: map<Kind, seq<Synapse>>, order: seq<Kind>, n: nat, picked: set<Synapse>) {
    forall j | 0 <= j < n && j < |order| && order[j] in groups :: forall a | a in groups[order[j]] :: a in picked
  }

  /** The first `n` kinds have had a turn. */
  ghost predicate AllTurned(order: seq<Kind>, n: nat, cursor: map<Kind, nat>) {
    forall j | 0 <= j < n && j < |order| :: order[j] in cursor && cursor[order[j]] > 0
  }

  lemma NothingLeft(groups: map<Kind, seq<Synapse>>, order: seq<Kind>, all: set<Synapse>, picked: set<Synapse>)
    requires Grouped(all, groups) && (forall k :: k in order <==> k in groups)
    requires picked <= Bearing(all) && AllSeated(groups, order, |order|, picked)
    ensures picked == Bearing(all)
  {
    forall a | a in Bearing(all) ensures a in picked {
      var k :| k in a.kinds;
      assert k in KindsOf(all);
      assert GroupOf(all, k, groups[k]) && a in groups[k];
    }
  }

  ghost predicate HasHeaviest(s: set<Synapse>, k: Kind, picked: set<Synapse>) {
    exists a :: a in picked && IsFirst(WithKind(s, k), Heavier, a)
  }

  /** The heaviest synapse of every kind is among `picked`. */
  ghost predicate HeaviestSeated(s: set<Synapse>, picked: set<Synapse>) {
    forall k {:trigger HasHeaviest(s, k, picked)} | k in KindsOf(s) :: HasHeaviest(s, k, picked)
  }

  lemma HeadIsHeaviest(groups: map<Kind, seq<Synapse>>, all: set<Synapse>, k: Kind, picked: set<Synapse>)
    requires Grouped(all, groups) && k in KindsOf(all)
    requires groups[k] != [] ==> groups[k][0] in picked
    ensures HasHeaviest(all, k, picked)
  {
    assert GroupOf(all, k, groups[k]);
  }

  lemma HeadsAreSeated(groups: map<Kind, seq<Synapse>>, order: seq<Kind>, cursor: map<Kind, nat>, all: set<Synapse>,
                       picked: set<Synapse>)
    requires Grouped(all, groups) && Seated(groups, cursor, all, picked) && forall k :: k in order <==> k in groups
    requires AllTurned(order, |order|, cursor)
    ensures HeaviestSeated(all, picked)
  {
    forall k | k in KindsOf(all) ensures HasHeaviest(all, k, picked) {
      assert PassedAt(groups, cursor, picked, k) && GroupOf(all, k, groups[k]);
      HeadIsHeaviest(groups, all, k, picked);
    }
  }

  lemma AllAreSeated(s: set<Synapse>, picked: set<Synapse>)
    requires UniqueIds(s) && Bearing(s) <= picked
    ensures HeaviestSeated(s, picked)
  {
    ByKindGroups(s);
    forall k | k in KindsOf(s) ensures HasHeaviest(s, k, picked) {
      assert GroupOf(s, k, ByKind(s)[k]);
      HeadIsHeaviest(ByKind(s), s, k, picked);
    }
  }

  lemma NoKindsNothingHidden(s: set<Synapse>, picked: set<Synapse>)
    requires |KindsOf(s)| == 0
    ensures HeaviestSeated(s, picked)
  {
  }

  lemma MoreSeated(s: set<Synapse>, picked: set<Synapse>, more: set<Synapse>)
    requires HeaviestSeated(s, picked) && picked <= more
    ensures HeaviestSeated(s, more)
  {
    forall k | k in KindsOf(s) ensures HasHeaviest(s, k, more) {
      assert HasHeaviest(s, k, picked);
    }
  }

  /** The round robin proper. The loop's first pass, the one that seats every kind, is peeled off it. */
  method PickUnderCap(syns: set<Synapse>, cap: nat)
    returns (picked: set<Synapse>, ghost seats: Seats, ghost order: seq<Kind>, ghost level: nat, ghost p: nat)
    requires UniqueIds(syns)
    ensures Recorded(syns, picked, seats, order, level, p)
    ensures RarestFirst(syns, order)
    ensures picked <= Bearing(syns) && |picked| <= cap && (|picked| == cap || picked == Bearing(syns))
    ensures |KindsOf(syns)| <= cap ==> HeaviestSeated(syns, picked)
  {
    var groups := ByKind(syns);
    ByKindGroups(syns);
    var kinds := KindOrder(groups);
    KindsAreRarestFirst(syns);
    NothingServed(syns, kinds);
    seats, order, level, p := map[], kinds, 0, 0;
    if cap == 0 {
      if |KindsOf(syns)| <= cap { NoKindsNothingHidden(syns, {}); }
      return {}, seats, order, level, p;
    }
    picked, seats, level, p := AllPasses(groups, kinds, cap, syns);
  }

  /** The first pass and the others. */
  method AllPasses(groups: map<Kind, seq<Synapse>>, order: seq<Kind>, cap: nat, ghost all: set<Synapse>)
    returns (picked: set<Synapse>, ghost seats: Seats, ghost level: nat, ghost p: nat)
    requires Grouped(all, groups) && Kinds(groups, order) && cap > 0
    ensures Recorded(all, picked, seats, order, level, p)
    ensures picked <= Bearing(all) && |picked| <= cap && (|picked| == cap || picked == Bearing(all))
    ensures |order| <= cap ==> HeaviestSeated(all, picked)
  {
    NothingServed(all, order);
    var cursor := map k | k in groups :: 0;
    assert forall k :: k in groups ==> PassedAt(groups, cursor, {}, k);
    cursor, picked, seats, p := Pass(groups, order, cap, all, cursor, {}, map[], 0);
    if |order| <= cap { HeadsAreSeated(groups, order, cursor, all, picked); }
    level, p := RoundOrNot(all, seats, order, 0, p);
    picked, seats, level, p := MorePasses(groups, order, cap, all, cursor, picked, seats, level, p);
  }

  ghost method RoundOrNot(all: set<Synapse>, seats: Seats, order: seq<Kind>, level: nat, p: nat)
    returns (l: nat, q: nat)
    requires Served(all, seats, order, level, p)
    ensures Served(all, seats, order, l, q) && if p == |order| then q == 0 else q == p
  {
    l, q := level, p;
    if p == |order| {
      RoundOver(all, seats, order, level);
      l, q := level + 1, 0;
    }
  }

  lemma NothingServed(all: set<Synapse>, order: seq<Kind>)
    ensures Served(all, map[], order, 0, 0) && NonePassedOver(all, map[])
  {
    forall i | 0 <= i < |order| ensures TurnsTaken(all, map[], order[i], 0) {
      assert SeatedBy(map[], order[i]) == {};
    }
  }

  /** Every kind once, those that fewer synapses carry first, and equally rare ones by name. */
  ghost predicate RarestFirst(syns: set<Synapse>, order: seq<Kind>) {
    && (forall k :: k in order <==> exists a :: a in syns && k in a.kinds)
    && forall i, j | 0 <= i < j < |order| :: RarerKind(syns, order[i], order[j])
  }

  ghost predicate RarerKind(syns: set<Synapse>, k: Kind, l: Kind) {
    |WithKind(syns, k)| < |WithKind(syns, l)| || (|WithKind(syns, k)| == |WithKind(syns, l)| && Less(k, l))
  }

  lemma KindsAreRarestFirst(syns: set<Synapse>)
    requires UniqueIds(syns)
    ensures RarestFirst(syns, KindOrder(ByKind(syns)))
  {
    var groups := ByKind(syns);
    var order := KindOrder(groups);
    assert forall k :: k in order <==> k in KindsOf(syns);
    forall i, j | 0 <= i < j < |order| ensures RarerKind(syns, order[i], order[j]) {
      SizeOfKind(syns, order[i]);
      SizeOfKind(syns, order[j]);
      if Size(groups, order[i]) == Size(groups, order[j]) { EqualsByName(groups, i, j); }
    }
  }

  lemma SizeOfKind(syns: set<Synapse>, k: Kind)
    requires UniqueIds(syns) && k in ByKind(syns)
    ensures Size(ByKind(syns), k) == |WithKind(syns, k)|
  {
    HeavierIsTotal(syns);
    assert WithKind(syns, k) <= syns;
  }

  /** The passes after the first. */
  method MorePasses(groups: map<Kind, seq<Synapse>>, order: seq<Kind>, cap: nat, ghost all: set<Synapse>,
                    cursor0: map<Kind, nat>, picked0: set<Synapse>, ghost seats0: Seats, ghost level0: nat,
                    ghost p0: nat)
    returns (picked: set<Synapse>, ghost seats: Seats, ghost level: nat, ghost p: nat)
    requires Grouped(all, groups) && Kinds(groups, order)
    requires Recorded(all, picked0, seats0, order, level0, p0)
    requires p0 == 0 || |picked0| == cap
    requires Seated(groups, cursor0, all, picked0) && |picked0| <= cap
    ensures Recorded(all, picked, seats, order, level, p)
    ensures picked0 <= picked <= Bearing(all) && |picked| <= cap && (|picked| == cap || picked == Bearing(all))
    ensures HeaviestSeated(all, picked0) ==> HeaviestSeated(all, picked)
  {
    var cursor := cursor0;
    picked, seats, level, p := picked0, seats0, level0, p0;
    while |picked| < cap
      invariant Recorded(all, picked, seats, order, level, p)
      invariant p == 0 || |picked| == cap
      invariant picked0 <= picked && Seated(groups, cursor, all, picked) && |picked| <= cap
      decreases cap - |picked|
    {
      ghost var record, turns;
      var next, seated;
      next, seated, record, turns := Pass(groups, order, cap, all, cursor, picked, seats, level);
      if seated == picked {
        break;
      }
      Grows(picked, seated);
      cursor, picked, seats := next, seated, record;
      level, p := RoundOrNot(all, seats, order, level, turns);
    }
    if HeaviestSeated(all, picked0) { MoreSeated(all, picked0, picked); }
  }

  /**
   `pick_synapses`: everything when it fits; otherwise exactly the cap (or all that carry a kind), and
   with no more kinds than the cap, the heaviest synapse of every kind. Heaviest first either way.
   */
  method PickSynapses(syns: set<Synapse>, cap: nat)
    returns (out: seq<Synapse>, ghost seats: Seats, ghost order: seq<Kind>, ghost level: nat, ghost p: nat)
    requires UniqueIds(syns)
    ensures |syns| > cap ==> (forall a :: a in seats <==> a in out) && RarestFirst(syns, order)
    ensures |syns| > cap ==> Served(syns, seats, order, level, p) && NonePassedOver(syns, seats)
    ensures |out| == if |syns| <= cap then |syns| else Least2(cap, |Bearing(syns)|)
    ensures forall a | a in out :: a in syns
    ensures InReadingOrder(out)
    ensures |KindsOf(syns)| <= cap ==> HeaviestOfAll(syns, out)
  {
    if |syns| <= cap {
      AllAreSeated(syns, syns);
      out := HeaviestFirst(syns);
      HeaviestShown(syns, syns, out);
      seats, order, level, p := map[], [], 0, 0;
      return;
    }
    var picked;
    picked, seats, order, level, p := PickUnderCap(syns, cap);
    SubsetSize(picked, Bearing(syns));
    out := HeaviestFirst(picked);
    if |KindsOf(syns)| <= cap { HeaviestShown(syns, picked, out); }
  }

  method HeaviestFirst(picked: set<Synapse>) returns (out: seq<Synapse>)
    requires UniqueIds(picked)
    ensures |out| == |picked| && (forall a :: a in out <==> a in picked) && InReadingOrder(out)
  {
    HeavierIsTotal(picked);
    out := SortedBy(picked, Heavier);
  }

  /** By falling weight, and synapses of one weight by their ids. */
  ghost predicate InReadingOrder(out: seq<Synapse>) {
    forall i, j | 0 <= i < j < |out| ::
      out[i].weight > out[j].weight || (out[i].weight == out[j].weight && Less(out[i].id, out[j].id))
  }

  /** A synapse of the kind is shown that no other of the kind outweighs; of equals, the one with the least id. */
  ghost predicate ShowsHeaviest(syns: set<Synapse>, k: Kind, out: seq<Synapse>) {
    exists a :: a in out && k in a.kinds && Tops(syns, k, a)
  }

  ghost predicate Tops(syns: set<Synapse>, k: Kind, a: Synapse) {
    forall b | b in syns && k in b.kinds && b != a :: a.weight > b.weight || (a.weight == b.weight && Less(a.id, b.id))
  }

  ghost predicate HeaviestOfAll(syns: set<Synapse>, out: seq<Synapse>) {
    forall s, k | s in syns && k in s.kinds :: ShowsHeaviest(syns, k, out)
  }

  lemma HeaviestShown(syns: set<Synapse>, picked: set<Synapse>, out: seq<Synapse>)
    requires HeaviestSeated(syns, picked) && forall a :: a in out <==> a in picked
    ensures HeaviestOfAll(syns, out)
  {
    forall s, k | s in syns && k in s.kinds ensures ShowsHeaviest(syns, k, out) {
      assert k in KindsOf(syns);
      assert HasHeaviest(syns, k, picked);
      var a :| a in picked && IsFirst(WithKind(syns, k), Heavier, a);
      forall b | b in syns && k in b.kinds && b != a
        ensures a.weight > b.weight || (a.weight == b.weight && Less(a.id, b.id))
      {
        assert b in WithKind(syns, k);
      }
    }
  }

  lemma SubsetSize(s: set<Synapse>, t: set<Synapse>)
    requires s <= t
    ensures |s| <= |t|
  {
    if s != t { Grows(s, t); }
  }

  lemma Grows(s: set<Synapse>, t: set<Synapse>)
    requires s <= t && s != t
    ensures |s| < |t|
  {
    var d := t - s;
    assert t == s + d && s !! d;
    assert |t| == |s| + |d|;
    assert d != {};
  }
}
