/** Largest-remainder allocation of a development split over domains, in exact arithmetic. */
module LargestRemainder {
  import opened Ids
  import opened Sorting
  import opened Sums

  type Counts = map<Id, nat>

  function Base(c: nat, total: nat, population: nat): nat
    requires population > 0
  {
    c * total / population
  }

  function Remainder(c: nat, total: nat, population: nat): nat
    requires population > 0
  {
    c * total % population
  }

  function Bases(counts: Counts, total: nat, population: nat): map<Id, int>
    requires population > 0
  {
    map d | d in counts :: Base(counts[d], total, population)
  }

  function Remainders(counts: Counts, total: nat, population: nat): map<Id, int>
    requires population > 0
  {
    map d | d in counts :: Remainder(counts[d], total, population)
  }

  /** Largest remainder first, ties by name. */
  predicate Ahead(rem: map<Id, int>, a: Id, b: Id) {
    var x, y := (if a in rem then rem[a] else 0), (if b in rem then rem[b] else 0);
    x > y || (x == y && Less(a, b))
  }

  lemma AheadIsTotal(rem: map<Id, int>, s: set<Id>)
    ensures StrictTotal(s, (a, b) => Ahead(rem, a, b))
  {
    forall a | a in s ensures !Ahead(rem, a, a) { LessIrreflexive(a); }
    forall a, b | a in s && b in s ensures a == b || Ahead(rem, a, b) || Ahead(rem, b, a) { LessTotal(a, b); }
    forall a, b, c | a in s && b in s && c in s && Ahead(rem, a, b) && Ahead(rem, b, c) ensures Ahead(rem, a, c) {
      if Less(a, b) && Less(b, c) { LessTransitive(a, b, c); }
    }
  }

  function RankOrder(rem: map<Id, int>): (r: seq<Id>)
    ensures |r| == |rem.Keys| && forall d :: d in r <==> d in rem
    ensures forall i, j | 0 <= i < j < |r| :: Ahead(rem, r[i], r[j]) && r[i] != r[j]
  {
    AheadIsTotal(rem, rem.Keys);
    SortedBy(rem.Keys, (a, b) => Ahead(rem, a, b))
  }

  lemma DivMod(a: nat, n: nat)
    requires n > 0
    ensures a == n * (a / n) + a % n && 0 <= a % n < n
  {
  }

  lemma SplitOff(counts: Counts, total: nat, population: nat, d: Id)
    requires population > 0 && d in counts
    ensures var rest := counts - {d};
      && Sum(counts) == counts[d] + Sum(rest)
      && Sum(Bases(counts, total, population))
         == Bases(counts, total, population)[d] + Sum(Bases(rest, total, population))
      && Sum(Remainders(counts, total, population))
         == Remainders(counts, total, population)[d] + Sum(Remainders(rest, total, population))
  {
    SumRemove(counts, d);
    SumRemove(Bases(counts, total, population), d);
    SumRemove(Remainders(counts, total, population), d);
    RestOf(counts, total, population, d);
  }

  lemma QuotaAt(counts: Counts, total: nat, population: nat, d: Id)
    requires population > 0 && d in counts
    ensures counts[d] * total
      == population * Bases(counts, total, population)[d] + Remainders(counts, total, population)[d]
  {
    DivMod(counts[d] * total, population);
  }

  lemma QuotaStep(counts: Counts, total: nat, population: nat, d: Id)
    requires population > 0 && d in counts
    requires var rest := counts - {d};
      population * Sum(Bases(rest, total, population)) + Sum(Remainders(rest, total, population)) == total * Sum(rest)
    ensures population * Sum(Bases(counts, total, population)) + Sum(Remainders(counts, total, population))
      == total * Sum(counts)
  {
    var rest := counts - {d};
    SplitOff(counts, total, population, d);
    QuotaAt(counts, total, population, d);
    BalanceStep(population, total, counts[d], Bases(counts, total, population)[d],
      Remainders(counts, total, population)[d],
                Sum(Bases(rest, total, population)), Sum(Remainders(rest, total, population)), Sum(rest),
                Sum(Bases(counts, total, population)), Sum(Remainders(counts, total, population)), Sum(counts));
  }

  /** The floors and remainders account for the whole total. */
  lemma {:induction false} QuotasBalance(counts: Counts, total: nat, population: nat)
    requires population > 0
    ensures population * Sum(Bases(counts, total, population)) + Sum(Remainders(counts, total, population))
      == total * Sum(counts)
  {
    if counts != map[] {
      var d :| d in counts;
      QuotasBalance(counts - {d}, total, population);
      QuotaStep(counts, total, population, d);
    }
  }

  lemma RestOf(counts: Counts, total: nat, population: nat, d: Id)
    requires population > 0 && d in counts
    ensures Bases(counts, total, population) - {d} == Bases(counts - {d}, total, population)
    ensures Remainders(counts, total, population) - {d} == Remainders(counts - {d}, total, population)
  {
  }

  lemma BalanceStep(population: int, total: int, c: int, b: int, r: int, bs: int, rs: int, cs: int, b': int, r': int,
                    c': int)
    requires c * total == population * b + r && population * bs + rs == total * cs
    requires b' == b + bs && r' == r + rs && c' == c + cs
    ensures population * b' + r' == total * c'
  {
    Distribute(population, b, bs);
    Distribute(total, c, cs);
  }

  lemma Distribute(a: int, b: int, c: int)
    ensures a * (b + c) == a * b + a * c
  {
  }

  ghost function Positive(rem: map<Id, int>): set<Id> { set d | d in rem && rem[d] > 0 }

  lemma {:induction false} RemaindersBounded(rem: map<Id, int>, population: nat)
    requires population > 0 && forall d | d in rem :: 0 <= rem[d] < population
    ensures 0 <= Sum(rem) <= (population - 1) * |Positive(rem)|
  {
    if rem != map[] {
      var d :| d in rem;
      var rest := rem - {d};
      RemaindersBounded(rest, population);
      SumRemove(rem, d);
      if rem[d] > 0 {
        assert Positive(rem) == Positive(rest) + {d};
        Distribute(population - 1, |Positive(rest)|, 1);
      } else {
        assert Positive(rem) == Positive(rest);
      }
    }
  }

  function SetOf(s: seq<Id>): set<Id> { set d | d in s }

  /** In rank order the positive remainders come first. */
  lemma PositivesComeFirst(rem: map<Id, int>, order: seq<Id>, k: nat)
    requires forall d :: d in order <==> d in rem
    requires forall i, j | 0 <= i < j < |order| :: Ahead(rem, order[i], order[j])
    requires k < |order| ==> rem[order[k]] <= 0
    ensures |Positive(rem)| <= k
  {
    var first := if k < |order| then order[..k] else order;
    forall d | d in Positive(rem) ensures d in SetOf(first) {
      var i :| 0 <= i < |order| && order[i] == d;
      assert k < i && k < |order| ==> Ahead(rem, order[k], order[i]);
      assert first[i] == d;
    }
    SubsetSize(Positive(rem), SetOf(first));
    SetIsShort(first);
  }

  /** There are at least as many positive remainders as leftover units: every bonus rounds a fraction up. */
  lemma BonusesAreFractional(rem: map<Id, int>, order: seq<Id>, population: nat, remaining: int, k: nat)
    requires population > 0 && forall d | d in rem :: 0 <= rem[d] < population
    requires Sum(rem) == population * remaining && k < remaining
    requires forall d :: d in order <==> d in rem
    requires forall i, j | 0 <= i < j < |order| :: Ahead(rem, order[i], order[j])
    ensures k < |order| && rem[order[k]] > 0
  {
    RemaindersBounded(rem, population);
    if k >= |order| || rem[order[k]] <= 0 {
      PositivesComeFirst(rem, order, k);
      TooFewUnits(population, |Positive(rem)|, remaining);
    }
  }

  lemma TooFewUnits(population: nat, m: nat, remaining: int)
    requires population > 0 && m < remaining
    ensures (population - 1) * m < population * remaining
  {
    Distribute(population, m, 1);
    MulMonotone(population, m + 1, remaining);
    assert (population - 1) * m == population * m - m;
  }

  lemma MulMonotone(a: nat, b: int, c: int)
    requires b <= c
    ensures a * b <= a * c
  {
  }

  lemma {:induction false} SetIsShort(s: seq<Id>)
    ensures |SetOf(s)| <= |s|
  {
    if s != [] {
      var init, last := s[..|s| - 1], s[|s| - 1];
      SetIsShort(init);
      assert s == init + [last];
      assert SetOf(s) == SetOf(init) + {last};
    }
  }

  lemma SubsetSize(s: set<Id>, t: set<Id>)
    requires s <= t
    ensures |s| <= |t|
  {
    assert t == s + (t - s) && s !! (t - s);
  }

  /** The floors, plus one unit for each domain of `lucky`. */
  function Allocated(counts: Counts, total: nat, population: nat, lucky: set<Id>): map<Id, int>
    requires population > 0
  {
    map d | d in counts :: Base(counts[d], total, population) + if d in lucky then 1 else 0
  }

  lemma GiveBonus(counts: Counts, total: nat, population: nat, lucky: set<Id>, d: Id)
    requires population > 0 && d in counts && d !in lucky
    ensures var before := Allocated(counts, total, population, lucky);
      var after := Allocated(counts, total, population, lucky + {d});
            after == before[d := before[d] + 1] && Sum(after) == Sum(before) + 1
  {
    var before := Allocated(counts, total, population, lucky);
    SumUpdate(before, d, before[d] + 1);
    assert Allocated(counts, total, population, lucky + {d}) == before[d := before[d] + 1];
  }

  method Total(m: map<Id, int>) returns (t: int)
    ensures t == Sum(m)
  {
    t := 0;
    var rest := m;
    while rest != map[]
      invariant t + Sum(rest) == Sum(m)
      decreases |rest|
    {
      var d :| d in rest;
      SumRemove(rest, d);
      t, rest := t + rest[d], rest - {d};
    }
  }

  /** `a` is the floor or the ceiling of the quota `c * total / population`. */
  predicate RoundsQuota(c: nat, total: nat, population: nat, a: int) {
    0 - population < population * a - c * total < population
  }

  lemma LeftoverUnits(population: nat, total: nat, bases: int, rems: int)
    requires population > 0 && population * bases + rems == total * population && rems >= 0
    ensures rems == population * (total - bases) && total - bases >= 0
  {
    Distribute(population, total - bases, bases);
    if total - bases < 0 { MulMonotone(population, total - bases, -1); }
  }

  lemma AllocationRounds(c: nat, total: nat, population: nat, bonus: bool)
    requires population > 0 && (bonus ==> Remainder(c, total, population) > 0)
    ensures var a := Base(c, total, population) + if bonus then 1 else 0;
            RoundedAt(c, total, population, a)
  {
    DivMod(c * total, population);
    var b := Base(c, total, population);
    Distribute(population, b, 1);
    if total <= population {
      MulMonotone(c, total, population);
      if b >= c + 1 { MulMonotone(population, c + 1, b); Distribute(population, c, 1); }
      assert b == c ==> Remainder(c, total, population) == 0;
    }
  }

  /** A larger domain has the larger floor, or the same floor and the larger remainder. */
  lemma LargerDomainAhead(c: nat, d: nat, total: nat, population: nat)
    requires population > 0 && c > d
    ensures Base(c, total, population) >= Base(d, total, population)
    ensures Base(c, total, population) == Base(d, total, population) ==>
              Remainder(c, total, population) > Remainder(d, total, population) || total == 0
  {
    DivMod(c * total, population);
    DivMod(d * total, population);
    MulMonotone(total, d + 1, c);
    Distribute(total, d, 1);
    var b, e := Base(c, total, population), Base(d, total, population);
    if b < e { MulMonotone(population, b + 1, e); Distribute(population, b, 1); }
  }

  /** Who gets a bonus: a prefix of the rank order, all of them with a remainder. */
  ghost predicate Lucky(rem: map<Id, int>, order: seq<Id>, lucky: set<Id>) {
    && (forall d | d in lucky :: d in rem && rem[d] > 0)
    && (forall i, j | 0 <= i < j < |order| && order[j] in lucky :: order[i] in lucky)
  }

  lemma LargerGetsNoFewer(counts: Counts, total: nat, population: nat, order: seq<Id>, lucky: set<Id>, d: Id, e: Id)
    requires population > 0 && d in counts && e in counts && counts[d] > counts[e]
    requires Lucky(Remainders(counts, total, population), order, lucky)
    requires forall x :: x in order <==> x in counts
    requires forall i, j | 0 <= i < j < |order| :: Ahead(Remainders(counts, total, population), order[i], order[j])
    ensures Allocated(counts, total, population, lucky)[d] >= Allocated(counts, total, population, lucky)[e]
  {
    LargerDomainAhead(counts[d], counts[e], total, population);
    var i :| 0 <= i < |order| && order[i] == d;
    var j :| 0 <= j < |order| && order[j] == e;
    var rem := Remainders(counts, total, population);
    if e in lucky && Base(counts[d], total, population) == Base(counts[e], total, population) {
      assert rem[e] > 0;
      ZeroTotal(counts[e], total, population);
      assert j < i ==> Ahead(rem, order[j], order[i]);
    }
  }

  lemma ZeroTotal(c: nat, total: nat, population: nat)
    requires population > 0
    ensures total == 0 ==> Remainder(c, total, population) == 0
  {
  }

  /**
   Every allocation is its quota rounded down or up, and within its domain when the total is within the population.
   */
  ghost predicate Rounded(counts: Counts, total: nat, population: nat, alloc: map<Id, int>) {
    forall d {:trigger RoundedAt(counts[d], total, population, alloc[d])} | d in counts && d in alloc ::
      RoundedAt(counts[d], total, population, alloc[d])
  }

  predicate RoundedAt(c: nat, total: nat, population: nat, a: int) {
    a >= 0 && RoundsQuota(c, total, population, a) && (total <= population ==> a <= c)
  }

  ghost predicate LargerNoFewer(counts: Counts, alloc: map<Id, int>) {
    forall d, e | d in counts && e in counts && d in alloc && e in alloc && counts[d] > counts[e] ::
      alloc[d] >= alloc[e]
  }

  lemma AllocatedIsFair(counts: Counts, total: nat, population: nat, order: seq<Id>, lucky: set<Id>)
    requires population > 0 && Lucky(Remainders(counts, total, population), order, lucky)
    requires forall x :: x in order <==> x in counts
    requires forall i, j | 0 <= i < j < |order| :: Ahead(Remainders(counts, total, population), order[i], order[j])
    ensures Rounded(counts, total, population, Allocated(counts, total, population, lucky))
    ensures LargerNoFewer(counts, Allocated(counts, total, population, lucky))
  {
    var alloc := Allocated(counts, total, population, lucky);
    forall d | d in counts ensures RoundedAt(counts[d], total, population, alloc[d]) {
      assert d in lucky ==> Remainders(counts, total, population)[d] > 0;
      AllocationRounds(counts[d], total, population, d in lucky);
    }
    forall d, e | d in counts && e in counts && counts[d] > counts[e] ensures alloc[d] >= alloc[e] {
      LargerGetsNoFewer(counts, total, population, order, lucky, d, e);
    }
  }

  /** `largest_remainder`: exact in sum, each quota rounded down or up, and never more to a smaller domain. */
  method Allocate(counts: Counts, total: nat) returns (alloc: map<Id, int>)
    requires Sum(counts) > 0
    ensures alloc.Keys == counts.Keys && Sum(alloc) == total
    ensures Rounded(counts, total, Sum(counts), alloc)
    ensures LargerNoFewer(counts, alloc)
    ensures LargestUp(counts, total, Sum(counts), alloc)
  {
    var population := Total(counts);
    alloc := AllocateWithin(counts, total, population);
  }

  method AllocateWithin(counts: Counts, total: nat, population: nat) returns (alloc: map<Id, int>)
    requires population > 0 && population == Sum(counts)
    ensures alloc.Keys == counts.Keys && Sum(alloc) == total
    ensures Rounded(counts, total, population, alloc)
    ensures LargerNoFewer(counts, alloc)
    ensures LargestUp(counts, total, population, alloc)
  {
    var rem := Remainders(counts, total, population);
    var order := RankOrder(rem);
    var bases := Bases(counts, total, population);
    var floors := Total(bases);
    LeftoversAreFractional(counts, total, population, order, total - floors);
    ghost var lucky;
    alloc, lucky := GiveBonuses(counts, total, population, rem, order, bases, total - floors);
    AllocatedIsFair(counts, total, population, order, lucky);
    LuckyAreLargest(counts, total, population, order, lucky);
  }

  /** A domain rounded up lost no less by its floor than one that is not; of equals the first by name goes up. */
  ghost predicate LargestUp(counts: Counts, total: nat, population: nat, alloc: map<Id, int>)
    requires population > 0
  {
    forall d, e | d in counts && e in counts && d in alloc && e in alloc
      && population * alloc[d] > counts[d] * total && population * alloc[e] <= counts[e] * total ::
      || counts[d] * total % population > counts[e] * total % population
      || (counts[d] * total % population == counts[e] * total % population && Less(d, e))
  }

  lemma UpIffLucky(c: nat, total: nat, population: nat, lucky: bool)
    requires population > 0 && (lucky ==> Remainder(c, total, population) > 0)
    ensures lucky <==> population * (Base(c, total, population) + if lucky then 1 else 0) > c * total
  {
    var b, r := Base(c, total, population), Remainder(c, total, population);
    assert c * total == population * b + r;
    assert population * (b + 1) == population * b + population;
  }

  lemma LuckyAreLargest(counts: Counts, total: nat, population: nat, order: seq<Id>, lucky: set<Id>)
    requires population > 0 && Lucky(Remainders(counts, total, population), order, lucky)
    requires forall x :: x in order <==> x in counts
    requires forall i, j | 0 <= i < j < |order| :: Ahead(Remainders(counts, total, population), order[i], order[j])
    ensures LargestUp(counts, total, population, Allocated(counts, total, population, lucky))
  {
    var alloc := Allocated(counts, total, population, lucky);
    forall d, e | d in counts && e in counts
      && population * alloc[d] > counts[d] * total && population * alloc[e] <= counts[e] * total
      ensures Ahead(Remainders(counts, total, population), d, e)
    {
      assert d in lucky ==> Remainders(counts, total, population)[d] > 0;
      assert e in lucky ==> Remainders(counts, total, population)[e] > 0;
      UpIffLucky(counts[d], total, population, d in lucky);
      UpIffLucky(counts[e], total, population, e in lucky);
      var i :| 0 <= i < |order| && order[i] == d;
      var j :| 0 <= j < |order| && order[j] == e;
    }
  }

  lemma LeftoversAreFractional(counts: Counts, total: nat, population: nat, order: seq<Id>, remaining: int)
    requires population > 0 && population == Sum(counts)
    requires remaining == total - Sum(Bases(counts, total, population))
    requires forall d :: d in order <==> d in counts
    requires forall i, j | 0 <= i < j < |order| :: Ahead(Remainders(counts, total, population), order[i], order[j])
    ensures 0 <= remaining <= |order|
    ensures forall i | 0 <= i < remaining :: Remainders(counts, total, population)[order[i]] > 0
  {
    var rem := Remainders(counts, total, population);
    QuotasBalance(counts, total, population);
    RemaindersBounded(rem, population);
    LeftoverUnits(population, total, Sum(Bases(counts, total, population)), Sum(rem));
    if remaining > |order| { BonusesAreFractional(rem, order, population, remaining, |order|); }
    forall i | 0 <= i < remaining ensures rem[order[i]] > 0 {
      BonusesAreFractional(rem, order, population, remaining, i);
    }
  }

  /** The first `i` domains in rank order have had their unit. */
  ghost predicate BonusesGiven(counts: Counts, total: nat, population: nat, order: seq<Id>, i: nat,
                               alloc: map<Id, int>, lucky: set<Id>) {
    && population > 0 && i <= |order|
    && lucky == SetOf(order[..i]) && alloc == Allocated(counts, total, population, lucky)
    && Sum(alloc) == Sum(Bases(counts, total, population)) + i
  }

  lemma NoBonusYet(counts: Counts, total: nat, population: nat, order: seq<Id>)
    requires population > 0
    ensures BonusesGiven(counts, total, population, order, 0, Bases(counts, total, population), {})
  {
    assert Bases(counts, total, population) == Allocated(counts, total, population, {});
  }

  lemma BonusesAreLucky(rem: map<Id, int>, order: seq<Id>, n: nat)
    requires n <= |order| && (forall d :: d in order <==> d in rem)
    requires forall i, j | 0 <= i < j < |order| :: order[i] != order[j]
    requires forall i | 0 <= i < n :: rem[order[i]] > 0
    ensures Lucky(rem, order, SetOf(order[..n]))
  {
    forall d | d in SetOf(order[..n]) ensures d in rem && rem[d] > 0 {
      var i :| 0 <= i < n && order[i] == d;
    }
    LuckyPrefix(rem, order, n);
  }

  lemma NextBonus(counts: Counts, total: nat, population: nat, order: seq<Id>, i: nat, alloc: map<Id, int>,
                  lucky: set<Id>)
    requires BonusesGiven(counts, total, population, order, i, alloc, lucky) && i < |order| && order[i] in counts
    requires forall j, k | 0 <= j < k < |order| :: order[j] != order[k]
    ensures order[i] in alloc
    ensures BonusesGiven(counts, total, population, order, i + 1, alloc[order[i] := alloc[order[i]] + 1],
      lucky + {order[i]})
  {
    SetOfStep(order, i);
    GiveBonus(counts, total, population, lucky, order[i]);
  }

  /** The loop over the first `remaining` domains of the rank order. */
  method GiveBonuses(counts: Counts, ghost total: nat, ghost population: nat, ghost rem: map<Id, int>, order: seq<Id>,
                     bases: map<Id, int>, remaining: nat) returns (alloc: map<Id, int>, ghost lucky: set<Id>)
    requires population > 0 && rem == Remainders(counts, total, population) && bases == Bases(counts, total, population)
    requires (forall d :: d in order <==> d in rem) && forall i, j | 0 <= i < j < |order| :: order[i] != order[j]
    requires remaining <= |order| && forall i | 0 <= i < remaining :: rem[order[i]] > 0
    ensures alloc == Allocated(counts, total, population, lucky) && Lucky(rem, order, lucky)
    ensures Sum(alloc) == Sum(bases) + remaining
  {
    alloc, lucky := bases, {};
    NoBonusYet(counts, total, population, order);
    for i := 0 to remaining
      invariant BonusesGiven(counts, total, population, order, i, alloc, lucky)
    {
      assert order[i] in order;
      NextBonus(counts, total, population, order, i, alloc, lucky);
      alloc, lucky := alloc[order[i] := alloc[order[i]] + 1], lucky + {order[i]};
    }
    BonusesAreLucky(rem, order, remaining);
  }

  lemma SetOfStep(order: seq<Id>, i: nat)
    requires i < |order| && forall j, k | 0 <= j < k < |order| :: order[j] != order[k]
    ensures SetOf(order[..i + 1]) == SetOf(order[..i]) + {order[i]} && order[i] !in SetOf(order[..i])
  {
    assert order[..i + 1] == order[..i] + [order[i]];
  }

  lemma LuckyPrefix(rem: map<Id, int>, order: seq<Id>, n: nat)
    requires n <= |order| && forall j, k | 0 <= j < k < |order| :: order[j] != order[k]
    requires forall d | d in SetOf(order[..n]) :: d in rem && rem[d] > 0
    ensures Lucky(rem, order, SetOf(order[..n]))
  {
    forall i, j | 0 <= i < j < |order| && order[j] in SetOf(order[..n]) ensures order[i] in SetOf(order[..n]) {
      var k :| 0 <= k < n && order[..n][k] == order[j];
      assert k == j && order[..n][i] == order[i];
    }
  }
}
