/**
 Radii of frontier cells: the midrank percentile of the score over the whole population. Scores are
 the scaled integers of FrontierScore; a radius is kept exact, as its numerator over twice the population.
 */
module Midrank {
  import opened Bags

  /** How many scores lie above `v`. */
  function Above(scores: seq<int>, v: int): nat {
    if scores == [] then 0
    else Above(scores[..|scores| - 1], v) + if scores[|scores| - 1] > v then 1 else 0
  }

  function Equal(scores: seq<int>, v: int): nat {
    if scores == [] then 0
    else Equal(scores[..|scores| - 1], v) + if scores[|scores| - 1] == v then 1 else 0
  }

  lemma {:induction false} EqualPositive(scores: seq<int>, v: int)
    ensures Equal(scores, v) > 0 <==> v in scores
  {
    if scores != [] {
      assert scores == scores[..|scores| - 1] + [scores[|scores| - 1]];
      EqualPositive(scores[..|scores| - 1], v);
    }
  }

  /** Twice the midrank of `v`: the radius is this over `2 * |scores|`. */
  function Rank(scores: seq<int>, v: int): nat {
    2 * Above(scores, v) + Equal(scores, v)
  }

  function Radius(scores: seq<int>, v: int): real
    requires scores != []
  {
    Rank(scores, v) as real / (2 * |scores|) as real
  }

  // ---- the cumulative pass ------------------------------------------------------------------------

  ghost predicate IsGreatest(s: set<int>, m: int) {
    m in s && forall x | x in s :: x <= m
  }

  lemma SomeMember(s: set<int>)
    ensures s == {} || exists x :: x in s
  {
    if forall x :: x !in s { assert s == {}; }
  }

  lemma {:induction false} GreatestExists(s: set<int>)
    requires s != {}
    ensures exists m :: IsGreatest(s, m)
  {
    SomeMember(s);
    var x :| x in s;
    if s - {x} == {} {
      assert s == {x};
      assert IsGreatest(s, x);
    } else {
      GreatestExists(s - {x});
      var m :| IsGreatest(s - {x}, m);
      var g := if x < m then m else x;
      forall y | y in s ensures y <= g { assert y == x || y in s - {x}; }
      assert IsGreatest(s, g);
    }
  }

  /** Python's `sorted(..., reverse=True)` on distinct scores. */
  function Descending(s: set<int>): (r: seq<int>)
    ensures forall x :: x in r <==> x in s
    ensures forall i, j | 0 <= i < j < |r| :: r[i] > r[j]
  {
    if s == {} then [] else
      GreatestExists(s);
      var m :| m in s && forall x | x in s :: x <= m;
      var rest := Descending(s - {m});
      GreatestFirst(s, m, rest);
      [m] + rest
  }

  lemma GreatestFirst(s: set<int>, m: int, rest: seq<int>)
    requires m in s && forall x | x in s :: x <= m
    requires forall x :: x in rest <==> x in s - {m}
    requires forall i, j | 0 <= i < j < |rest| :: rest[i] > rest[j]
    ensures forall x :: x in [m] + rest <==> x in s
    ensures forall i, j | 0 <= i < j < |[m] + rest| :: ([m] + rest)[i] > ([m] + rest)[j]
  {
    forall i, j | 0 <= i < j < |[m] + rest| ensures ([m] + rest)[i] > ([m] + rest)[j] {
      assert rest[j - 1] in rest;
      assert i > 0 ==> rest[i - 1] > rest[j - 1];
    }
  }

  function CountIn(scores: seq<int>, s: set<int>): nat {
    if scores == [] then 0
    else CountIn(scores[..|scores| - 1], s) + if scores[|scores| - 1] in s then 1 else 0
  }

  lemma {:induction false} CountInGrows(scores: seq<int>, s: set<int>, v: int)
    requires v !in s
    ensures CountIn(scores, s + {v}) == CountIn(scores, s) + Equal(scores, v)
  {
    if scores != [] {
      assert scores == scores[..|scores| - 1] + [scores[|scores| - 1]];
      CountInGrows(scores[..|scores| - 1], s, v);
    }
  }

  lemma {:induction false} AboveIsCountIn(scores: seq<int>, s: set<int>, v: int)
    requires forall x | x in scores :: x in s <==> x > v
    ensures Above(scores, v) == CountIn(scores, s)
  {
    if scores != [] {
      assert scores == scores[..|scores| - 1] + [scores[|scores| - 1]];
      AboveIsCountIn(scores[..|scores| - 1], s, v);
    }
  }

  lemma {:induction false} NothingCounted(scores: seq<int>)
    ensures CountIn(scores, {}) == 0
  {
    if scores != [] { NothingCounted(scores[..|scores| - 1]); }
  }

  ghost function SetOf(s: seq<int>): set<int> { set x | x in s }

  lemma SetOfStep(order: seq<int>, k: nat)
    requires k < |order|
    ensures SetOf(order[..k + 1]) == SetOf(order[..k]) + {order[k]}
  {
    assert order[..k + 1] == order[..k] + [order[k]];
  }

  /** Walking down the distinct scores, the ones already passed are exactly the higher ones. */
  lemma SeenAreAbove(scores: seq<int>, order: seq<int>, k: nat)
    requires k < |order| && forall i, j | 0 <= i < j < |order| :: order[i] > order[j]
    requires forall x | x in scores :: x in order
    ensures order[k] !in SetOf(order[..k])
    ensures forall x | x in scores :: x in SetOf(order[..k]) <==> x > order[k]
  {
    forall x | x in scores ensures x in SetOf(order[..k]) <==> x > order[k] {
      var i :| 0 <= i < |order| && order[i] == x;
      assert i < k ==> order[..k][i] == x;
    }
  }

  method Tally(scores: seq<int>) returns (byScore: map<int, nat>)
    ensures forall v :: v in byScore <==> v in scores
    ensures forall v | v in byScore :: byScore[v] == Equal(scores, v)
  {
    byScore := map[];
    for i := 0 to |scores|
      invariant forall v :: v in byScore <==> v in scores[..i]
      invariant forall v | v in byScore :: byScore[v] == Equal(scores[..i], v)
    {
      assert scores[..i + 1] == scores[..i] + [scores[i]];
      var v := scores[i];
      assert scores[..i + 1][..i] == scores[..i];
      EqualPositive(scores[..i], v);
      byScore := byScore[v := (if v in byScore then byScore[v] else 0) + 1];
    }
    assert scores[..|scores|] == scores;
  }

  /** The state of the pass after `k` distinct scores: `acc` of the population lie at or above them. */
  ghost predicate Passed(scores: seq<int>, order: seq<int>, k: nat, acc: nat, higher: map<int, nat>)
    requires k <= |order|
  {
    && acc == CountIn(scores, SetOf(order[..k])) && higher.Keys == SetOf(order[..k])
    && forall v | v in higher :: higher[v] == Above(scores, v)
  }

  lemma PassStep(scores: seq<int>, order: seq<int>, k: nat, acc: nat, higher: map<int, nat>)
    requires k < |order| && Passed(scores, order, k, acc, higher)
    requires forall i, j | 0 <= i < j < |order| :: order[i] > order[j]
    requires forall x | x in scores :: x in order
    ensures Passed(scores, order, k + 1, acc + Equal(scores, order[k]), higher[order[k] := acc])
  {
    SeenAreAbove(scores, order, k);
    AboveIsCountIn(scores, SetOf(order[..k]), order[k]);
    CountInGrows(scores, SetOf(order[..k]), order[k]);
    SetOfStep(order, k);
  }

  /** The pass over the sorted distinct scores gives every score its exact rank. */
  method Ranks(scores: seq<int>) returns (rank: map<int, nat>)
    ensures forall v :: v in rank <==> v in scores
    ensures forall v | v in rank :: rank[v] == Rank(scores, v)
  {
    var byScore := Tally(scores);
    var order := Descending(byScore.Keys);
    var higher: map<int, nat> := map[];
    var acc := 0;
    NothingCounted(scores);
    assert SetOf(order[..0]) == {};
    for k := 0 to |order|
      invariant Passed(scores, order, k, acc, higher)
    {
      PassStep(scores, order, k, acc, higher);
      higher := higher[order[k] := acc];
      acc := acc + byScore[order[k]];
    }
    assert order[..|order|] == order;
    rank := map v | v in higher :: 2 * higher[v] + byScore[v];
  }

  // ---- what a rank means --------------------------------------------------------------------------

  lemma {:induction false} AboveAntitone(scores: seq<int>, u: int, v: int)
    requires u < v
    ensures Above(scores, v) + Equal(scores, v) <= Above(scores, u)
  {
    if scores != [] {
      assert scores == scores[..|scores| - 1] + [scores[|scores| - 1]];
      AboveAntitone(scores[..|scores| - 1], u, v);
    }
  }

  /** Radii reverse the order of scores strictly, and agree exactly on ties. */
  lemma RanksReverseScores(scores: seq<int>, u: int, v: int)
    requires u in scores && v in scores
    ensures u < v <==> Radius(scores, v) < Radius(scores, u)
    ensures u == v <==> Radius(scores, u) == Radius(scores, v)
  {
    EqualPositive(scores, u);
    EqualPositive(scores, v);
    if u < v { AboveAntitone(scores, u, v); }
    if v < u { AboveAntitone(scores, v, u); }
    ScaledOrder(Rank(scores, u) as real, Rank(scores, v) as real, (2 * |scores|) as real);
  }

  lemma ScaledOrder(a: real, b: real, n: real)
    requires n > 0.0
    ensures a / n < b / n <==> a < b
    ensures a / n == b / n <==> a == b
  {
    assert (a / n) * n == a && (b / n) * n == b;
  }

  function TotalRank(scores: seq<int>, over: seq<int>): nat {
    if over == [] then 0
    else TotalRank(scores, over[..|over| - 1]) + Rank(scores, over[|over| - 1])
  }

  /** What one score adds to another's rank. */
  function Duel(other: int, x: int): nat {
    if other > x then 2 else if other == x then 1 else 0
  }

  lemma RankStep(scores: seq<int>, y: int, x: int)
    ensures Rank(scores + [y], x) == Rank(scores, x) + Duel(y, x)
  {
    assert (scores + [y])[..|scores|] == scores;
  }

  /** A newcomer gains from each earlier score exactly what that score fails to gain from it. */
  lemma {:induction false} NewcomerBalances(scores: seq<int>, over: seq<int>, y: int)
    ensures TotalRank(scores + [y], over) + Rank(over, y) == TotalRank(scores, over) + 2 * |over|
  {
    if over != [] {
      var init, x := over[..|over| - 1], over[|over| - 1];
      assert over == init + [x];
      NewcomerBalances(scores, init, y);
      RankStep(scores, y, x);
      RankStep(init, x, y);
    }
  }

  lemma SquareStep(n: nat)
    ensures (n + 1) * (n + 1) == n * n + 2 * n + 1
  {
  }

  /** The radii average exactly one half: the ranks add up to the square of the population. */
  lemma {:induction false} RanksAverageOneHalf(scores: seq<int>)
    ensures TotalRank(scores, scores) == |scores| * |scores|
  {
    if scores != [] {
      var init, y := scores[..|scores| - 1], scores[|scores| - 1];
      assert scores == init + [y];
      RanksAverageOneHalf(init);
      NewcomerBalances(init, init, y);
      RankStep(init, y, y);
      SquareStep(|init|);
    }
  }

  /** Only the order of the scores matters: any strictly increasing rescaling keeps every rank. */
  lemma {:induction false} RescalingKeepsRanks(scores: seq<int>, scaled: seq<int>, x: int, y: int)
    requires |scores| == |scaled|
    requires forall i | 0 <= i < |scores| :: (scores[i] < x <==> scaled[i] < y) && (scores[i] == x <==> scaled[i] == y)
    ensures Rank(scores, x) == Rank(scaled, y)
  {
    if scores != [] {
      var n := |scores| - 1;
      assert scores == scores[..n] + [scores[n]] && scaled == scaled[..n] + [scaled[n]];
      RescalingKeepsRanks(scores[..n], scaled[..n], x, y);
      RankStep(scores[..n], scores[n], x);
      RankStep(scaled[..n], scaled[n], y);
    }
  }

  lemma {:induction false} CountsAreMultiplicities(scores: seq<int>, v: int)
    ensures Above(scores, v) == multiset(Mapped(x => x > v, scores))[true]
    ensures Equal(scores, v) == multiset(scores)[v]
  {
    if scores != [] {
      var init, last := scores[..|scores| - 1], scores[|scores| - 1];
      CountsAreMultiplicities(init, v);
      assert scores == init + [last];
      MappedConcat(x => x > v, init, [last]);
      assert Mapped(x => x > v, [last]) == [last > v];
    }
  }

  /** The validator collects the scores in area order; its recomputation agrees with the builder's. */
  lemma ValidatorAgrees(scores: seq<int>, collected: seq<int>, v: int)
    requires multiset(scores) == multiset(collected)
    ensures Rank(scores, v) == Rank(collected, v) && |scores| == |collected|
  {
    CountsAreMultiplicities(scores, v);
    CountsAreMultiplicities(collected, v);
    MappedReordering(x => x > v, scores, collected);
    assert |multiset(scores)| == |scores| && |multiset(collected)| == |collected|;
  }
}
