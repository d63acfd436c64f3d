/** Round-robin choice of traces and synapses under a cap, rarest kind first. */
module TraceSelection {
  import opened Ids
  import opened Sorting
  import opened Sums

  type Kind = Id

  function Size<T>(m: map<Kind, seq<T>>, k: Kind): nat { if k in m then |m[k]| else 0 }

  /** Rarest kind first, ties by name. */
  predicate Rarer(sizes: map<Kind, nat>, a: Kind, b: Kind) {
    var m, n := (if a in sizes then sizes[a] else 0), (if b in sizes then sizes[b] else 0);
    m < n || (m == n && Less(a, b))
  }

  lemma RarerIsTotal(sizes: map<Kind, nat>, s: set<Kind>)
    ensures StrictTotal(s, (a, b) => Rarer(sizes, a, b))
  {
    forall a | a in s ensures !Rarer(sizes, a, a) { LessIrreflexive(a); }
    forall a, b | a in s && b in s ensures a == b || Rarer(sizes, a, b) || Rarer(sizes, b, a) { LessTotal(a, b); }
    forall a, b, c | a in s && b in s && c in s && Rarer(sizes, a, b) && Rarer(sizes, b, c) ensures Rarer(sizes, a, c) {
      if Less(a, b) && Less(b, c) { LessTransitive(a, b, c); }
    }
  }

  function KindOrder<T>(groups: map<Kind, seq<T>>): (r: seq<Kind>)
    ensures |r| == |groups.Keys| && forall k :: k in r <==> k in groups
    ensures forall i, j | 0 <= i < j < |r| :: r[i] != r[j]
    ensures forall i, j | 0 <= i < j < |r| :: Size(groups, r[i]) <= Size(groups, r[j])
  {
    var sizes := map k | k in groups :: |groups[k]|;
    RarerIsTotal(sizes, groups.Keys);
    SortedBy(groups.Keys, (a, b) => Rarer(sizes, a, b))
  }

  lemma EqualsByName<T>(groups: map<Kind, seq<T>>, i: nat, j: nat)
    requires i < j < |KindOrder(groups)| && Size(groups, KindOrder(groups)[i]) == Size(groups, KindOrder(groups)[j])
    ensures Less(KindOrder(groups)[i], KindOrder(groups)[j])
  {
    var sizes := map k | k in groups :: |groups[k]|;
    RarerIsTotal(sizes, groups.Keys);
    assert Rarer(sizes, KindOrder(groups)[i], KindOrder(groups)[j]);
  }

  // ---- traces -------------------------------------------------------------------------------------

  datatype Trace = Trace(kind: Kind, body: Id)

  /** The traces of one kind, in order. */
  function Of(traces: seq<Trace>, k: Kind): seq<Trace> {
    if traces == [] then [] else
      var t := traces[|traces| - 1];
      Of(traces[..|traces| - 1], k) + if t.kind == k then [t] else []
  }

  lemma OfStep(traces: seq<Trace>, t: Trace, k: Kind)
    ensures Of(traces + [t], k) == if t.kind == k then Of(traces, k) + [t] else Of(traces, k)
  {
    assert (traces + [t])[..|traces|] == traces;
  }

  ghost function Lengths(groups: map<Kind, seq<Trace>>): map<Kind, int> {
    map k | k in groups :: |groups[k]|
  }

  ghost predicate FiledAt(traces: seq<Trace>, groups: map<Kind, seq<Trace>>, k: Kind) {
    if k in groups then groups[k] == Of(traces, k) && groups[k] != [] else Of(traces, k) == []
  }

  /** `groups` files `traces` by kind. */
  ghost predicate Filed(traces: seq<Trace>, groups: map<Kind, seq<Trace>>) {
    && (forall k {:trigger FiledAt(traces, groups, k)} :: FiledAt(traces, groups, k))
    && Sum(Lengths(groups)) == |traces|
  }

  function File(groups: map<Kind, seq<Trace>>, t: Trace): map<Kind, seq<Trace>> {
    groups[t.kind := (if t.kind in groups then groups[t.kind] else []) + [t]]
  }

  lemma FileAtStep(traces: seq<Trace>, groups: map<Kind, seq<Trace>>, t: Trace, k: Kind)
    requires FiledAt(traces, groups, k)
    ensures FiledAt(traces + [t], File(groups, t), k)
  {
    OfStep(traces, t, k);
  }

  lemma FileLengths(groups: map<Kind, seq<Trace>>, t: Trace)
    ensures Sum(Lengths(File(groups, t))) == Sum(Lengths(groups)) + 1
  {
    var n := Size(groups, t.kind) + 1;
    SumUpdate(Lengths(groups), t.kind, n);
    assert Lengths(File(groups, t)) == Lengths(groups)[t.kind := n];
  }

  lemma FileStep(traces: seq<Trace>, groups: map<Kind, seq<Trace>>, t: Trace)
    requires Filed(traces, groups)
    ensures Filed(traces + [t], File(groups, t))
  {
    FileLengths(groups, t);
    forall k ensures FiledAt(traces + [t], File(groups, t), k) {
      assert FiledAt(traces, groups, k);
      FileAtStep(traces, groups, t, k);
    }
  }

  method GroupByKind(traces: seq<Trace>) returns (groups: map<Kind, seq<Trace>>)
    ensures Filed(traces, groups)
  {
    groups := map[];
    assert Lengths(groups) == map[];
    assert forall k :: FiledAt([], groups, k);
    for i := 0 to |traces|
      invariant Filed(traces[..i], groups)
    {
      assert traces[..i + 1] == traces[..i] + [traces[i]];
      FileStep(traces[..i], groups, traces[i]);
      groups := File(groups, traces[i]);
    }
    assert traces[..|traces|] == traces;
  }

  function Least2(a: nat, b: nat): nat { if a < b then a else b }

  /** How many traces a kind of `n` has contributed after `level` full rounds and, if `extra`, a turn in the next. */
  function Share(n: nat, level: nat, extra: bool): nat {
    Least2(n, if extra then level + 1 else level)
  }

  /**
   The state of the round robin after `level` full rounds and the turns of the first `p` kinds: every
   kind has contributed a prefix of its own traces, of the length its share says, and the rest is left.
   */
  ghost predicate AtLevel(all: map<Kind, seq<Trace>>, order: seq<Kind>, level: nat, p: nat,
                          out: seq<Trace>, left: map<Kind, seq<Trace>>)
    requires (forall k :: k in order <==> k in all) && left.Keys == all.Keys
  {
    && p <= |order|
    && (forall i | 0 <= i < |order| ::
       Contributed(all[order[i]], order[i], Share(|all[order[i]]|, level, i < p), out, left[order[i]]))
    && (forall t | t in out :: t.kind in all)
  }

  ghost predicate Contributed(own: seq<Trace>, k: Kind, share: nat, out: seq<Trace>, left: seq<Trace>) {
    share <= |own| && Of(out, k) == own[..share] && left == own[share..]
  }

  /** A pending round robin over the kinds of `all`: nothing lost, and every kind where its turns put it. */
  ghost predicate Robin(all: map<Kind, seq<Trace>>, order: seq<Kind>, total: nat, level: nat, p: nat,
                        out: seq<Trace>, left: map<Kind, seq<Trace>>)
  {
    && Ordered(all, order) && left.Keys == all.Keys
    && |out| + Sum(Lengths(left)) == total
    && AtLevel(all, order, level, p, out, left)
  }

  ghost predicate Ordered(all: map<Kind, seq<Trace>>, order: seq<Kind>) {
    && (forall k :: k in order <==> k in all)
    && (forall i, j | 0 <= i < j < |order| :: order[i] != order[j])
    && (forall k, t | k in all && t in all[k] :: t.kind == k)
  }

  /** A finished round is the start of the next. */
  lemma RoundOver(all: map<Kind, seq<Trace>>, order: seq<Kind>, total: nat, level: nat, out: seq<Trace>,
                  left: map<Kind, seq<Trace>>)
    requires Robin(all, order, total, level, |order|, out, left)
    ensures Robin(all, order, total, level + 1, 0, out, left)
  {
    forall i | 0 <= i < |order|
      ensures Contributed(all[order[i]], order[i], Share(|all[order[i]]|, level + 1, i < 0), out, left[order[i]])
    {
      assert Contributed(all[order[i]], order[i], Share(|all[order[i]]|, level, i < |order|), out, left[order[i]]);
    }
  }

  ghost method NextRound(all: map<Kind, seq<Trace>>, order: seq<Kind>, total: nat, level: nat, p: nat,
                         out: seq<Trace>, left: map<Kind, seq<Trace>>)
    returns (level': nat, p': nat)
    requires Robin(all, order, total, level, p, out, left)
    ensures Robin(all, order, total, level', p', out, left) && (p' == 0 || p' == p < |order|)
    ensures Before(out, order, level, p) ==> Before(out, order, level', p')
  {
    level', p' := level, p;
    if p == |order| {
      RoundOver(all, order, total, level, out, left);
      level', p' := level + 1, 0;
    }
  }

  /** A kind with nothing left keeps its contribution. */
  lemma IdleTurn(all: map<Kind, seq<Trace>>, order: seq<Kind>, total: nat, level: nat, p: nat, out: seq<Trace>,
                 left: map<Kind, seq<Trace>>)
    requires Robin(all, order, total, level, p, out, left) && p < |order| && left[order[p]] == []
    ensures Robin(all, order, total, level, p + 1, out, left)
  {
    assert Contributed(all[order[p]], order[p], Share(|all[order[p]]|, level, p < p), out, left[order[p]]);
    forall i | 0 <= i < |order|
      ensures Contributed(all[order[i]], order[i], Share(|all[order[i]]|, level, i < p + 1), out, left[order[i]])
    {
      assert Contributed(all[order[i]], order[i], Share(|all[order[i]]|, level, i < p), out, left[order[i]]);
    }
  }

  lemma TurnLengths(left: map<Kind, seq<Trace>>, k: Kind)
    requires k in left && left[k] != []
    ensures Sum(Lengths(left[k := left[k][1..]])) == Sum(Lengths(left)) - 1
  {
    SumUpdate(Lengths(left), k, |left[k]| - 1);
    assert Lengths(left[k := left[k][1..]]) == Lengths(left)[k := |left[k]| - 1];
  }

  lemma OwnTurn(own: seq<Trace>, k: Kind, share: nat, out: seq<Trace>, left: seq<Trace>)
    requires Contributed(own, k, share, out, left) && left != [] && left[0].kind == k
    ensures Contributed(own, k, share + 1, out + [left[0]], left[1..])
  {
    OfStep(out, left[0], k);
    assert own[..share + 1] == own[..share] + [own[share]];
  }

  lemma OthersTurn(own: seq<Trace>, k: Kind, share: nat, out: seq<Trace>, left: seq<Trace>, t: Trace)
    requires Contributed(own, k, share, out, left) && t.kind != k
    ensures Contributed(own, k, share, out + [t], left)
  {
    OfStep(out, t, k);
  }

  lemma TurnAtLevel(all: map<Kind, seq<Trace>>, order: seq<Kind>, level: nat, p: nat, out: seq<Trace>,
                    left: map<Kind, seq<Trace>>)
    requires Ordered(all, order) && left.Keys == all.Keys && AtLevel(all, order, level, p, out, left)
    requires p < |order| && left[order[p]] != []
    ensures AtLevel(all, order, level, p + 1, out + [left[order[p]][0]], left[order[p] := left[order[p]][1..]])
  {
    var k := order[p];
    var t, rest := left[k][0], left[k][1..];
    assert Contributed(all[k], k, Share(|all[k]|, level, p < p), out, left[k]);
    assert t in all[k];
    var left' := left[k := rest];
    forall i | 0 <= i < |order|
      ensures Contributed(all[order[i]], order[i], Share(|all[order[i]]|, level, i < p + 1), out + [t], left'[order[i]])
    {
      assert Contributed(all[order[i]], order[i], Share(|all[order[i]]|, level, i < p), out, left[order[i]]);
      if i == p {
        OwnTurn(all[k], k, Share(|all[k]|, level, false), out, left[k]);
      } else {
        OthersTurn(all[order[i]], order[i], Share(|all[order[i]]|, level, i < p), out, left[order[i]], t);
      }
    }
  }

  /** A kind with traces left contributes its next one. */
  lemma Turn(all: map<Kind, seq<Trace>>, order: seq<Kind>, total: nat, level: nat, p: nat, out: seq<Trace>,
             left: map<Kind, seq<Trace>>)
    requires Robin(all, order, total, level, p, out, left) && p < |order| && left[order[p]] != []
    ensures Robin(all, order, total, level, p + 1, out + [left[order[p]][0]], left[order[p] := left[order[p]][1..]])
  {
    TurnLengths(left, order[p]);
    TurnAtLevel(all, order, level, p, out, left);
  }

  lemma {:induction false} OfMembers(traces: seq<Trace>, k: Kind)
    ensures forall t | t in Of(traces, k) :: t in traces && t.kind == k
  {
    if traces != [] { OfMembers(traces[..|traces| - 1], k); }
  }

  // ---- in which order the turns come -----------------------------------------------------------------------------

  /** Entry `i` was picked at the turn of kind `order[r]` in round `n`: it is that kind's `n`-th, counting from 0. */
  ghost predicate PickedAt(out: seq<Trace>, order: seq<Kind>, i: int, n: int, r: int) {
    0 <= i < |out| && 0 <= r < |order| && out[i].kind == order[r] && n == |Of(out[..i], order[r])|
  }

  /** Round by round, and within a round kind by kind. */
  ghost predicate InTurn(out: seq<Trace>, order: seq<Kind>) {
    forall i, j, m, n, r, s | 0 <= i < j && PickedAt(out, order, i, m, r) && PickedAt(out, order, j, n, s) ::
      m < n || (m == n && r < s)
  }

  /** All turns so far came before the turn of kind `p` in round `level`. */
  ghost predicate Before(out: seq<Trace>, order: seq<Kind>, level: nat, p: nat) {
    forall i, n, r | PickedAt(out, order, i, n, r) :: n < level || (n == level && r < p)
  }

  lemma PickedBefore(out: seq<Trace>, t: Trace, order: seq<Kind>, i: int, n: int, r: int)
    requires 0 <= i < |out|
    ensures PickedAt(out + [t], order, i, n, r) <==> PickedAt(out, order, i, n, r)
  {
    assert (out + [t])[..i] == out[..i];
  }

  lemma PickedLast(out: seq<Trace>, t: Trace, order: seq<Kind>, n: int, r: int)
    ensures PickedAt(out + [t], order, |out|, n, r) <==>
      0 <= r < |order| && t.kind == order[r] && n == |Of(out, order[r])|
  {
    assert (out + [t])[..|out|] == out;
  }

  /** The next turn's trace goes behind all others. */
  lemma NextInTurn(out: seq<Trace>, t: Trace, order: seq<Kind>, level: nat, p: nat)
    requires InTurn(out, order) && Before(out, order, level, p)
    requires p < |order| && t.kind == order[p] && |Of(out, order[p])| == level
    requires forall i, j | 0 <= i < j < |order| :: order[i] != order[j]
    ensures InTurn(out + [t], order) && Before(out + [t], order, level, p + 1)
  {
    forall i, n, r | PickedAt(out + [t], order, i, n, r) ensures n < level || (n == level && r < p + 1) {
      if i < |out| { PickedBefore(out, t, order, i, n, r); } else { PickedLast(out, t, order, n, r); }
    }
    forall i, j, m, n, r, s | 0 <= i < j && PickedAt(out + [t], order, i, m, r) && PickedAt(out + [t], order, j, n, s)
      ensures m < n || (m == n && r < s)
    {
      PickedBefore(out, t, order, i, m, r);
      if j < |out| { PickedBefore(out, t, order, j, n, s); } else { PickedLast(out, t, order, n, s); }
    }
  }

  lemma TurnCount(all: map<Kind, seq<Trace>>, order: seq<Kind>, total: nat, level: nat, p: nat, out: seq<Trace>,
                  left: map<Kind, seq<Trace>>)
    requires Robin(all, order, total, level, p, out, left) && p < |order| && left[order[p]] != []
    ensures |Of(out, order[p])| == level && left[order[p]][0].kind == order[p]
  {
    var k := order[p];
    assert Contributed(all[k], k, Share(|all[k]|, level, p < p), out, left[k]);
    assert left[k][0] in all[k];
  }

  lemma FullTurn(all: map<Kind, seq<Trace>>, order: seq<Kind>, total: nat, level: nat, p: nat, out: seq<Trace>,
                 left: map<Kind, seq<Trace>>)
    requires Robin(all, order, total, level, p, out, left) && p < |order| && left[order[p]] != []
    requires InTurn(out, order) && Before(out, order, level, p)
    ensures var now := out + [left[order[p]][0]];
      && Robin(all, order, total, level, p + 1, now, left[order[p] := left[order[p]][1..]])
      && InTurn(now, order) && Before(now, order, level, p + 1)
  {
    TurnCount(all, order, total, level, p, out, left);
    NextInTurn(out, left[order[p]][0], order, level, p);
    Turn(all, order, total, level, p, out, left);
  }

  /** One pass over the kinds; after the cap is reached nobody else gets a turn. */
  method Round(ghost all: map<Kind, seq<Trace>>, order: seq<Kind>, cap: nat, out0: seq<Trace>,
               left0: map<Kind, seq<Trace>>,
               ghost level: nat, ghost total: nat)
    returns (out: seq<Trace>, left: map<Kind, seq<Trace>>, progressed: bool, ghost p: nat)
    requires Robin(all, order, total, level, 0, out0, left0) && |out0| < cap
    requires InTurn(out0, order) && Before(out0, order, level, 0)
    ensures InTurn(out, order) && Before(out, order, level, p)
    ensures Robin(all, order, total, level, p, out, left) && |out| <= cap && (p == |order| || |out| == cap)
    ensures progressed <==> |out| > |out0|
    ensures !progressed ==> |out| == |out0| && forall i | 0 <= i < |order| :: order[i] in left && left[order[i]] == []
  {
    out, left, progressed, p := out0, left0, false, 0;
    for q := 0 to |order|
      invariant p <= q && Robin(all, order, total, level, p, out, left) && |out| <= cap && (p == q || |out| == cap)
      invariant InTurn(out, order) && Before(out, order, level, p)
      invariant |out0| <= |out| && (progressed <==> |out| > |out0|)
      invariant !progressed ==> p == q && forall i | 0 <= i < q :: order[i] in left && left[order[i]] == []
    {
      var k := order[q];
      if left[k] != [] && |out| < cap {
        FullTurn(all, order, total, level, q, out, left);
        out, left, progressed := out + [left[k][0]], left[k := left[k][1..]], true;
        p := q + 1;
      } else if |out| < cap {
        IdleTurn(all, order, total, level, q, out, left);
        p := q + 1;
      }
    }
  }

  /** What the picked traces are: prefixes of each kind's own traces, all cut at one level. */
  ghost predicate Fair(traces: seq<Trace>, out: seq<Trace>, order: seq<Kind>, level: nat, p: nat) {
    && (forall k :: k in order <==> Of(traces, k) != [])
    && (forall i, j | 0 <= i < j < |order| :: order[i] != order[j] && |Of(traces, order[i])| <= |Of(traces, order[j])|)
    && (forall i | 0 <= i < |order| ::
       Of(out, order[i]) == Prefix(Of(traces, order[i]), Share(|Of(traces, order[i])|, level, i < p)))
    && (forall t | t in out :: t.kind in order)
  }

  function Prefix(s: seq<Trace>, n: nat): seq<Trace> { if n <= |s| then s[..n] else s }

  /**
   `pick_traces`: as many traces as the cap allows; each kind contributes a prefix of its own traces, and
   one level bounds all the prefixes, the first `p` (rarest) kinds being one turn ahead of the others.
   */
  method PickTraces(traces: seq<Trace>, cap: nat)
    returns (out: seq<Trace>, ghost order: seq<Kind>, ghost level: nat, ghost p: nat)
    ensures |out| == Least2(cap, |traces|)
    ensures Fair(traces, out, order, level, p)
    ensures TiesByName(traces, order) && InTurn(out, order)
  {
    var all := GroupByKind(traces);
    var kinds := KindOrder(all);
    StartRobin(traces, all, kinds);
    order, level, p := kinds, 0, 0;
    var left := all;
    out := [];
    while |out| < cap && (exists k :: k in left && left[k] != [])
      invariant Robin(all, kinds, |traces|, level, p, out, left) && |out| <= cap && (p == 0 || |out| == cap)
      invariant InTurn(out, kinds) && Before(out, kinds, level, p)
      decreases cap - |out|
    {
      var progressed;
      out, left, progressed, p := Round(all, kinds, cap, out, left, level, |traces|);
      level, p := NextRound(all, kinds, |traces|, level, p, out, left);
      if !progressed {
        break;
      }
    }
    FinishRobin(traces, all, kinds, level, p, out, left);
    FinishCount(traces, all, kinds, level, p, out, left);
    KindsTieByName(traces, all);
  }

  /** Kinds with as many traces go by name. */
  ghost predicate TiesByName(traces: seq<Trace>, order: seq<Kind>) {
    forall i, j | 0 <= i < j < |order| && |Of(traces, order[i])| == |Of(traces, order[j])| :: Less(order[i], order[j])
  }

  lemma KindsTieByName(traces: seq<Trace>, all: map<Kind, seq<Trace>>)
    requires Filed(traces, all)
    ensures TiesByName(traces, KindOrder(all))
  {
    var order := KindOrder(all);
    forall i, j | 0 <= i < j < |order| && |Of(traces, order[i])| == |Of(traces, order[j])|
      ensures Less(order[i], order[j])
    {
      EqualKindsByName(traces, all, i, j);
    }
  }

  lemma EqualKindsByName(traces: seq<Trace>, all: map<Kind, seq<Trace>>, i: nat, j: nat)
    requires Filed(traces, all) && i < j < |KindOrder(all)|
    requires |Of(traces, KindOrder(all)[i])| == |Of(traces, KindOrder(all)[j])|
    ensures Less(KindOrder(all)[i], KindOrder(all)[j])
  {
    KindFiled(traces, all, KindOrder(all)[i]);
    KindFiled(traces, all, KindOrder(all)[j]);
    EqualsByName(all, i, j);
  }

  lemma StartRobin(traces: seq<Trace>, all: map<Kind, seq<Trace>>, order: seq<Kind>)
    requires Filed(traces, all)
    requires (forall k :: k in order <==> k in all) && forall i, j | 0 <= i < j < |order| :: order[i] != order[j]
    ensures Robin(all, order, |traces|, 0, 0, [], all)
  {
    forall k, t: Trace | k in all && t in all[k] ensures t.kind == k {
      assert FiledAt(traces, all, k);
      OfMembers(traces, k);
    }
    forall i | 0 <= i < |order|
      ensures Contributed(all[order[i]], order[i], Share(|all[order[i]]|, 0, i < 0), [], all[order[i]])
    {
    }
  }

  lemma FinishRobin(traces: seq<Trace>, all: map<Kind, seq<Trace>>, order: seq<Kind>, level: nat, p: nat,
                    out: seq<Trace>, left: map<Kind, seq<Trace>>)
    requires Filed(traces, all) && Robin(all, order, |traces|, level, p, out, left)
    requires forall i, j | 0 <= i < j < |order| :: Size(all, order[i]) <= Size(all, order[j])
    ensures Fair(traces, out, order, level, p)
  {
    forall k ensures k in order ==> Size(all, k) == |Of(traces, k)|
      ensures k in order <==> Of(traces, k) != []
    {
      KindFiled(traces, all, k);
    }
    forall i | 0 <= i < |order|
      ensures Of(out, order[i]) == Prefix(Of(traces, order[i]), Share(|Of(traces, order[i])|, level, i < p))
    {
      KindFiled(traces, all, order[i]);
      KindCut(all[order[i]], order[i], Share(|all[order[i]]|, level, i < p), out, left[order[i]]);
    }
  }

  lemma KindFiled(traces: seq<Trace>, all: map<Kind, seq<Trace>>, k: Kind)
    requires Filed(traces, all)
    ensures k in all <==> Of(traces, k) != []
    ensures k in all ==> all[k] == Of(traces, k)
  {
    assert FiledAt(traces, all, k);
  }

  lemma KindCut(own: seq<Trace>, k: Kind, share: nat, out: seq<Trace>, left: seq<Trace>)
    requires Contributed(own, k, share, out, left)
    ensures Of(out, k) == Prefix(own, share)
  {
  }

  lemma FinishCount(traces: seq<Trace>, all: map<Kind, seq<Trace>>, order: seq<Kind>, level: nat, p: nat,
                    out: seq<Trace>, left: map<Kind, seq<Trace>>)
    requires Robin(all, order, |traces|, level, p, out, left)
    ensures |out| <= |traces|
    ensures (forall k | k in left :: left[k] == []) ==> |out| == |traces|
  {
    SumNonNegative(Lengths(left));
    if forall k | k in left :: left[k] == [] { SumZero(Lengths(left)); }
  }
}
