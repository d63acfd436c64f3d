/**
 Acquiring Wikidata entities in batches. A batch the server refuses with `no-such-entity` is split in
 two until the missing entities stand alone; transcript and result map are shared by all requests.
 */
module EntityBisection {
  import opened Options
  import opened Ids

  type Qid = Id

  /** A normalised answer: the entity resolved to, with the fields kept from it, or a missing marker. */
  datatype Answer = Missing | Found(resolved: Qid, fields: string)

  /** An entity row of a success payload. */
  datatype Row = MissingRow(id: Qid) | EntityRow(id: Qid, redirect: Option<(Qid, Qid)>, fields: string)

  /** A response body after JSON parsing; `Malformed` stands for every shape the parser rejects. */
  datatype Response =
    | Malformed
    | NoSuchEntity(cited: set<Qid>)
    | OtherError
    | Success(entities: map<Qid, Row>, redirects: seq<(Qid, Qid)>)

  // ---- normalising a success payload ------------------------------------------------------------------

  type Redirects = map<Qid, Qid>

  /** The end of a redirect chain, or nothing when it runs into a cycle. */
  function Chase(redirects: Redirects, top: Qid, seen: set<Qid>): Option<Qid>
    requires seen <= redirects.Keys
    decreases redirects.Keys - seen
  {
    if top !in redirects then Some(top)
    else if top in seen then None
    else
      assert redirects.Keys - (seen + {top}) < redirects.Keys - seen;
      Chase(redirects, redirects[top], seen + {top})
  }

  /** The redirect sources a chain passes. */
  function Passed(redirects: Redirects, top: Qid, seen: set<Qid>): set<Qid>
    requires seen <= redirects.Keys
    decreases redirects.Keys - seen
  {
    if top !in redirects || top in seen then {}
    else
      assert redirects.Keys - (seen + {top}) < redirects.Keys - seen;
      {top} + Passed(redirects, redirects[top], seen + {top})
  }

  /** The row that answers a request: keyed by the request or by the end of its chain, not both. */
  function RowKey(entities: map<Qid, Row>, requested: Qid, resolved: Qid): Option<Qid> {
    if requested in entities && resolved in entities && requested != resolved then None
    else if requested in entities then Some(requested)
    else if resolved in entities then Some(resolved)
    else None
  }

  function RowAnswer(row: Row, requested: Qid, resolved: Qid): Option<Answer> {
    match row
    case MissingRow(id) => if id == requested && resolved == requested then Some(Missing) else None
    case EntityRow(id, redirect, fields) =>
      if id != requested && redirect != Some((requested, id)) then None
      else if id == requested && redirect != None then None
      else if resolved != requested && id != resolved then None
      else Some(Found(id, fields))
  }

  function AnswerTo(entities: map<Qid, Row>, redirects: Redirects, requested: Qid): Option<(Qid, Answer)> {
    match Chase(redirects, requested, {})
    case None => None
    case Some(resolved) =>
      match RowKey(entities, requested, resolved)
      case None => None
      case Some(key) =>
        match RowAnswer(entities[key], requested, resolved)
        case None => None
        case Some(a) => Some((key, a))
  }

  predicate DistinctSources(rows: seq<(Qid, Qid)>) {
    forall i, j | 0 <= i < j < |rows| :: rows[i].0 != rows[j].0
  }

  function RedirectMap(rows: seq<(Qid, Qid)>): Redirects {
    if rows == [] then map[] else
      var last := rows[|rows| - 1];
      RedirectMap(rows[..|rows| - 1])[last.0 := last.1]
  }

  /** Every request is answered, and every redirect and entity row is used by some request. */
  ghost predicate Normal(entities: map<Qid, Row>, rows: seq<(Qid, Qid)>, qids: seq<Qid>) {
    var redirects := RedirectMap(rows);
    && DistinctSources(rows)
    && AllAnswerable(entities, redirects, qids)
    && redirects.Keys == UsedRedirects(redirects, qids)
    && entities.Keys == UsedKeys(entities, redirects, qids)
  }

  ghost predicate AllAnswerable(entities: map<Qid, Row>, redirects: Redirects, qids: seq<Qid>) {
    forall q | q in qids :: AnswerTo(entities, redirects, q).Some?
  }

  ghost function UsedRedirects(redirects: Redirects, qids: seq<Qid>): set<Qid> {
    set q, r | q in qids && r in Passed(redirects, q, {}) :: r
  }

  function KeyFor(entities: map<Qid, Row>, redirects: Redirects, q: Qid): set<Qid> {
    match AnswerTo(entities, redirects, q) case Some(a) => {a.0} case None => {}
  }

  ghost function UsedKeys(entities: map<Qid, Row>, redirects: Redirects, qids: seq<Qid>): set<Qid> {
    set q, k | q in qids && k in KeyFor(entities, redirects, q) :: k
  }

  ghost function Answers(entities: map<Qid, Row>, rows: seq<(Qid, Qid)>, qids: seq<Qid>): map<Qid, Answer>
    requires forall q | q in qids :: AnswerTo(entities, RedirectMap(rows), q).Some?
  {
    map q | q in qids :: AnswerTo(entities, RedirectMap(rows), q).value.1
  }

  ghost function Normalized(entities: map<Qid, Row>, rows: seq<(Qid, Qid)>, qids: seq<Qid>): Option<map<Qid, Answer>> {
    if Normal(entities, rows, qids) then Some(Answers(entities, rows, qids)) else None
  }

  /** The redirect loop of the normaliser, with its record of the sources it used. */
  method ChaseLoop(redirects: Redirects, requested: Qid) returns (resolved: Option<Qid>, used: set<Qid>)
    ensures resolved == Chase(redirects, requested, {})
    ensures resolved.Some? ==> used == Passed(redirects, requested, {})
  {
    var top := requested;
    var seen: set<Qid> := {};
    while top in redirects
      invariant seen <= redirects.Keys
      invariant Chase(redirects, top, seen) == Chase(redirects, requested, {})
      invariant seen + Passed(redirects, top, seen) == Passed(redirects, requested, {})
      decreases redirects.Keys - seen
    {
      if top in seen {
        return None, seen;
      }
      assert redirects.Keys - (seen + {top}) < redirects.Keys - seen;
      seen := seen + {top};
      top := redirects[top];
    }
    return Some(top), seen;
  }

  method CollectRedirects(rows: seq<(Qid, Qid)>) returns (ok: bool, redirects: Redirects)
    ensures ok <==> DistinctSources(rows)
    ensures ok ==> redirects == RedirectMap(rows)
  {
    redirects := map[];
    for i := 0 to |rows|
      invariant DistinctSources(rows[..i]) && redirects == RedirectMap(rows[..i])
      invariant forall x :: x in redirects <==> exists j :: 0 <= j < i && rows[j].0 == x
    {
      assert rows[..i + 1][..i] == rows[..i];
      if rows[i].0 in redirects {
        return false, redirects;
      }
      redirects := redirects[rows[i].0 := rows[i].1];
    }
    assert rows[..|rows|] == rows;
    ok := true;
  }

  /** The normaliser's three tables after the first `i` requests. */
  ghost predicate AnsweredTo(entities: map<Qid, Row>, redirects: Redirects, qids: seq<Qid>, i: nat,
                             output: map<Qid, Answer>, usedRedirects: set<Qid>, usedKeys: set<Qid>)
  {
    && i <= |qids| && Answered(entities, redirects, qids[..i], output)
    && usedRedirects == UsedRedirects(redirects, qids[..i])
    && usedKeys == UsedKeys(entities, redirects, qids[..i])
  }

  lemma NextAnswer(entities: map<Qid, Row>, redirects: Redirects, qids: seq<Qid>, i: nat,
                   output: map<Qid, Answer>, usedRedirects: set<Qid>, usedKeys: set<Qid>)
    requires AnsweredTo(entities, redirects, qids, i, output, usedRedirects, usedKeys) && i < |qids|
    requires AnswerTo(entities, redirects, qids[i]).Some?
    ensures var q, a := qids[i], AnswerTo(entities, redirects, qids[i]).value;
      AnsweredTo(entities, redirects, qids, i + 1, output[q := a.1], usedRedirects + Passed(redirects, q, {}),
        usedKeys + {a.0})
  {
    UsedStep(entities, redirects, qids, i);
  }

  lemma AllAnswered(entities: map<Qid, Row>, redirects: Redirects, qids: seq<Qid>,
                    output: map<Qid, Answer>, usedRedirects: set<Qid>, usedKeys: set<Qid>)
    requires AnsweredTo(entities, redirects, qids, |qids|, output, usedRedirects, usedKeys)
    ensures Answered(entities, redirects, qids, output)
    ensures usedRedirects == UsedRedirects(redirects, qids) && usedKeys == UsedKeys(entities, redirects, qids)
  {
    assert qids[..|qids|] == qids;
  }

  // ---- what a payload tells about a request -----------------------------------------------------------

  ghost predicate IsSource(rows: seq<(Qid, Qid)>, q: Qid) { exists i :: 0 <= i < |rows| && rows[i].0 == q }

  /** `n` redirect rows lead from `q` to `e`. */
  ghost predicate Leads(rows: seq<(Qid, Qid)>, q: Qid, e: Qid, n: nat)
    decreases n
  {
    if n == 0 then q == e else exists i :: 0 <= i < |rows| && rows[i].0 == q && Leads(rows, rows[i].1, e, n - 1)
  }

  ghost predicate OnChain(rows: seq<(Qid, Qid)>, q: Qid, e: Qid) { exists n: nat :: Leads(rows, q, e, n) }

  ghost predicate EndsAt(rows: seq<(Qid, Qid)>, q: Qid, e: Qid) { OnChain(rows, q, e) && !IsSource(rows, e) }

  /**
   The payload answers `q` with `a`, by the row under `key`: the only one of the rows under `q` and under the end of
   its chain. A missing row is for a request without redirects; an entity under another id says that it redirects
   `q`, and is the end of the chain if there is one.
   */
  ghost predicate Tells(entities: map<Qid, Row>, rows: seq<(Qid, Qid)>, q: Qid, key: Qid, a: Answer) {
    exists e :: EndsAt(rows, q, e) && TellsAtEnd(entities, q, e, key, a)
  }

  ghost predicate TellsAtEnd(entities: map<Qid, Row>, q: Qid, e: Qid, key: Qid, a: Answer) {
    && key in entities && (key == q || key == e) && (q in entities && e in entities ==> q == e)
    && match a
       case Missing => entities[key] == MissingRow(q) && e == q
       case Found(id, fields) =>
         && entities[key] == EntityRow(id, if id == q then None else Some((q, id)), fields)
         && (e != q ==> id == e)
  }

  lemma {:induction false} RedirectMapHas(rows: seq<(Qid, Qid)>)
    requires DistinctSources(rows)
    ensures forall q :: q in RedirectMap(rows) <==> IsSource(rows, q)
    ensures forall i | 0 <= i < |rows| :: rows[i].0 in RedirectMap(rows) && RedirectMap(rows)[rows[i].0] == rows[i].1
  {
    if rows != [] {
      var init := rows[..|rows| - 1];
      RedirectMapHas(init);
      forall q ensures IsSource(rows, q) <==> IsSource(init, q) || q == rows[|rows| - 1].0 {
        if IsSource(init, q) {
          var i :| 0 <= i < |init| && init[i].0 == q;
          assert rows[i].0 == q;
        }
        if q == rows[|rows| - 1].0 { assert rows[|rows| - 1].0 == q; }
      }
      forall i | 0 <= i < |rows| - 1 ensures rows[i].0 in RedirectMap(init) && rows[i].0 != rows[|rows| - 1].0 {
        assert init[i] == rows[i];
      }
    }
  }

  lemma SourceLeadsOn(rows: seq<(Qid, Qid)>, q: Qid, e: Qid, n: nat)
    requires DistinctSources(rows) && q in RedirectMap(rows)
    ensures Leads(rows, RedirectMap(rows)[q], e, n) <==> Leads(rows, q, e, n + 1)
  {
    RedirectMapHas(rows);
    var i :| 0 <= i < |rows| && rows[i].0 == q;
    assert RedirectMap(rows)[q] == rows[i].1;
  }

  /** The walk ends where the rows lead, and passes exactly the sources on the way. */
  lemma {:induction false} ChaseFollowsRows(rows: seq<(Qid, Qid)>, top: Qid, seen: set<Qid>)
    requires DistinctSources(rows) && seen <= RedirectMap(rows).Keys && Chase(RedirectMap(rows), top, seen).Some?
    ensures EndsAt(rows, top, Chase(RedirectMap(rows), top, seen).value)
    ensures forall x :: x in Passed(RedirectMap(rows), top, seen) <==> OnChain(rows, top, x) && IsSource(rows, x)
    decreases RedirectMap(rows).Keys - seen
  {
    var redirects := RedirectMap(rows);
    RedirectMapHas(rows);
    assert Leads(rows, top, top, 0);
    if top !in redirects {
      forall x | OnChain(rows, top, x) ensures x == top {
        var n: nat :| Leads(rows, top, x, n);
      }
    } else {
      assert redirects.Keys - (seen + {top}) < redirects.Keys - seen;
      ChaseFollowsRows(rows, redirects[top], seen + {top});
      ChainUnfolds(rows, top);
    }
  }

  lemma ChainUnfolds(rows: seq<(Qid, Qid)>, q: Qid)
    requires DistinctSources(rows) && q in RedirectMap(rows)
    ensures forall x :: OnChain(rows, q, x) <==> x == q || OnChain(rows, RedirectMap(rows)[q], x)
  {
    var next := RedirectMap(rows)[q];
    assert Leads(rows, q, q, 0);
    forall x ensures OnChain(rows, q, x) <==> x == q || OnChain(rows, next, x) {
      if x != q { ChainUnfoldsAt(rows, q, x); }
    }
  }

  lemma ChainUnfoldsAt(rows: seq<(Qid, Qid)>, q: Qid, x: Qid)
    requires DistinctSources(rows) && q in RedirectMap(rows) && x != q
    ensures OnChain(rows, q, x) <==> OnChain(rows, RedirectMap(rows)[q], x)
  {
    var next := RedirectMap(rows)[q];
    if OnChain(rows, next, x) {
      var n: nat :| Leads(rows, next, x, n);
      SourceLeadsOn(rows, q, x, n);
    }
    if OnChain(rows, q, x) {
      var n: nat :| Leads(rows, q, x, n);
      SourceLeadsOn(rows, q, x, n - 1);
    }
  }

  /** A chain has one end, so many steps away. */
  lemma {:induction false} EndIsUnique(rows: seq<(Qid, Qid)>, q: Qid, d: Qid, e: Qid, m: nat, n: nat)
    requires DistinctSources(rows) && Leads(rows, q, d, m) && Leads(rows, q, e, n)
    requires !IsSource(rows, d) && !IsSource(rows, e)
    ensures d == e && m == n
    decreases m
  {
    if m > 0 && n > 0 {
      var i :| 0 <= i < |rows| && rows[i].0 == q && Leads(rows, rows[i].1, d, m - 1);
      var j :| 0 <= j < |rows| && rows[j].0 == q && Leads(rows, rows[j].1, e, n - 1);
      assert i == j;
      EndIsUnique(rows, rows[i].1, d, e, m - 1, n - 1);
    }
  }

  ghost predicate Farther(rows: seq<(Qid, Qid)>, s: Qid, e: Qid, n: nat) {
    exists m: nat :: m > n && Leads(rows, s, e, m)
  }

  /** Where the rows lead to an end the walk finds it: nothing is seen twice, as the end comes nearer all the time. */
  lemma {:induction false} ChaseFindsEnd(rows: seq<(Qid, Qid)>, top: Qid, seen: set<Qid>, e: Qid, n: nat)
    requires DistinctSources(rows) && seen <= RedirectMap(rows).Keys && Leads(rows, top, e, n) && !IsSource(rows, e)
    requires forall s | s in seen :: Farther(rows, s, e, n)
    ensures Chase(RedirectMap(rows), top, seen) == Some(e)
    decreases n
  {
    var redirects := RedirectMap(rows);
    RedirectMapHas(rows);
    if n > 0 {
      assert IsSource(rows, top);
      if top in seen {
        var m: nat :| m > n && Leads(rows, top, e, m);
        EndIsUnique(rows, top, e, e, m, n);
      }
      SourceLeadsOn(rows, top, e, n - 1);
      forall s | s in seen + {top} ensures Farther(rows, s, e, n - 1) {
        if s in seen { assert Farther(rows, s, e, n); }
      }
      ChaseFindsEnd(rows, redirects[top], seen + {top}, e, n - 1);
    }
  }

  lemma ChaseIsEnd(rows: seq<(Qid, Qid)>, q: Qid, e: Qid)
    requires DistinctSources(rows)
    ensures Chase(RedirectMap(rows), q, {}) == Some(e) <==> EndsAt(rows, q, e)
  {
    if Chase(RedirectMap(rows), q, {}) == Some(e) { ChaseFollowsRows(rows, q, {}); }
    if EndsAt(rows, q, e) {
      var n: nat :| Leads(rows, q, e, n);
      ChaseFindsEnd(rows, q, {}, e, n);
    }
  }

  lemma AnswerAtEnd(entities: map<Qid, Row>, q: Qid, e: Qid, key: Qid, a: Answer)
    ensures RowKey(entities, q, e) == Some(key) && RowAnswer(entities[key], q, e) == Some(a) <==>
      TellsAtEnd(entities, q, e, key, a)
  {
  }

  /** The answer computed is what the payload tells. */
  lemma AnswerTells(entities: map<Qid, Row>, rows: seq<(Qid, Qid)>, q: Qid, key: Qid, a: Answer)
    requires DistinctSources(rows)
    ensures AnswerTo(entities, RedirectMap(rows), q) == Some((key, a)) <==> Tells(entities, rows, q, key, a)
  {
    forall e ensures Chase(RedirectMap(rows), q, {}) == Some(e) <==> EndsAt(rows, q, e) { ChaseIsEnd(rows, q, e); }
    forall e ensures RowKey(entities, q, e) == Some(key) && RowAnswer(entities[key], q, e) == Some(a) <==>
                       TellsAtEnd(entities, q, e, key, a)
    {
      AnswerAtEnd(entities, q, e, key, a);
    }
  }

  /** Some row of the payload answers `q`. */
  ghost predicate Told(entities: map<Qid, Row>, rows: seq<(Qid, Qid)>, q: Qid) {
    exists key, a :: Tells(entities, rows, q, key, a)
  }

  /** Each redirect is on the chain of a request. */
  ghost predicate RedirectsUsed(rows: seq<(Qid, Qid)>, qids: seq<Qid>) {
    forall i | 0 <= i < |rows| :: exists q :: q in qids && OnChain(rows, q, rows[i].0)
  }

  ghost predicate UsedFor(entities: map<Qid, Row>, rows: seq<(Qid, Qid)>, qids: seq<Qid>, key: Qid) {
    exists q :: q in qids && TellsBy(entities, rows, q, key)
  }

  ghost predicate TellsBy(entities: map<Qid, Row>, rows: seq<(Qid, Qid)>, q: Qid, key: Qid) {
    exists a :: Tells(entities, rows, q, key, a)
  }

  /** Every request is answered and nothing in the payload is left over. */
  ghost predicate Accepted(entities: map<Qid, Row>, rows: seq<(Qid, Qid)>, qids: seq<Qid>) {
    && (forall i, j | 0 <= i < j < |rows| :: rows[i].0 != rows[j].0)
    && AllTold(entities, rows, qids) && RedirectsUsed(rows, qids) && RowsUsed(entities, rows, qids)
  }

  ghost predicate AllTold(entities: map<Qid, Row>, rows: seq<(Qid, Qid)>, qids: seq<Qid>) {
    forall q | q in qids :: Told(entities, rows, q)
  }

  ghost predicate RowsUsed(entities: map<Qid, Row>, rows: seq<(Qid, Qid)>, qids: seq<Qid>) {
    forall key | key in entities :: UsedFor(entities, rows, qids, key)
  }

  /** The answer is one the payload gives, and the entity is missing exactly if its own row says so. */
  ghost predicate ToldAs(entities: map<Qid, Row>, rows: seq<(Qid, Qid)>, q: Qid, a: Answer) {
    && (exists key :: Tells(entities, rows, q, key, a))
    && (a == Missing <==> !IsSource(rows, q) && q in entities && entities[q] == MissingRow(q))
  }

  lemma AnsweredIffTold(entities: map<Qid, Row>, rows: seq<(Qid, Qid)>, q: Qid)
    requires DistinctSources(rows)
    ensures AnswerTo(entities, RedirectMap(rows), q).Some? <==> Told(entities, rows, q)
  {
    var answer := AnswerTo(entities, RedirectMap(rows), q);
    if answer.Some? { AnswerTells(entities, rows, q, answer.value.0, answer.value.1); }
    if Told(entities, rows, q) {
      var key, a :| Tells(entities, rows, q, key, a);
      AnswerTells(entities, rows, q, key, a);
    }
  }

  lemma KeyTells(entities: map<Qid, Row>, rows: seq<(Qid, Qid)>, q: Qid, key: Qid)
    requires DistinctSources(rows)
    ensures key in KeyFor(entities, RedirectMap(rows), q) <==> TellsBy(entities, rows, q, key)
  {
    if key in KeyFor(entities, RedirectMap(rows), q) {
      AnswerTells(entities, rows, q, key, AnswerTo(entities, RedirectMap(rows), q).value.1);
    }
    if TellsBy(entities, rows, q, key) {
      var a :| Tells(entities, rows, q, key, a);
      AnswerTells(entities, rows, q, key, a);
    }
  }

  lemma UsedKeysTell(entities: map<Qid, Row>, rows: seq<(Qid, Qid)>, qids: seq<Qid>)
    requires DistinctSources(rows)
    ensures entities.Keys == UsedKeys(entities, RedirectMap(rows), qids) <==> RowsUsed(entities, rows, qids)
  {
    var redirects := RedirectMap(rows);
    forall key ensures key in UsedKeys(entities, redirects, qids) <==> UsedFor(entities, rows, qids, key) {
      forall q ensures key in KeyFor(entities, redirects, q) <==> TellsBy(entities, rows, q, key) {
        KeyTells(entities, rows, q, key);
      }
    }
    forall key | UsedFor(entities, rows, qids, key) ensures key in entities {
      var q :| q in qids && TellsBy(entities, rows, q, key);
    }
  }

  lemma PassedOnChain(rows: seq<(Qid, Qid)>, q: Qid, x: Qid)
    requires DistinctSources(rows) && Chase(RedirectMap(rows), q, {}).Some?
    ensures x in Passed(RedirectMap(rows), q, {}) <==> OnChain(rows, q, x) && x in RedirectMap(rows)
  {
    ChaseFollowsRows(rows, q, {});
    RedirectMapHas(rows);
  }

  lemma UsedRedirectsOnChain(rows: seq<(Qid, Qid)>, qids: seq<Qid>, x: Qid)
    requires DistinctSources(rows) && forall q | q in qids :: Chase(RedirectMap(rows), q, {}).Some?
    ensures x in UsedRedirects(RedirectMap(rows), qids) <==>
      x in RedirectMap(rows) && exists q :: q in qids && OnChain(rows, q, x)
  {
    forall q | q in qids
      ensures x in Passed(RedirectMap(rows), q, {}) <==> OnChain(rows, q, x) && x in RedirectMap(rows)
    {
      PassedOnChain(rows, q, x);
    }
  }

  lemma RedirectsUsedIff(rows: seq<(Qid, Qid)>, qids: seq<Qid>)
    requires DistinctSources(rows) && forall q | q in qids :: Chase(RedirectMap(rows), q, {}).Some?
    ensures RedirectMap(rows).Keys == UsedRedirects(RedirectMap(rows), qids) <==> RedirectsUsed(rows, qids)
  {
    RedirectMapHas(rows);
    forall x ensures x in UsedRedirects(RedirectMap(rows), qids) <==>
                       x in RedirectMap(rows) && exists q :: q in qids && OnChain(rows, q, x)
    {
      UsedRedirectsOnChain(rows, qids, x);
    }
  }

  lemma NormalIsAccepted(entities: map<Qid, Row>, rows: seq<(Qid, Qid)>, qids: seq<Qid>)
    requires Normal(entities, rows, qids)
    ensures Accepted(entities, rows, qids)
  {
    AllToldIff(entities, rows, qids);
    UsedKeysTell(entities, rows, qids);
    RedirectsUsedIff(rows, qids);
  }

  lemma AcceptedIsNormal(entities: map<Qid, Row>, rows: seq<(Qid, Qid)>, qids: seq<Qid>)
    requires Accepted(entities, rows, qids)
    ensures Normal(entities, rows, qids)
  {
    AllToldIff(entities, rows, qids);
    UsedKeysTell(entities, rows, qids);
    RedirectsUsedIff(rows, qids);
  }

  lemma AllToldIff(entities: map<Qid, Row>, rows: seq<(Qid, Qid)>, qids: seq<Qid>)
    requires DistinctSources(rows)
    ensures AllAnswerable(entities, RedirectMap(rows), qids) <==> AllTold(entities, rows, qids)
    ensures AllTold(entities, rows, qids) ==> forall q | q in qids :: Chase(RedirectMap(rows), q, {}).Some?
  {
    forall q | q in qids ensures AnswerTo(entities, RedirectMap(rows), q).Some? <==> Told(entities, rows, q) {
      AnsweredIffTold(entities, rows, q);
    }
    forall q | q in qids && AnswerTo(entities, RedirectMap(rows), q).Some?
      ensures Chase(RedirectMap(rows), q, {}).Some?
    {
    }
  }

  lemma MissingIsTold(entities: map<Qid, Row>, rows: seq<(Qid, Qid)>, q: Qid, key: Qid, a: Answer)
    requires DistinctSources(rows) && Tells(entities, rows, q, key, a)
    ensures a == Missing <==> !IsSource(rows, q) && q in entities && entities[q] == MissingRow(q)
  {
    var e :| EndsAt(rows, q, e) && TellsAtEnd(entities, q, e, key, a);
    var n: nat :| Leads(rows, q, e, n);
    if !IsSource(rows, q) {
      assert n == 0;
    }
  }

  lemma AnswerIsToldAs(entities: map<Qid, Row>, rows: seq<(Qid, Qid)>, q: Qid)
    requires DistinctSources(rows) && AnswerTo(entities, RedirectMap(rows), q).Some?
    ensures ToldAs(entities, rows, q, AnswerTo(entities, RedirectMap(rows), q).value.1)
  {
    var answer := AnswerTo(entities, RedirectMap(rows), q).value;
    AnswerTells(entities, rows, q, answer.0, answer.1);
    MissingIsTold(entities, rows, q, answer.0, answer.1);
  }

  /** A payload is accepted exactly if it answers every request and holds nothing else, and then with those answers. */
  lemma NormalizedTells(entities: map<Qid, Row>, rows: seq<(Qid, Qid)>, qids: seq<Qid>)
    ensures var r := Normalized(entities, rows, qids);
      && (r.Some? <==> Accepted(entities, rows, qids))
      && (r.Some? ==> forall q :: q in r.value <==> q in qids)
      && (r.Some? ==> forall q | q in qids :: ToldAs(entities, rows, q, r.value[q]))
  {
    if Accepted(entities, rows, qids) { AcceptedIsNormal(entities, rows, qids); }
    if Normal(entities, rows, qids) {
      NormalIsAccepted(entities, rows, qids);
      forall q | q in qids ensures ToldAs(entities, rows, q, Answers(entities, rows, qids)[q]) {
        AnswerIsToldAs(entities, rows, q);
      }
    }
  }

  /** `_normalize_success_payload`. */
  method Normalize(entities: map<Qid, Row>, rows: seq<(Qid, Qid)>, qids: seq<Qid>) returns (r: Option<map<Qid, Answer>>)
    ensures r == Normalized(entities, rows, qids)
    ensures r.Some? <==> Accepted(entities, rows, qids)
    ensures r.Some? ==> forall q :: q in r.value <==> q in qids
    ensures r.Some? ==> forall q | q in qids :: ToldAs(entities, rows, q, r.value[q])
  {
    var ok, redirects := CollectRedirects(rows);
    if !ok {
      NormalizedTells(entities, rows, qids);
      return None;
    }
    var output: map<Qid, Answer> := map[];
    var usedRedirects: set<Qid> := {};
    var usedKeys: set<Qid> := {};
    for i := 0 to |qids|
      invariant AnsweredTo(entities, redirects, qids, i, output, usedRedirects, usedKeys)
    {
      var answer, used := AnswerOne(entities, redirects, qids[i]);
      if answer.None? {
        assert qids[i] in qids;
        NormalizedTells(entities, rows, qids);
        return None;
      }
      NextAnswer(entities, redirects, qids, i, output, usedRedirects, usedKeys);
      output := output[qids[i] := answer.value.1];
      usedRedirects, usedKeys := usedRedirects + used, usedKeys + {answer.value.0};
    }
    AllAnswered(entities, redirects, qids, output, usedRedirects, usedKeys);
    NormalizedTells(entities, rows, qids);
    if redirects.Keys != usedRedirects || entities.Keys != usedKeys {
      return None;
    }
    r := Some(output);
  }

  ghost predicate Answered(entities: map<Qid, Row>, redirects: Redirects, qids: seq<Qid>, output: map<Qid, Answer>) {
    && (forall q | q in qids :: AnswerTo(entities, redirects, q).Some?)
    && output == map q | q in qids :: AnswerTo(entities, redirects, q).value.1
  }

  lemma UsedStep(entities: map<Qid, Row>, redirects: Redirects, qids: seq<Qid>, i: nat)
    requires i < |qids|
    ensures UsedRedirects(redirects, qids[..i + 1])
      == UsedRedirects(redirects, qids[..i]) + Passed(redirects, qids[i], {})
    ensures UsedKeys(entities, redirects, qids[..i + 1])
      == UsedKeys(entities, redirects, qids[..i]) + KeyFor(entities, redirects, qids[i])
    ensures forall q :: q in qids[..i + 1] <==> q in qids[..i] || q == qids[i]
  {
    assert qids[..i + 1] == qids[..i] + [qids[i]];
  }

  /** The body of the normaliser's loop over the requested QIDs. */
  method AnswerOne(entities: map<Qid, Row>, redirects: Redirects, q: Qid)
    returns (r: Option<(Qid, Answer)>, used: set<Qid>)
    ensures r == AnswerTo(entities, redirects, q)
    ensures r.Some? ==> used == Passed(redirects, q, {})
  {
    var resolved;
    resolved, used := ChaseLoop(redirects, q);
    if resolved.None? {
      return None, used;
    }
    var key := RowKey(entities, q, resolved.value);
    if key.None? {
      return None, used;
    }
    var answer := RowAnswer(entities[key.value], q, resolved.value);
    if answer.None? {
      return None, used;
    }
    r := Some((key.value, answer.value));
  }

  // ---- executing a plan -------------------------------------------------------------------------------

  const BATCH_SIZE: nat := 50

  datatype Record = Record(index: nat, qids: seq<Qid>, response: Response)
  type Provider = (seq<Qid>, nat) -> Response

  datatype Fetched = Failed | Done(records: seq<Record>, entities: map<Qid, Answer>)

  /** What one `execute` call adds, given the requests made and the answers held before it. */
  ghost function Fetch(provider: Provider, qids: seq<Qid>, n: nat, have: map<Qid, Answer>): Fetched
    requires qids != []
    decreases |qids|, 1
  {
    var record := Record(n, qids, provider(qids, n));
    match record.response
    case Malformed => Failed
    case OtherError => Failed
    case NoSuchEntity(cited) =>
      if |qids| == 1 then
        if cited == {qids[0]} then Done([record], map[qids[0] := Missing]) else Failed
      else
        var halves := FetchHalves(provider, qids, n + 1, have);
        if halves.Failed? then Failed else Done([record] + halves.records, halves.entities)
    case Success(entities, redirects) =>
      match Normalized(entities, redirects, qids)
      case None => Failed
      case Some(batch) => if batch.Keys !! have.Keys then Done([record], batch) else Failed
  }

  ghost function FetchHalves(provider: Provider, qids: seq<Qid>, n: nat, have: map<Qid, Answer>): Fetched
    requires |qids| > 1
    decreases |qids|, 0
  {
    var mid := |qids| / 2;
    var left := Fetch(provider, qids[..mid], n, have);
    if left.Failed? then Failed
    else
      var right := Fetch(provider, qids[mid..], n + |left.records|, have + left.entities);
      if right.Failed? then Failed else Done(left.records + right.records, left.entities + right.entities)
  }

  ghost function FetchPlan(provider: Provider, plan: seq<Qid>, n: nat, have: map<Qid, Answer>): Fetched
    decreases |plan|
  {
    if plan == [] then Done([], map[])
    else
      var size := if |plan| < BATCH_SIZE then |plan| else BATCH_SIZE;
      var first := Fetch(provider, plan[..size], n, have);
      if first.Failed? then Failed
      else
        var rest := FetchPlan(provider, plan[size..], n + |first.records|, have + first.entities);
        if rest.Failed? then Failed
        else Done(first.records + rest.records, first.entities + rest.entities)
  }

  lemma Regroup(r: seq<Record>, s: seq<Record>, t: seq<Record>, l: map<Qid, Answer>, m: map<Qid, Answer>,
                n: map<Qid, Answer>)
    ensures (r + s) + t == r + (s + t) && (l + m) + n == l + (m + n)
  {
  }

  /** What is left of the plan continues the transcript and map so far to those of the whole plan. */
  ghost predicate PlanContinues(provider: Provider, plan: seq<Qid>, offset: nat, all: Fetched,
                                records: seq<Record>, entities: map<Qid, Answer>)
  {
    offset <= |plan| && Continues(all, FetchPlan(provider, plan[offset..], |records|, entities), records, entities)
  }

  lemma PlanStarts(provider: Provider, plan: seq<Qid>)
    ensures PlanContinues(provider, plan, 0, FetchPlan(provider, plan, 0, map[]), [], map[])
  {
    assert plan[0..] == plan;
    var all := FetchPlan(provider, plan, 0, map[]);
    if all.Done? { assert [] + all.records == all.records && map[] + all.entities == all.entities; }
  }

  lemma PlanEnds(provider: Provider, plan: seq<Qid>, all: Fetched, records: seq<Record>, entities: map<Qid, Answer>)
    requires PlanContinues(provider, plan, |plan|, all, records, entities)
    ensures all == Done(records, entities)
  {
    assert plan[|plan|..] == [];
    assert records + [] == records && entities + map[] == entities;
  }

  /** One more batch of a plan. */
  /** A plan is its first batch and the plan of the rest. */
  lemma PlanHead(provider: Provider, plan: seq<Qid>, size: nat, n: nat, have: map<Qid, Answer>)
    requires plan != [] && size == if |plan| < BATCH_SIZE then |plan| else BATCH_SIZE
    ensures var first := Fetch(provider, plan[..size], n, have);
      FetchPlan(provider, plan, n, have) ==
      if first.Failed? then Failed
      else
        var rest := FetchPlan(provider, plan[size..], n + |first.records|, have + first.entities);
        if rest.Failed? then Failed else Done(first.records + rest.records, first.entities + rest.entities)
  {
  }

  lemma PlanStep(provider: Provider, plan: seq<Qid>, offset: nat, size: nat, all: Fetched,
                 records: seq<Record>, entities: map<Qid, Answer>)
    requires offset < |plan| && size == if |plan| - offset < BATCH_SIZE then |plan| - offset else BATCH_SIZE
    requires PlanContinues(provider, plan, offset, all, records, entities)
    ensures var first := Fetch(provider, plan[offset..offset + size], |records|, entities);
            if first.Failed? then all.Failed?
            else PlanContinues(provider, plan, offset + size, all, records + first.records, entities + first.entities)
  {
    var tail := plan[offset..];
    assert tail[..size] == plan[offset..offset + size] && tail[size..] == plan[offset + size..];
    PlanHead(provider, tail, size, |records|, entities);
    var first := Fetch(provider, plan[offset..offset + size], |records|, entities);
    if first.Done? {
      var rest := FetchPlan(provider, plan[offset + size..], |records| + |first.records|, entities + first.entities);
      HeadContinues(all, FetchPlan(provider, tail, |records|, entities), first, rest, records, entities);
    }
  }

  lemma HeadContinues(all: Fetched, whole: Fetched, first: Fetched, rest: Fetched, records: seq<Record>,
                      entities: map<Qid, Answer>)
    requires Continues(all, whole, records, entities) && first.Done?
    requires whole == if rest.Failed? then Failed
                      else Done(first.records + rest.records, first.entities + rest.entities)
    ensures Continues(all, rest, records + first.records, entities + first.entities)
  {
    if rest.Done? { Regroup(records, first.records, rest.records, entities, first.entities, rest.entities); }
  }

  /** A fetch that has accumulated `records` and `entities` and has `rest` still to come. */
  ghost predicate Continues(all: Fetched, rest: Fetched, records: seq<Record>, entities: map<Qid, Answer>) {
    && (all.Done? <==> rest.Done?)
    && (rest.Done? ==> all.records == records + rest.records && all.entities == entities + rest.entities)
  }

  class Acquisition {
    var records: seq<Record>
    var entities: map<Qid, Answer>

    constructor ()
      ensures records == [] && entities == map[]
    {
      records, entities := [], map[];
    }

    /** The inner `execute`: the transcript and the map grow across the recursion. */
    method Execute(provider: Provider, qids: seq<Qid>) returns (ok: bool)
      requires qids != []
      modifies this
      ensures var f := Fetch(provider, qids, |old(records)|, old(entities));
              && (ok <==> f.Done?)
              && (ok ==> records == old(records) + f.records && entities == old(entities) + f.entities)
      decreases |qids|, 1
    {
      var index := |records|;
      var response := provider(qids, index);
      if response.Malformed? {
        return false;
      }
      records := records + [Record(index, qids, response)];
      match response {
        case OtherError => return false;
        case NoSuchEntity(cited) =>
          if |qids| == 1 {
            if cited != {qids[0]} {
              return false;
            }
            entities := entities[qids[0] := Missing];
            return true;
          }
          ok := Bisect(provider, qids);
        case Success(rows, redirects) =>
          var batch := Normalize(rows, redirects, qids);
          if batch.None? || !(batch.value.Keys !! entities.Keys) {
            return false;
          }
          entities := entities + batch.value;
          ok := true;
      }
    }

    method Bisect(provider: Provider, qids: seq<Qid>) returns (ok: bool)
      requires |qids| > 1 && records != []
      modifies this
      ensures var f := FetchHalves(provider, qids, |old(records)|, old(entities));
              && (ok <==> f.Done?)
              && (ok ==> records == old(records) + f.records && entities == old(entities) + f.entities)
      decreases |qids|, 0
    {
      var midpoint := |qids| / 2;
      ghost var n, have := |records|, entities;
      ghost var left := Fetch(provider, qids[..midpoint], n, have);
      ok := Execute(provider, qids[..midpoint]);
      if ok {
        ghost var right := Fetch(provider, qids[midpoint..], n + |left.records|, have + left.entities);
        assert right == Fetch(provider, qids[midpoint..], |records|, entities);
        ok := Execute(provider, qids[midpoint..]);
        if ok { Regroup(old(records), left.records, right.records, have, left.entities, right.entities); }
      }
    }

    /** `_execute_plan`: batches in order, then the coverage check. */
    method ExecutePlan(provider: Provider, plan: seq<Qid>) returns (ok: bool)
      requires records == [] && entities == map[] && Increasing(plan)
      modifies this
      ensures var f := FetchPlan(provider, plan, 0, map[]);
              (ok <==> f.Done? && f.entities.Keys == (set q | q in plan))
              && (ok ==> records == f.records && entities == f.entities)
    {
      var offset := 0;
      ghost var all := FetchPlan(provider, plan, 0, map[]);
      PlanStarts(provider, plan);
      while offset < |plan|
        invariant PlanContinues(provider, plan, offset, all, records, entities)
        decreases |plan| - offset
      {
        var size := if |plan| - offset < BATCH_SIZE then |plan| - offset else BATCH_SIZE;
        PlanStep(provider, plan, offset, size, all, records, entities);
        var fine := Execute(provider, plan[offset..offset + size]);
        if !fine {
          return false;
        }
        offset := offset + size;
      }
      PlanEnds(provider, plan, all, records, entities);
      ok := entities.Keys == set q | q in plan;
    }
  }

  // ---- bisection refines one-at-a-time fetching ---------------------------------------------------------

  predicate Distinct(qids: seq<Qid>) {
    forall i, j | 0 <= i < j < |qids| :: qids[i] != qids[j]
  }

  function SetOf(qids: seq<Qid>): set<Qid> { set q | q in qids }

  ghost function Restrict(truth: map<Qid, Answer>, qids: seq<Qid>): map<Qid, Answer> {
    map q | q in truth && q in qids :: truth[q]
  }

  /** The server refuses exactly the batches that hold a missing QID, and answers the others truly. */
  ghost predicate AnswersBatch(provider: Provider, truth: map<Qid, Answer>, qids: seq<Qid>, n: nat) {
    if exists q :: q in qids && q in truth && truth[q].Missing? then
      provider(qids, n).NoSuchEntity? && (|qids| == 1 ==> provider(qids, n).cited == {qids[0]})
    else
      && provider(qids, n).Success?
      && Normalized(provider(qids, n).entities, provider(qids, n).redirects, qids) == Some(Restrict(truth, qids))
  }

  ghost predicate Faithful(provider: Provider, truth: map<Qid, Answer>) {
    forall qids, n {:trigger AnswersBatch(provider, truth, qids, n)} |
      qids != [] && Distinct(qids) && SetOf(qids) <= truth.Keys :: AnswersBatch(provider, truth, qids, n)
  }

  lemma Halves(qids: seq<Qid>, k: nat)
    requires k <= |qids| && Distinct(qids)
    ensures Distinct(qids[..k]) && Distinct(qids[k..]) && SetOf(qids[..k]) !! SetOf(qids[k..])
    ensures SetOf(qids) == SetOf(qids[..k]) + SetOf(qids[k..])
  {
    assert qids == qids[..k] + qids[k..];
    forall q | q in SetOf(qids[..k]) ensures q !in SetOf(qids[k..]) {
      var i :| 0 <= i < k && qids[..k][i] == q;
    }
  }

  lemma RestrictSplits(truth: map<Qid, Answer>, qids: seq<Qid>, k: nat)
    requires k <= |qids|
    ensures Restrict(truth, qids) == Restrict(truth, qids[..k]) + Restrict(truth, qids[k..])
  {
    assert qids == qids[..k] + qids[k..];
  }

  lemma {:induction false} FetchIsPointwise(provider: Provider, truth: map<Qid, Answer>, qids: seq<Qid>, n: nat,
                                            have: map<Qid, Answer>)
    requires Faithful(provider, truth) && qids != [] && Distinct(qids)
    requires SetOf(qids) <= truth.Keys && SetOf(qids) !! have.Keys
    ensures Fetch(provider, qids, n, have).Done? && Fetch(provider, qids, n, have).entities == Restrict(truth, qids)
    decreases |qids|, 1
  {
    assert AnswersBatch(provider, truth, qids, n);
    if exists q :: q in qids && q in truth && truth[q].Missing? {
      if |qids| == 1 {
        assert qids == [qids[0]];
        assert Restrict(truth, qids) == map[qids[0] := Missing];
      } else {
        HalvesArePointwise(provider, truth, qids, n + 1, have);
      }
    }
  }

  lemma {:induction false} HalvesArePointwise(provider: Provider, truth: map<Qid, Answer>, qids: seq<Qid>, n: nat,
                                              have: map<Qid, Answer>)
    requires Faithful(provider, truth) && |qids| > 1 && Distinct(qids)
    requires SetOf(qids) <= truth.Keys && SetOf(qids) !! have.Keys
    ensures FetchHalves(provider, qids, n, have).Done?
      && FetchHalves(provider, qids, n, have).entities == Restrict(truth, qids)
    decreases |qids|, 0
  {
    var mid := |qids| / 2;
    Halves(qids, mid);
    FetchIsPointwise(provider, truth, qids[..mid], n, have);
    var left := Fetch(provider, qids[..mid], n, have);
    FetchIsPointwise(provider, truth, qids[mid..], n + |left.records|, have + left.entities);
    RestrictSplits(truth, qids, mid);
  }

  lemma StaysApart(truth: map<Qid, Answer>, head: seq<Qid>, tail: seq<Qid>, have: map<Qid, Answer>,
                   got: map<Qid, Answer>)
    requires SetOf(head) !! SetOf(tail) && SetOf(tail) !! have.Keys && got == Restrict(truth, head)
    ensures SetOf(tail) !! (have + got).Keys
  {
    assert got.Keys <= SetOf(head);
  }

  lemma FirstThenRest(provider: Provider, plan: seq<Qid>, n: nat, have: map<Qid, Answer>, first: Fetched, rest: Fetched)
    requires plan != [] && first.Done? && rest.Done?
    requires var size := if |plan| < BATCH_SIZE then |plan| else BATCH_SIZE;
      first == Fetch(provider, plan[..size], n, have) &&
      rest == FetchPlan(provider, plan[size..], n + |first.records|, have + first.entities)
    ensures FetchPlan(provider, plan, n, have) == Done(first.records + rest.records, first.entities + rest.entities)
  {
  }

  lemma {:induction false} PlanIsPointwise(provider: Provider, truth: map<Qid, Answer>, plan: seq<Qid>, n: nat,
                                           have: map<Qid, Answer>)
    requires Faithful(provider, truth) && Distinct(plan)
    requires SetOf(plan) <= truth.Keys && SetOf(plan) !! have.Keys
    ensures FetchPlan(provider, plan, n, have).Done?
      && FetchPlan(provider, plan, n, have).entities == Restrict(truth, plan)
    decreases |plan|
  {
    if plan == [] {
      assert Restrict(truth, plan) == map[];
    } else {
      var size := if |plan| < BATCH_SIZE then |plan| else BATCH_SIZE;
      var head, tail := plan[..size], plan[size..];
      Halves(plan, size);
      FetchIsPointwise(provider, truth, head, n, have);
      var first := Fetch(provider, head, n, have);
      StaysApart(truth, head, tail, have, first.entities);
      PlanIsPointwise(provider, truth, tail, n + |first.records|, have + first.entities);
      var rest := FetchPlan(provider, tail, n + |first.records|, have + first.entities);
      FirstThenRest(provider, plan, n, have, first, rest);
      RestrictSplits(truth, plan, size);
    }
  }

  /**
   Against a faithful server the plan succeeds, and every planned QID gets the answer it would have got
   from a request of its own, at any point of the transcript.
   */
  lemma BisectionRefinesSingleFetches(provider: Provider, truth: map<Qid, Answer>, plan: seq<Qid>)
    requires Faithful(provider, truth) && Increasing(plan) && SetOf(plan) <= truth.Keys
    ensures var f := FetchPlan(provider, plan, 0, map[]);
            && f.Done? && f.entities.Keys == SetOf(plan)
            && forall q, m: nat | q in plan ::
                 && Fetch(provider, [q], m, map[]).Done?
                 && Fetch(provider, [q], m, map[]).entities == map[q := f.entities[q]]
  {
    IncreasingHasNoRepeats(plan);
    PlanIsPointwise(provider, truth, plan, 0, map[]);
    forall q, m: nat | q in plan
      ensures Fetch(provider, [q], m, map[]).Done? && Fetch(provider, [q], m, map[]).entities == map[q := truth[q]]
    {
      assert q in SetOf(plan) && SetOf([q]) == {q};
      FetchIsPointwise(provider, truth, [q], m, map[]);
      assert Restrict(truth, [q]) == map[q := truth[q]];
    }
  }

  // ---- the transcript -----------------------------------------------------------------------------------

  /** Requests within `qids`: non-empty, no longer, and of nothing else. */
  ghost predicate Within(records: seq<Record>, qids: seq<Qid>) {
    forall r | r in records :: r.qids != [] && |r.qids| <= |qids| && SetOf(r.qids) <= SetOf(qids)
  }

  ghost predicate DistinctRequests(records: seq<Record>) {
    forall i, j | 0 <= i < j < |records| :: records[i].qids != records[j].qids
  }

  lemma DisjointTranscripts(left: seq<Record>, right: seq<Record>, a: seq<Qid>, b: seq<Qid>)
    requires DistinctRequests(left) && DistinctRequests(right) && Within(left, a) && Within(right, b)
    requires SetOf(a) !! SetOf(b)
    ensures DistinctRequests(left + right)
  {
    forall i, j | 0 <= i < |left| && 0 <= j < |right| ensures left[i].qids != right[j].qids {
      assert left[i] in left && right[j] in right;
      assert left[i].qids[0] in SetOf(left[i].qids);
      assert right[j].qids[0] in SetOf(right[j].qids);
    }
  }

  /** Contiguous indices from `n`, distinct requests, and no more of them than splitting needs. */
  ghost predicate Transcript(records: seq<Record>, qids: seq<Qid>, n: nat, limit: int) {
    && DistinctRequests(records) && Within(records, qids) && |records| <= limit
    && forall i | 0 <= i < |records| :: records[i].index == n + i
  }

  lemma JoinTranscripts(left: seq<Record>, right: seq<Record>, qids: seq<Qid>, k: nat, n: nat, l: int, m: int)
    requires k <= |qids| && Distinct(qids)
    requires Transcript(left, qids[..k], n, l) && Transcript(right, qids[k..], n + |left|, m)
    ensures Transcript(left + right, qids, n, l + m)
  {
    Halves(qids, k);
    DisjointTranscripts(left, right, qids[..k], qids[k..]);
  }

  lemma {:induction false} FetchTranscript(provider: Provider, qids: seq<Qid>, n: nat, have: map<Qid, Answer>)
    requires qids != [] && Distinct(qids) && Fetch(provider, qids, n, have).Done?
    ensures Transcript(Fetch(provider, qids, n, have).records, qids, n, 2 * |qids| - 1)
    decreases |qids|, 1
  {
    var record := Record(n, qids, provider(qids, n));
    if record.response.NoSuchEntity? && |qids| > 1 {
      HalvesTranscript(provider, qids, n + 1, have);
      var halves := FetchHalves(provider, qids, n + 1, have);
      assert Fetch(provider, qids, n, have).records == [record] + halves.records;
    } else {
      assert Fetch(provider, qids, n, have).records == [record];
    }
  }

  lemma {:induction false} HalvesTranscript(provider: Provider, qids: seq<Qid>, n: nat, have: map<Qid, Answer>)
    requires |qids| > 1 && Distinct(qids) && FetchHalves(provider, qids, n, have).Done?
    ensures var records := FetchHalves(provider, qids, n, have).records;
            Transcript(records, qids, n, 2 * |qids| - 2) && forall r | r in records :: r.qids != qids
    decreases |qids|, 0
  {
    var mid := |qids| / 2;
    var left := Fetch(provider, qids[..mid], n, have);
    var right := Fetch(provider, qids[mid..], n + |left.records|, have + left.entities);
    Halves(qids, mid);
    FetchTranscript(provider, qids[..mid], n, have);
    FetchTranscript(provider, qids[mid..], n + |left.records|, have + left.entities);
    ShorterRequests(left.records, right.records, qids, mid);
    JoinTranscripts(left.records, right.records, qids, mid, n, 2 * mid - 1, 2 * (|qids| - mid) - 1);
  }

  lemma ShorterRequests(left: seq<Record>, right: seq<Record>, qids: seq<Qid>, k: nat)
    requires 0 < k < |qids| && Within(left, qids[..k]) && Within(right, qids[k..])
    ensures forall r | r in left + right :: r.qids != qids
  {
  }

  /** The plan's requests are all different, so the duplicate-preimage refusal cannot fire. */
  lemma {:induction false} PlanTranscript(provider: Provider, plan: seq<Qid>, n: nat, have: map<Qid, Answer>)
    requires Distinct(plan) && FetchPlan(provider, plan, n, have).Done?
    ensures Transcript(FetchPlan(provider, plan, n, have).records, plan, n, 2 * |plan|)
    decreases |plan|
  {
    if plan != [] {
      var size := if |plan| < BATCH_SIZE then |plan| else BATCH_SIZE;
      var first := Fetch(provider, plan[..size], n, have);
      var rest := FetchPlan(provider, plan[size..], n + |first.records|, have + first.entities);
      Halves(plan, size);
      FetchTranscript(provider, plan[..size], n, have);
      PlanTranscript(provider, plan[size..], n + |first.records|, have + first.entities);
      JoinTranscripts(first.records, rest.records, plan, size, n, 2 * size - 1, 2 * (|plan| - size));
    }
  }

  /** No request asks for more than fifty QIDs. */
  lemma {:induction false} RequestsAreCapped(provider: Provider, plan: seq<Qid>, n: nat, have: map<Qid, Answer>)
    requires Distinct(plan) && FetchPlan(provider, plan, n, have).Done?
    ensures forall r | r in FetchPlan(provider, plan, n, have).records :: |r.qids| <= 50
    decreases |plan|
  {
    if plan != [] {
      var size := if |plan| < BATCH_SIZE then |plan| else BATCH_SIZE;
      var first := Fetch(provider, plan[..size], n, have);
      Halves(plan, size);
      FetchTranscript(provider, plan[..size], n, have);
      RequestsAreCapped(provider, plan[size..], n + |first.records|, have + first.entities);
    }
  }

  /** Where nothing has to be split the plan takes one request for every fifty QIDs, begun or full. */
  lemma {:induction false} UnsplitPlan(provider: Provider, plan: seq<Qid>, n: nat, have: map<Qid, Answer>)
    requires FetchPlan(provider, plan, n, have).Done? && forall qids, m :: !provider(qids, m).NoSuchEntity?
    ensures |FetchPlan(provider, plan, n, have).records| == (|plan| + 49) / 50
    decreases |plan|
  {
    if plan != [] {
      var size := if |plan| < BATCH_SIZE then |plan| else BATCH_SIZE;
      var first := Fetch(provider, plan[..size], n, have);
      assert |first.records| == 1;
      UnsplitPlan(provider, plan[size..], n + 1, have + first.entities);
    }
  }

  // ---- replay -------------------------------------------------------------------------------------------

  /** A provider that returns the recorded bodies in order, and nothing usable past their end. */
  function Replaying(responses: seq<Response>): Provider {
    (qids: seq<Qid>, n: nat) => if n < |responses| then responses[n] else Malformed
  }

  ghost predicate Reproduces(provider: Provider, records: seq<Record>) {
    forall r | r in records :: provider(r.qids, r.index) == r.response
  }

  lemma {:induction false} FetchReplays(provider: Provider, again: Provider, qids: seq<Qid>, n: nat,
                                        have: map<Qid, Answer>)
    requires qids != [] && Fetch(provider, qids, n, have).Done?
    requires Reproduces(again, Fetch(provider, qids, n, have).records)
    ensures Fetch(again, qids, n, have) == Fetch(provider, qids, n, have)
    decreases |qids|, 1
  {
    var record := Record(n, qids, provider(qids, n));
    var f := Fetch(provider, qids, n, have);
    assert f.records[0] == record && f.records[0] in f.records;
    if record.response.NoSuchEntity? && |qids| > 1 {
      assert f.records == [record] + FetchHalves(provider, qids, n + 1, have).records;
      HalvesReplay(provider, again, qids, n + 1, have);
    }
  }

  lemma {:induction false} HalvesReplay(provider: Provider, again: Provider, qids: seq<Qid>, n: nat,
                                        have: map<Qid, Answer>)
    requires |qids| > 1 && FetchHalves(provider, qids, n, have).Done?
    requires Reproduces(again, FetchHalves(provider, qids, n, have).records)
    ensures FetchHalves(again, qids, n, have) == FetchHalves(provider, qids, n, have)
    decreases |qids|, 0
  {
    var mid := |qids| / 2;
    var left := Fetch(provider, qids[..mid], n, have);
    FetchReplays(provider, again, qids[..mid], n, have);
    FetchReplays(provider, again, qids[mid..], n + |left.records|, have + left.entities);
  }

  lemma ReproducesBoth(provider: Provider, left: seq<Record>, right: seq<Record>)
    requires Reproduces(provider, left + right)
    ensures Reproduces(provider, left) && Reproduces(provider, right)
  {
    forall r | r in left || r in right ensures provider(r.qids, r.index) == r.response {
      assert r in left + right;
    }
  }

  lemma {:induction false} PlanReplays(provider: Provider, again: Provider, plan: seq<Qid>, n: nat,
                                       have: map<Qid, Answer>)
    requires FetchPlan(provider, plan, n, have).Done?
    requires Reproduces(again, FetchPlan(provider, plan, n, have).records)
    ensures FetchPlan(again, plan, n, have) == FetchPlan(provider, plan, n, have)
    decreases |plan|
  {
    if plan != [] {
      var size := if |plan| < BATCH_SIZE then |plan| else BATCH_SIZE;
      var first := Fetch(provider, plan[..size], n, have);
      var rest := FetchPlan(provider, plan[size..], n + |first.records|, have + first.entities);
      FirstThenRest(provider, plan, n, have, first, rest);
      ReproducesBoth(again, first.records, rest.records);
      FetchReplays(provider, again, plan[..size], n, have);
      PlanReplays(provider, again, plan[size..], n + |first.records|, have + first.entities);
      FirstThenRest(again, plan, n, have, first, rest);
    }
  }

  /** Replaying a successful run's bodies reproduces its records and map, and uses every body. */
  lemma TranscriptReplays(provider: Provider, plan: seq<Qid>, responses: seq<Response>)
    requires Distinct(plan) && FetchPlan(provider, plan, 0, map[]).Done?
    requires var records := FetchPlan(provider, plan, 0, map[]).records;
             |responses| == |records| && forall i | 0 <= i < |records| :: responses[i] == records[i].response
    ensures FetchPlan(Replaying(responses), plan, 0, map[]) == FetchPlan(provider, plan, 0, map[])
  {
    var records := FetchPlan(provider, plan, 0, map[]).records;
    PlanTranscript(provider, plan, 0, map[]);
    forall r | r in records ensures Replaying(responses)(r.qids, r.index) == r.response {
      var i :| 0 <= i < |records| && records[i] == r;
    }
    PlanReplays(provider, Replaying(responses), plan, 0, map[]);
  }

  /** `publish_transcript`: one body per request, and none left over. */
  method PublishTranscript(plan: seq<Qid>, responses: seq<Response>) returns (ok: bool, acquired: Acquisition)
    requires Increasing(plan)
    ensures fresh(acquired)
    ensures var f := FetchPlan(Replaying(responses), plan, 0, map[]);
            (ok <==> f.Done? && f.entities.Keys == SetOf(plan) && |f.records| == |responses|)
            && (ok ==> acquired.records == f.records && acquired.entities == f.entities)
  {
    acquired := new Acquisition();
    ok := acquired.ExecutePlan(Replaying(responses), plan);
    ok := ok && |acquired.records| == |responses|;
  }

  // ---- a faithful server exists -------------------------------------------------------------------------

  /** The row the live API returns for a QID, keyed by the request and carrying its own redirect. */
  function LiveRow(q: Qid, a: Answer): Row
    requires a.Found?
  {
    EntityRow(a.resolved, if a.resolved == q then None else Some((q, a.resolved)), a.fields)
  }

  function LiveRows(truth: map<Qid, Answer>, qids: seq<Qid>): map<Qid, Row> {
    map q | q in truth && q in qids && truth[q].Found? :: LiveRow(q, truth[q])
  }

  function Live(truth: map<Qid, Answer>): Provider {
    (qids: seq<Qid>, n: nat) =>
      if exists q :: q in qids && q in truth && truth[q].Missing?
      then NoSuchEntity(set q | q in qids && q in truth && truth[q].Missing?)
      else Success(LiveRows(truth, qids), [])
  }

  lemma LiveIsFaithful(truth: map<Qid, Answer>)
    ensures Faithful(Live(truth), truth)
  {
    forall qids, n: nat | qids != [] && Distinct(qids) && SetOf(qids) <= truth.Keys
      ensures AnswersBatch(Live(truth), truth, qids, n)
    {
      if exists q :: q in qids && q in truth && truth[q].Missing? {
        if |qids| == 1 { assert qids == [qids[0]]; }
      } else {
        LiveBatch(truth, qids);
      }
    }
  }

  lemma LiveBatch(truth: map<Qid, Answer>, qids: seq<Qid>)
    requires SetOf(qids) <= truth.Keys && forall q | q in qids && q in truth :: truth[q].Found?
    ensures Normalized(LiveRows(truth, qids), [], qids) == Some(Restrict(truth, qids))
  {
    var rows := LiveRows(truth, qids);
    forall q | q in qids ensures AnswerTo(rows, map[], q) == Some((q, truth[q])) && Passed(map[], q, {}) == {} {
      assert q in SetOf(qids);
    }
    forall k ensures k in UsedKeys(rows, map[], qids) <==> k in rows {
      if k in rows { assert k in KeyFor(rows, map[], k); }
    }
    assert UsedRedirects(map[], qids) == {};
    assert Answers(rows, [], qids) == Restrict(truth, qids);
  }
}
