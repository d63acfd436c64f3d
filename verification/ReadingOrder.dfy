/** When the order in which comments are read decides whether a tag is green: verdicts of one moment that disagree. */
module ReadingOrder {

  import opened SettleVerdicts

  /** The verdict is among the person's latest on the tag, so that it stands in some reading order. */
  ghost predicate May(log: Log, q: Qid, u: Login, s: Status) {
    exists e :: Latest(log, Key(q, u), e) && VerdictOf(e) == s
  }

  ghost predicate MayObject(log: Log, q: Qid, u: Login) { exists s :: Objects(s) && May(log, q, u, s) }

  ghost predicate MustObject(log: Log, q: Qid, u: Login) {
    MayObject(log, q, u) && forall s :: May(log, q, u, s) ==> Objects(s)
  }

  /** The person may be without a verdict: they gave none, or a note is among the latest. */
  ghost predicate MayPass(log: Log, q: Qid, u: Login) { May(log, q, u, Note) || forall s :: !May(log, q, u, s) }

  ghost predicate MaintainersMayPass(log: Log, q: Qid) { forall u :: IsMaint(log, u) ==> MayPass(log, q, u) }

  /** Some maintainer may approve and none must object; or all may pass, nobody must object and somebody may approve. */
  ghost predicate CanBeGreen(log: Log, q: Qid) {
    || ((exists u :: IsMaint(log, u) && May(log, q, u, Approve))
        && forall u :: IsMaint(log, u) ==> !MustObject(log, q, u))
    || (MaintainersMayPass(log, q) && (forall u :: !MustObject(log, q, u))
        && exists u :: May(log, q, u, Approve) || u in Blanket(log))
  }

  /** Some maintainer may object; or all may pass, and somebody may object or nobody need approve. */
  ghost predicate CanBeRecycled(log: Log, q: Qid) {
    || (exists u :: IsMaint(log, u) && MayObject(log, q, u))
    || (MaintainersMayPass(log, q)
        && ((exists u :: MayObject(log, q, u)) || (Blanket(log) == {} && forall u :: MayPass(log, q, u))))
  }

  // ---- what stands is among the latest -------------------------------------------------------------------------

  lemma LatestThere(a: Log, b: Log, k: Key, e: Event)
    requires SameThreads(a, b)
    ensures Latest(a, k, e) <==> Latest(b, k, e)
  {
    assert forall f :: Verdicts(a, k, f) <==> Verdicts(b, k, f);
  }

  lemma StandingMay(a: Log, b: Log, q: Qid, u: Login, s: Status)
    requires SameThreads(a, b) && Stands(b, q, u, s)
    ensures May(a, q, u, s)
  {
    var i: nat :| LastWord(b, |b.events|, Key(q, u), i) && VerdictOf(b.events[i]) == s;
    LastWordIsLatest(b, Key(q, u), i);
    LatestThere(a, b, Key(q, u), b.events[i]);
  }

  /** Who has a latest verdict in one order has one that stands in every other. */
  lemma SomethingStands(a: Log, b: Log, q: Qid, u: Login, s: Status) returns (t: Status)
    requires SameThreads(a, b) && May(a, q, u, s)
    ensures Stands(b, q, u, t) && May(a, q, u, t)
  {
    var k := Key(q, u);
    var e :| Latest(a, k, e) && VerdictOf(e) == s;
    assert e in b.events;
    var i: nat :| i < |b.events| && b.events[i] == e;
    assert About(b, i, k);
    ExplicitIsLastWord(b, |b.events|, k);
    var j: nat :| LastWord(b, |b.events|, k, j);
    t := VerdictOf(b.events[j]);
    StandingMay(a, b, q, u, t);
  }

  // ---- an order that favours some verdicts ---------------------------------------------------------------------

  type Wish = (Login, Status) -> bool

  ghost function Wished(log: Log, q: Qid, wish: Wish, n: nat): (r: seq<Event>)
    requires n <= |log.events|
    ensures forall e :: e in r <==>
      e in log.events[..n] && !e.Seen? && Latest(log, Key(q, e.login), e) && wish(e.login, VerdictOf(e))
  {
    if n == 0 then [] else
      var e, init := log.events[n - 1], Wished(log, q, wish, n - 1);
      assert log.events[..n] == log.events[..n - 1] + [e];
      if !e.Seen? && Latest(log, Key(q, e.login), e) && wish(e.login, VerdictOf(e)) then init + [e] else init
  }

  /** The same comments, but with the wished among the latest verdicts read first. */
  ghost function Favouring(log: Log, q: Qid, wish: Wish): Log {
    log.(events := Wished(log, q, wish, |log.events|) + log.events)
  }

  lemma FavouringIsAnOrder(a: Log, q: Qid, wish: Wish)
    ensures SameThreads(a, Favouring(a, q, wish))
  {
    assert a.events[..|a.events|] == a.events;
  }

  /** What is read first stands, so a wished verdict does. */
  lemma WishedStands(a: Log, q: Qid, wish: Wish, u: Login, s: Status) returns (t: Status)
    requires May(a, q, u, s) && wish(u, s)
    ensures Stands(Favouring(a, q, wish), q, u, t) && wish(u, t)
  {
    var b, k, first := Favouring(a, q, wish), Key(q, u), Wished(a, q, wish, |a.events|);
    FavouringIsAnOrder(a, q, wish);
    assert a.events[..|a.events|] == a.events;
    var e :| Latest(a, k, e) && VerdictOf(e) == s;
    assert e in first;
    var i: nat :| i < |first| && first[i] == e;
    assert b.events[i] == e && About(b, i, k);
    ExplicitIsLastWord(b, |b.events|, k);
    var j: nat :| LastWord(b, |b.events|, k, j);
    LastWordIsLatest(b, k, j);
    LatestThere(a, b, k, b.events[j]);
    t := VerdictOf(b.events[j]);
    assert b.events[j].ts == e.ts;
    assert j <= i;
    assert b.events[j] == first[j] && first[j] in first;
  }

  /** Where a verdict can be as wished it is, and where there is none to choose none stands. */
  lemma AsWished(a: Log, q: Qid, wish: Wish, u: Login)
    ensures (exists s :: May(a, q, u, s) && wish(u, s)) ==>
      && (exists t :: Stands(Favouring(a, q, wish), q, u, t))
      && forall t :: Stands(Favouring(a, q, wish), q, u, t) ==> wish(u, t)
    ensures forall t :: Stands(Favouring(a, q, wish), q, u, t) ==> May(a, q, u, t)
  {
    var b := Favouring(a, q, wish);
    FavouringIsAnOrder(a, q, wish);
    forall t | Stands(b, q, u, t) ensures May(a, q, u, t) { StandingMay(a, b, q, u, t); }
    if s :| May(a, q, u, s) && wish(u, s) {
      var t := WishedStands(a, q, wish, u, s);
      NotOther(b, q, u, t);
    }
  }

  lemma Passes(a: Log, q: Qid, wish: Wish, u: Login)
    requires MayPass(a, q, u) && forall s :: wish(u, s) <==> s == Note
    ensures var b := Favouring(a, q, wish); !Rules(b, q, u) && !StandingObjection(b, q, u) && !Stands(b, q, u, Approve)
  {
    AsWished(a, q, wish, u);
    assert wish(u, Note);
    forall s | Stands(Favouring(a, q, wish), q, u, s) ensures s == Note {
      assert May(a, q, u, s);
    }
  }

  lemma NoObjection(a: Log, q: Qid, wish: Wish, u: Login)
    requires (exists s :: May(a, q, u, s) && wish(u, s)) || forall s :: !May(a, q, u, s)
    requires forall s :: wish(u, s) ==> !Objects(s)
    ensures !StandingObjection(Favouring(a, q, wish), q, u)
  {
    AsWished(a, q, wish, u);
  }

  lemma NeedNotObject(a: Log, q: Qid, u: Login)
    requires !MustObject(a, q, u)
    ensures (exists s :: May(a, q, u, s) && !Objects(s)) || forall s :: !May(a, q, u, s)
  {
    if s :| May(a, q, u, s) && Objects(s) { assert MayObject(a, q, u); }
  }

  lemma NotOther(log: Log, q: Qid, u: Login, s: Status)
    requires Stands(log, q, u, s)
    ensures forall t :: Stands(log, q, u, t) ==> t == s
  {
    forall t | Stands(log, q, u, t) ensures t == s {
      if t != s { OneVerdictStands(log, q, u, s, t); }
    }
  }

  lemma SameRoles(a: Log, b: Log, u: Login)
    requires SameThreads(a, b)
    ensures (IsMaint(a, u) <==> IsMaint(b, u)) && Blanket(a) == Blanket(b)
  {
    SameMaint(a, b, u);
    SameBlanket(a, b, |a.reviews|);
  }

  // ---- from an order to what may be ------------------------------------------------------------------------------

  /** What stands in one order says what may stand. */
  lemma StandingTells(a: Log, b: Log, q: Qid, u: Login)
    requires SameThreads(a, b)
    ensures IsMaint(a, u) <==> IsMaint(b, u)
    ensures StandingObjection(b, q, u) ==> MayObject(a, q, u)
    ensures MustObject(a, q, u) ==> StandingObjection(b, q, u)
    ensures Stands(b, q, u, Approve) ==> May(a, q, u, Approve)
    ensures Rules(b, q, u) && !StandingObjection(b, q, u) ==> Stands(b, q, u, Approve)
    ensures !StandingObjection(b, q, u) && !Stands(b, q, u, Approve) ==> MayPass(a, q, u)
  {
    SameRoles(a, b, u);
    forall s | Stands(b, q, u, s) ensures May(a, q, u, s) { StandingMay(a, b, q, u, s); }
    if s :| May(a, q, u, s) {
      var t := SomethingStands(a, b, q, u, s);
      NotOther(b, q, u, t);
    }
  }

  lemma GreenCanBe(a: Log, b: Log, q: Qid)
    requires SameThreads(a, b) && Green(b, q)
    ensures CanBeGreen(a, q)
  {
    GreenIff(b, q);
    SameRoles(a, b, "");
    forall u ensures MustObject(a, q, u) ==> StandingObjection(b, q, u) { StandingTells(a, b, q, u); }
    if r :| Rules(b, q, r) {
      forall u ensures IsMaint(a, u) <==> IsMaint(b, u) { StandingTells(a, b, q, u); }
      StandingTells(a, b, q, r);
      assert IsMaint(a, r) && May(a, q, r, Approve);
    } else {
      forall u | IsMaint(a, u) ensures MayPass(a, q, u) {
        StandingTells(a, b, q, u);
        assert !Rules(b, q, u);
      }
      var u :| Stands(b, q, u, Approve) || u in Blanket(b);
      StandingTells(a, b, q, u);
    }
  }

  lemma RecycledCanBe(a: Log, b: Log, q: Qid)
    requires SameThreads(a, b) && !Green(b, q)
    ensures CanBeRecycled(a, q)
  {
    GreenIff(b, q);
    SameRoles(a, b, "");
    if r :| Rules(b, q, r) {
      var u :| IsMaint(b, u) && StandingObjection(b, q, u);
      StandingTells(a, b, q, u);
    } else {
      forall u | IsMaint(a, u) ensures MayPass(a, q, u) {
        StandingTells(a, b, q, u);
        assert !Rules(b, q, u);
      }
      if u :| StandingObjection(b, q, u) {
        StandingTells(a, b, q, u);
      } else {
        forall u ensures MayPass(a, q, u) { StandingTells(a, b, q, u); }
      }
    }
  }

  // ---- and back ------------------------------------------------------------------------------------------------

  lemma GreenByMaintainer(a: Log, q: Qid, m: Login) returns (b: Log)
    requires IsMaint(a, m) && May(a, q, m, Approve) && forall u :: IsMaint(a, u) ==> !MustObject(a, q, u)
    ensures SameThreads(a, b) && Green(b, q)
  {
    var wish: Wish := (u, s) => if u == m then s == Approve else !Objects(s);
    b := Favouring(a, q, wish);
    FavouringIsAnOrder(a, q, wish);
    AsWished(a, q, wish, m);
    SameRoles(a, b, m);
    assert Rules(b, q, m);
    forall u | IsMaint(b, u) ensures !StandingObjection(b, q, u) {
      SameRoles(a, b, u);
      AsWished(a, q, wish, u);
    }
    GreenIff(b, q);
  }

  lemma GreenByAnyone(a: Log, q: Qid, m: Login) returns (b: Log)
    requires MaintainersMayPass(a, q) && forall u :: !MustObject(a, q, u)
    requires (!IsMaint(a, m) && May(a, q, m, Approve)) || m in Blanket(a)
    ensures SameThreads(a, b) && Green(b, q)
  {
    var wish: Wish := (u, s) =>
      if IsMaint(a, u) then s == Note else if May(a, q, u, Approve) then s == Approve else !Objects(s);
    b := Favouring(a, q, wish);
    FavouringIsAnOrder(a, q, wish);
    forall u ensures !Rules(b, q, u) && !StandingObjection(b, q, u) {
      SameRoles(a, b, u);
      if IsMaint(a, u) {
        Passes(a, q, wish, u);
      } else {
        NeedNotObject(a, q, u);
        if s :| May(a, q, u, s) && !Objects(s) { assert wish(u, if May(a, q, u, Approve) then Approve else s); }
        NoObjection(a, q, wish, u);
      }
    }
    AsWished(a, q, wish, m);
    SameRoles(a, b, m);
    GreenIff(b, q);
  }

  lemma RecycledByMaintainer(a: Log, q: Qid, m: Login) returns (b: Log)
    requires IsMaint(a, m) && MayObject(a, q, m)
    ensures SameThreads(a, b) && !Green(b, q)
  {
    var wish: Wish := (u, s) => Objects(s);
    b := Favouring(a, q, wish);
    FavouringIsAnOrder(a, q, wish);
    AsWished(a, q, wish, m);
    SameRoles(a, b, m);
    assert Rules(b, q, m) && StandingObjection(b, q, m);
    GreenIff(b, q);
  }

  lemma RecycledByAnyone(a: Log, q: Qid, m: Login) returns (b: Log)
    requires MaintainersMayPass(a, q) && !IsMaint(a, m) && MayObject(a, q, m)
    ensures SameThreads(a, b) && !Green(b, q)
  {
    var wish: Wish := (u, s) => if IsMaint(a, u) then s == Note else Objects(s);
    b := Favouring(a, q, wish);
    FavouringIsAnOrder(a, q, wish);
    AsWished(a, q, wish, m);
    forall u ensures !Rules(b, q, u) {
      SameRoles(a, b, u);
      AsWished(a, q, wish, u);
    }
    assert StandingObjection(b, q, m);
    GreenIff(b, q);
  }

  lemma RecycledBySilence(a: Log, q: Qid) returns (b: Log)
    requires Blanket(a) == {} && forall u :: MayPass(a, q, u)
    ensures SameThreads(a, b) && !Green(b, q)
  {
    var wish: Wish := (u, s) => s == Note;
    b := Favouring(a, q, wish);
    FavouringIsAnOrder(a, q, wish);
    SameRoles(a, b, "");
    forall u ensures !Rules(b, q, u) && !Stands(b, q, u, Approve) {
      Passes(a, q, wish, u);
    }
    GreenIff(b, q);
  }

  // ---- the exact conditions ------------------------------------------------------------------------------------

  /** The tag is green in some reading order exactly if it can be. */
  lemma GreenInSomeOrderIff(a: Log, q: Qid)
    ensures CanBeGreen(a, q) <==> exists b :: SameThreads(a, b) && Green(b, q)
  {
    if b :| SameThreads(a, b) && Green(b, q) { GreenCanBe(a, b, q); }
    if CanBeGreen(a, q) {
      if u :| IsMaint(a, u) && May(a, q, u, Approve) && forall v :: IsMaint(a, v) ==> !MustObject(a, q, v) {
        var b := GreenByMaintainer(a, q, u);
      } else {
        var u :| May(a, q, u, Approve) || u in Blanket(a);
        var b := GreenByAnyone(a, q, u);
      }
    }
  }

  /** It is recycled in some reading order exactly if it can be. */
  lemma RecycledInSomeOrderIff(a: Log, q: Qid)
    ensures CanBeRecycled(a, q) <==> exists b :: SameThreads(a, b) && !Green(b, q)
  {
    if b :| SameThreads(a, b) && !Green(b, q) { RecycledCanBe(a, b, q); }
    if CanBeRecycled(a, q) {
      if u :| IsMaint(a, u) && MayObject(a, q, u) {
        var b := RecycledByMaintainer(a, q, u);
      } else if u :| MayObject(a, q, u) {
        var b := RecycledByAnyone(a, q, u);
      } else {
        var b := RecycledBySilence(a, q);
      }
    }
  }

  /** So the order in which comments are read decides about the tag exactly if it can be green and can be recycled. */
  lemma OrderDecidesIff(a: Log, q: Qid)
    ensures CanBeGreen(a, q) && CanBeRecycled(a, q) <==>
      exists b :: SameThreads(a, b) && (Green(b, q) <==> !Green(a, q))
  {
    GreenInSomeOrderIff(a, q);
    RecycledInSomeOrderIff(a, q);
    assert SameThreads(a, a);
  }

  /** Approved and rejected by the same person at the same moment. */
  function Torn(q: Qid, u: Login, ts: int): Log {
    Log([Said(q, u, Approve, ts), Said(q, u, Reject, ts)], [], {}, {}, {})
  }

  lemma TornVerdicts(q: Qid, u: Login, ts: int)
    requires u != ""
    ensures var a := Torn(q, u, ts);
      && May(a, q, u, Approve) && MayObject(a, q, u) && (forall v, s :: v != u ==> !May(a, q, v, s))
      && (forall v :: !IsMaint(a, v))
  {
    var a := Torn(q, u, ts);
    assert Latest(a, Key(q, u), a.events[0]) && Latest(a, Key(q, u), a.events[1]);
    assert May(a, q, u, Reject);
    assert ReadAll(a, 2).maint == ReadAll(a, 1).maint == ReadAll(a, 0).maint;
  }

  /** There the order decides. */
  lemma OrderDecidesWhenTorn(q: Qid, u: Login, ts: int)
    requires u != ""
    ensures var a := Torn(q, u, ts);
      exists b, c :: SameThreads(a, b) && SameThreads(a, c) && Green(b, q) && !Green(c, q)
  {
    var a := Torn(q, u, ts);
    TornVerdicts(q, u, ts);
    var b := GreenByAnyone(a, q, u);
    var c := RecycledByAnyone(a, q, u);
  }
}
