/**
 Reading the reviews of a batch: what everyone's standing verdict on a tag is, whether the tag is green,
 and whether the batch may be settled.
 */
module SettleVerdicts {

  type Qid = string
  type Login = string

  datatype Status = Approve | Reject | Revise | Flag | Note

  /** One thing found in a comment thread, in the order the threads are read. */
  datatype Event =
    | Seen(login: Login, orgRole: bool)
    | Said(qid: Qid, login: Login, status: Status, ts: int)
    | Reacted(qid: Qid, login: Login, thumbsUp: bool, ts: int)

  datatype Review = Review(login: Login, orgRole: bool, approved: bool, ts: int)

  datatype Log = Log(events: seq<Event>, reviews: seq<Review>, listed: set<Login>, members: set<Login>,
                     bots: set<Login>)

  predicate Objects(s: Status) { s.Reject? || s.Revise? || s.Flag? }

  predicate Person(log: Log, u: Login) { u != "" && u !in log.bots }

  // ---- reading the threads ------------------------------------------------------------------------------

  datatype Record = Record(status: Status, ts: int)
  datatype Key = Key(qid: Qid, login: Login)

  datatype Tally = Tally(explicit: map<Key, Record>, reviewers: set<Login>, maint: set<Login>)

  /** The verdict an event carries. */
  function VerdictOf(e: Event): Status
    requires !e.Seen?
  {
    if e.Said? then e.status else if e.thumbsUp then Approve else Reject
  }

  predicate Counts(log: Log, e: Event) { !e.Seen? && Person(log, e.login) }

  function NoteExplicit(explicit: map<Key, Record>, k: Key, r: Record): map<Key, Record> {
    if k !in explicit || r.ts > explicit[k].ts then explicit[k := r] else explicit
  }

  function Read(log: Log, t: Tally, e: Event): Tally {
    if !Person(log, e.login) then t
    else if e.Seen? then if e.orgRole then t.(maint := t.maint + {e.login}) else t
    else Tally(
      NoteExplicit(t.explicit, Key(e.qid, e.login), Record(VerdictOf(e), e.ts)),
      t.reviewers + {e.login},
      if e.Reacted? && e.login in log.members then t.maint + {e.login} else t.maint)
  }

  function ReadAll(log: Log, n: nat): Tally
    requires n <= |log.events|
  {
    if n == 0 then Tally(map[], {}, {}) else Read(log, ReadAll(log, n - 1), log.events[n - 1])
  }

  datatype Stance = Stance(approved: bool, ts: int)

  function ReadReview(log: Log, m: map<Login, Stance>, r: Review): map<Login, Stance> {
    if Person(log, r.login) && (r.login !in m || r.ts > m[r.login].ts)
    then m[r.login := Stance(r.approved, r.ts)] else m
  }

  function ReadReviews(log: Log, n: nat): map<Login, Stance>
    requires n <= |log.reviews|
  {
    if n == 0 then map[] else ReadReview(log, ReadReviews(log, n - 1), log.reviews[n - 1])
  }

  function Explicit(log: Log): map<Key, Record> { ReadAll(log, |log.events|).explicit }

  function Blanket(log: Log): set<Login> {
    var states := ReadReviews(log, |log.reviews|);
    set u | u in states && states[u].approved
  }

  function Reviewers(log: Log): set<Login> { ReadAll(log, |log.events|).reviewers + Blanket(log) }

  predicate IsMaint(log: Log, u: Login) {
    || u in log.listed
    || u in ReadAll(log, |log.events|).maint
    || exists r :: r in log.reviews && r.login == u && r.orgRole && Person(log, u)
  }

  // ---- deciding -------------------------------------------------------------------------------------------

  /** Those whose last word on the tag is a verdict. */
  function Real(log: Log, q: Qid): map<Login, Status> { RealIn(Explicit(log), q) }

  function RealIn(ex: map<Key, Record>, q: Qid): map<Login, Status> {
    map k | k in ex && k.qid == q && ex[k].status != Note :: k.login := ex[k].status
  }

  function MaintVerdicts(log: Log, q: Qid): set<Status> {
    set u | u in Real(log, q) && IsMaint(log, u) :: Real(log, q)[u]
  }

  predicate Green(log: Log, q: Qid) { GreenFrom(Real(log, q), MaintVerdicts(log, q), Blanket(log)) }

  predicate GreenFrom(spoken: map<Login, Status>, mver: set<Status>, blanket: set<Login>) {
    if exists s :: s in mver && Objects(s) then false
    else if Approve in mver then true
    else
      var st := map u | u in spoken.Keys + blanket :: if u in spoken then spoken[u] else Approve;
      !(exists u :: u in st && Objects(st[u])) && exists u :: u in st && st[u] == Approve
  }

  predicate Gate(log: Log) {
    |Reviewers(log)| >= 2 && exists u :: u in Reviewers(log) && IsMaint(log, u)
  }

  datatype Classified = Classified(gate: bool, green: seq<Qid>, recycle: seq<Qid>)

  function Greens(log: Log, tags: seq<Qid>): seq<Qid> {
    if tags == [] then [] else
      var last := tags[|tags| - 1];
      if Green(log, last) then Greens(log, tags[..|tags| - 1]) + [last] else Greens(log, tags[..|tags| - 1])
  }

  function Recycles(log: Log, tags: seq<Qid>): seq<Qid> {
    if tags == [] then [] else
      var last := tags[|tags| - 1];
      if Green(log, last) then Recycles(log, tags[..|tags| - 1]) else Recycles(log, tags[..|tags| - 1]) + [last]
  }

  function ClassifiedOf(log: Log, tags: seq<Qid>): Classified {
    Classified(Gate(log), Greens(log, tags), Recycles(log, tags))
  }

  lemma {:induction false} EachTagIsSorted(log: Log, tags: seq<Qid>, q: Qid)
    ensures q in Greens(log, tags) <==> q in tags && Green(log, q)
    ensures q in Recycles(log, tags) <==> q in tags && !Green(log, q)
  {
    if tags != [] {
      EachTagIsSorted(log, tags[..|tags| - 1], q);
      assert tags == tags[..|tags| - 1] + [tags[|tags| - 1]];
    }
  }

  /** `setdefault` for every approver of the whole PR. */
  method WithBlanket(spoken: map<Login, Status>, blanket: set<Login>) returns (st: map<Login, Status>)
    ensures st == map u | u in spoken.Keys + blanket :: if u in spoken then spoken[u] else Approve
  {
    st := spoken;
    var todo := blanket;
    while todo != {}
      invariant todo <= blanket
      invariant st == map u | u in spoken.Keys + (blanket - todo) :: if u in spoken then spoken[u] else Approve
    {
      var u :| u in todo;
      if u !in st {
        st := st[u := Approve];
      }
      todo := todo - {u};
    }
    assert blanket - todo == blanket;
  }

  function SpokenBy(spoken: map<Login, Status>, people: set<Login>): set<Status> {
    set u | u in spoken && u in people :: spoken[u]
  }

  /** `decide`, first half: what people said on the tag, without the notes. */
  method SpokenOn(explicit: map<Key, Record>, q: Qid) returns (spoken: map<Login, Status>)
    ensures spoken == RealIn(explicit, q)
  {
    var ex := map k | k in explicit && k.qid == q :: k.login := explicit[k].status;
    spoken := map u | u in ex && ex[u] != Note :: ex[u];
    NotesDropOut(explicit, q, ex, spoken);
  }

  /** `decide`, second half: the maintainers' verdicts trump, then everybody's count. */
  method DecideTag(spoken: map<Login, Status>, maint: set<Login>, blanket: set<Login>) returns (green: bool)
    ensures green <==> GreenFrom(spoken, SpokenBy(spoken, maint), blanket)
  {
    var mver := SpokenBy(spoken, maint);
    if exists s :: s in mver && Objects(s) { return false; }
    if Approve in mver { return true; }
    var st := WithBlanket(spoken, blanket);
    var vals := set u | u in st :: st[u];
    ByValues(spoken, mver, blanket, st, vals);
    return !(exists s :: s in vals && Objects(s)) && Approve in vals;
  }

  lemma NotesDropOut(explicit: map<Key, Record>, q: Qid, ex: map<Login, Status>, spoken: map<Login, Status>)
    requires ex == map k | k in explicit && k.qid == q :: k.login := explicit[k].status
    requires spoken == map u | u in ex && ex[u] != Note :: ex[u]
    ensures spoken == RealIn(explicit, q)
  {
    forall u ensures u in ex <==> Key(q, u) in explicit {
      if u in ex { assert Key(q, u) in explicit; }
      if Key(q, u) in explicit { assert Key(q, u).login in ex; }
    }
  }

  lemma ByValues(spoken: map<Login, Status>, mver: set<Status>, blanket: set<Login>, st: map<Login, Status>,
                 vals: set<Status>)
    requires st == map u | u in spoken.Keys + blanket :: if u in spoken then spoken[u] else Approve
    requires vals == set u | u in st :: st[u]
    requires Approve !in mver && forall s | s in mver :: !Objects(s)
    ensures GreenFrom(spoken, mver, blanket) <==> !(exists s :: s in vals && Objects(s)) && Approve in vals
  {
    forall u | u in st ensures st[u] in vals {}
  }

  /** People whose review carries an organisation role, among the first `n` reviews. */
  function RoleReviewers(log: Log, n: nat): set<Login>
    requires n <= |log.reviews|
  {
    set r | r in log.reviews[..n] && r.orgRole && Person(log, r.login) :: r.login
  }

  /** The first two loops: comments and their reactions. */
  method ReadThreads(log: Log) returns (t: Tally)
    ensures t == ReadAll(log, |log.events|)
  {
    var explicit, reviewers, maint := map[], {}, {};
    for n := 0 to |log.events|
      invariant Tally(explicit, reviewers, maint) == ReadAll(log, n)
    {
      var e := log.events[n];
      if Person(log, e.login) {
        if e.Seen? {
          if e.orgRole { maint := maint + {e.login}; }
        } else {
          if e.Reacted? && e.login in log.members { maint := maint + {e.login}; }
          reviewers := reviewers + {e.login};
          var k := Key(e.qid, e.login);
          if k !in explicit || e.ts > explicit[k].ts {
            explicit := explicit[k := Record(VerdictOf(e), e.ts)];
          }
        }
      }
    }
    t := Tally(explicit, reviewers, maint);
  }

  /** The third loop: the reviews of the whole PR. */
  method ReadApprovals(log: Log) returns (blanket: set<Login>, roles: set<Login>)
    ensures blanket == Blanket(log) && roles == RoleReviewers(log, |log.reviews|)
  {
    var states: map<Login, Stance> := map[];
    roles := {};
    for n := 0 to |log.reviews|
      invariant states == ReadReviews(log, n) && roles == RoleReviewers(log, n)
    {
      var r := log.reviews[n];
      assert log.reviews[..n + 1] == log.reviews[..n] + [r];
      if Person(log, r.login) {
        if r.orgRole { roles := roles + {r.login}; }
        if r.login !in states || r.ts > states[r.login].ts {
          states := states[r.login := Stance(r.approved, r.ts)];
        }
      }
    }
    blanket := set u | u in states && states[u].approved;
  }

  /** The three sources of maintainers together are who is one. */
  lemma MaintTable(log: Log, maint: set<Login>, u: Login)
    requires maint == log.listed + ReadAll(log, |log.events|).maint + RoleReviewers(log, |log.reviews|)
    ensures u in maint <==> IsMaint(log, u)
  {
    assert log.reviews[..|log.reviews|] == log.reviews;
  }

  lemma DecidedFromTables(log: Log, maint: set<Login>, q: Qid)
    requires maint == log.listed + ReadAll(log, |log.events|).maint + RoleReviewers(log, |log.reviews|)
    ensures var spoken := RealIn(Explicit(log), q);
      GreenFrom(spoken, SpokenBy(spoken, maint), Blanket(log)) <==> Green(log, q)
  {
    forall u ensures u in maint <==> IsMaint(log, u) { MaintTable(log, maint, u); }
    var spoken := Real(log, q);
    assert SpokenBy(spoken, maint) == MaintVerdicts(log, q);
  }

  lemma GateFromTables(log: Log, maint: set<Login>)
    requires maint == log.listed + ReadAll(log, |log.events|).maint + RoleReviewers(log, |log.reviews|)
    ensures Gate(log) <==> |Reviewers(log)| >= 2 && (set u | u in Reviewers(log) && u in maint) != {}
  {
    forall u ensures u in maint <==> IsMaint(log, u) { MaintTable(log, maint, u); }
    var both := set u | u in Reviewers(log) && u in maint;
    forall u ensures u in both <==> u in Reviewers(log) && IsMaint(log, u) {}
    if both != {} {
      var u :| u in both;
      assert u in Reviewers(log) && IsMaint(log, u);
    }
  }

  /** `classify`: read the threads and the reviews, then decide each tag and the gate from the tables. */
  method Classify(log: Log, tags: seq<Qid>) returns (c: Classified)
    ensures c == ClassifiedOf(log, tags)
  {
    var t := ReadThreads(log);
    var blanket, roles := ReadApprovals(log);
    var reviewers, maint := t.reviewers + blanket, log.listed + t.maint + roles;
    var green, recycle := [], [];
    for n := 0 to |tags|
      invariant green == Greens(log, tags[..n]) && recycle == Recycles(log, tags[..n])
    {
      assert tags[..n + 1][..n] == tags[..n];
      var spoken := SpokenOn(t.explicit, tags[n]);
      var isGreen := DecideTag(spoken, maint, blanket);
      DecidedFromTables(log, maint, tags[n]);
      if isGreen {
        green := green + [tags[n]];
      } else {
        recycle := recycle + [tags[n]];
      }
    }
    assert tags[..|tags|] == tags;
    GateFromTables(log, maint);
    var maintReviewers := set u | u in reviewers && u in maint;
    c := Classified(|reviewers| >= 2 && maintReviewers != {}, green, recycle);
  }

  // ---- the standing verdict ---------------------------------------------------------------------------------

  predicate About(log: Log, i: nat, k: Key)
    requires i < |log.events|
  {
    var e := log.events[i]; Counts(log, e) && e.qid == k.qid && e.login == k.login
  }

  /** Event `i` is the person's last word on the tag: the latest one, and the first read among equals. */
  ghost predicate LastWord(log: Log, n: nat, k: Key, i: nat)
    requires n <= |log.events|
  {
    && i < n && About(log, i, k)
    && (forall j | 0 <= j < i && About(log, j, k) :: log.events[j].ts < log.events[i].ts)
    && (forall j | i < j < n && About(log, j, k) :: log.events[j].ts <= log.events[i].ts)
  }

  function RecordOf(e: Event): Record
    requires !e.Seen?
  {
    Record(VerdictOf(e), e.ts)
  }

  lemma ExplicitStep(log: Log, n: nat, k: Key)
    requires 0 < n <= |log.events|
    ensures var before, after, e := ReadAll(log, n - 1).explicit, ReadAll(log, n).explicit, log.events[n - 1];
      var newer := About(log, n - 1, k) && (k !in before || e.ts > before[k].ts);
      && (k in after <==> k in before || About(log, n - 1, k))
      && (k in after ==> after[k] == if newer then RecordOf(e) else before[k])
  {
  }

  lemma StaysLastWord(log: Log, n: nat, k: Key, i: nat)
    requires 0 < n <= |log.events| && LastWord(log, n - 1, k, i)
    ensures !About(log, n - 1, k) || log.events[n - 1].ts <= log.events[i].ts ==> LastWord(log, n, k, i)
    ensures About(log, n - 1, k) && log.events[n - 1].ts > log.events[i].ts ==> LastWord(log, n, k, n - 1)
  {
  }

  lemma {:induction false} ExplicitIsLastWord(log: Log, n: nat, k: Key)
    requires n <= |log.events|
    ensures k in ReadAll(log, n).explicit <==> exists i: nat :: i < n && About(log, i, k)
    ensures k in ReadAll(log, n).explicit ==>
      exists i: nat :: LastWord(log, n, k, i) && ReadAll(log, n).explicit[k] == RecordOf(log.events[i])
  {
    if n > 0 {
      ExplicitIsLastWord(log, n - 1, k);
      ExplicitStep(log, n, k);
      var before := ReadAll(log, n - 1).explicit;
      if k in before {
        var i: nat :| LastWord(log, n - 1, k, i) && before[k] == RecordOf(log.events[i]);
        StaysLastWord(log, n, k, i);
      } else if About(log, n - 1, k) {
        assert LastWord(log, n, k, n - 1);
      }
    }
  }

  /** The person's standing verdict on the tag is `s`. */
  ghost predicate Stands(log: Log, q: Qid, u: Login, s: Status) {
    exists i: nat :: LastWord(log, |log.events|, Key(q, u), i) && VerdictOf(log.events[i]) == s
  }

  lemma StandsIffExplicit(log: Log, q: Qid, u: Login, s: Status)
    ensures Stands(log, q, u, s) <==> Key(q, u) in Explicit(log) && Explicit(log)[Key(q, u)].status == s
  {
    ExplicitIsLastWord(log, |log.events|, Key(q, u));
    if Stands(log, q, u, s) {
      var i: nat :| LastWord(log, |log.events|, Key(q, u), i) && VerdictOf(log.events[i]) == s;
      assert Key(q, u) in Explicit(log);
      var j: nat :| LastWord(log, |log.events|, Key(q, u), j) && Explicit(log)[Key(q, u)] == RecordOf(log.events[j]);
      assert i == j;
    }
  }

  lemma RealIsStanding(log: Log, q: Qid, u: Login, s: Status)
    ensures s != Note ==> (Stands(log, q, u, s) <==> u in Real(log, q) && Real(log, q)[u] == s)
    ensures u in Real(log, q) ==> Real(log, q)[u] != Note
  {
    StandsIffExplicit(log, q, u, s);
    if u in Real(log, q) {
      StandsIffExplicit(log, q, u, Real(log, q)[u]);
      assert Key(q, u) in Explicit(log);
    }
    if s != Note && Stands(log, q, u, s) {
      assert Key(q, u).login == u;
    }
  }

  // ---- what makes a tag green -----------------------------------------------------------------------------------

  ghost predicate Rules(log: Log, q: Qid, u: Login) {
    IsMaint(log, u) && exists s :: s != Note && Stands(log, q, u, s)
  }

  ghost predicate StandingObjection(log: Log, q: Qid, u: Login) {
    exists s :: Objects(s) && Stands(log, q, u, s)
  }

  lemma RealHas(log: Log, q: Qid, u: Login)
    ensures u in Real(log, q) <==> exists s :: s != Note && Stands(log, q, u, s)
    ensures u in Real(log, q) ==>
      && (StandingObjection(log, q, u) <==> Objects(Real(log, q)[u]))
      && (Stands(log, q, u, Approve) <==> Real(log, q)[u] == Approve)
    ensures StandingObjection(log, q, u) || Stands(log, q, u, Approve) ==> u in Real(log, q)
  {
    forall s ensures s != Note ==> (Stands(log, q, u, s) <==> u in Real(log, q) && Real(log, q)[u] == s) {
      RealIsStanding(log, q, u, s);
    }
    RealIsStanding(log, q, u, Approve);
    if u in Real(log, q) { RealIsStanding(log, q, u, Real(log, q)[u]); }
  }

  /**
   Maintainers with a standing verdict settle it among themselves: no objection from them. Without one, nobody
   may object and somebody must approve, on the tag or on the whole PR.
   */
  lemma GreenIff(log: Log, q: Qid)
    ensures Green(log, q) <==>
      if exists u :: Rules(log, q, u) then forall u :: IsMaint(log, u) ==> !StandingObjection(log, q, u)
      else (forall u :: !StandingObjection(log, q, u)) && exists u :: Stands(log, q, u, Approve) || u in Blanket(log)
  {
    var spoken := Real(log, q);
    var mver := MaintVerdicts(log, q);
    forall u
      ensures Rules(log, q, u) <==> u in spoken && IsMaint(log, u)
      ensures StandingObjection(log, q, u) <==> u in spoken && Objects(spoken[u])
      ensures Stands(log, q, u, Approve) <==> u in spoken && spoken[u] == Approve
      ensures u in spoken ==> Objects(spoken[u]) || spoken[u] == Approve
    {
      RealHas(log, q, u);
    }
    if u :| Rules(log, q, u) {
      assert spoken[u] in mver;
      GreenByMaintainers(log, q, spoken, mver);
    } else {
      assert mver == {};
      GreenByAll(log, q, spoken);
    }
  }

  lemma GreenByMaintainers(log: Log, q: Qid, spoken: map<Login, Status>, mver: set<Status>)
    requires spoken == Real(log, q) && mver == MaintVerdicts(log, q)
    requires mver != {} && forall u | u in spoken :: Objects(spoken[u]) || spoken[u] == Approve
    ensures Green(log, q) <==> forall u :: u in spoken && IsMaint(log, u) ==> !Objects(spoken[u])
  {
    forall u | u in spoken && IsMaint(log, u) ensures spoken[u] in mver {}
    var s :| s in mver;
    assert (forall t | t in mver :: !Objects(t)) ==> Approve in mver;
  }

  lemma GreenFromAll(spoken: map<Login, Status>, blanket: set<Login>)
    requires forall u | u in spoken :: Objects(spoken[u]) || spoken[u] == Approve
    ensures GreenFrom(spoken, {}, blanket) <==>
      (forall u :: u in spoken ==> !Objects(spoken[u])) &&
      exists u :: (u in spoken && spoken[u] == Approve) || u in blanket
  {
    var st := map u | u in spoken.Keys + blanket :: if u in spoken then spoken[u] else Approve;
    assert GreenFrom(spoken, {}, blanket) <==>
      !(exists u :: u in st && Objects(st[u])) && exists u :: u in st && st[u] == Approve;
    forall u | u in spoken ensures u in st && st[u] == spoken[u] {}
    forall u | u in blanket ensures u in st {}
  }

  lemma GreenByAll(log: Log, q: Qid, spoken: map<Login, Status>)
    requires spoken == Real(log, q) && forall u | u in spoken :: !IsMaint(log, u)
    ensures Green(log, q) <==>
      (forall u :: u in spoken ==> !Objects(spoken[u])) &&
      exists u :: (u in spoken && spoken[u] == Approve) || u in Blanket(log)
  {
    assert MaintVerdicts(log, q) == {};
    forall u | u in spoken ensures Objects(spoken[u]) || spoken[u] == Approve {
      RealIsStanding(log, q, u, Approve);
    }
    GreenFromAll(spoken, Blanket(log));
  }

  // ---- the order the threads are read in ----------------------------------------------------------------------

  lemma {:induction false} TallySets(log: Log, n: nat, u: Login)
    requires n <= |log.events|
    ensures u in ReadAll(log, n).reviewers <==> exists e :: e in log.events[..n] && Counts(log, e) && e.login == u
    ensures u in ReadAll(log, n).maint <==>
      exists e :: e in log.events[..n] && Person(log, u) && e.login == u &&
        if e.Seen? then e.orgRole else e.Reacted? && u in log.members
  {
    if n > 0 {
      TallySets(log, n - 1, u);
      assert log.events[..n] == log.events[..n - 1] + [log.events[n - 1]];
    }
  }

  /** `e` is a verdict for `k` that none of the others is later than. */
  ghost predicate Latest(log: Log, k: Key, e: Event) {
    && Verdicts(log, k, e)
    && forall f | Verdicts(log, k, f) :: f.ts <= e.ts
  }

  ghost predicate Verdicts(log: Log, k: Key, e: Event) {
    e in log.events && Counts(log, e) && e.qid == k.qid && e.login == k.login
  }

  /** The person's latest verdicts on the tag, if there are several, agree. */
  ghost predicate Untied(log: Log, k: Key) {
    forall e, f | Latest(log, k, e) && Latest(log, k, f) :: VerdictOf(e) == VerdictOf(f)
  }

  ghost predicate SameThreads(a: Log, b: Log) {
    b == a.(events := b.events) && forall e :: e in a.events <==> e in b.events
  }

  lemma NoneIsLater(log: Log, k: Key, i: nat, m: nat)
    requires LastWord(log, |log.events|, k, i) && m < |log.events| && About(log, m, k)
    ensures log.events[m].ts <= log.events[i].ts
  {
  }

  lemma SomeLastWord(a: Log, b: Log, k: Key, i: nat) returns (j: nat)
    requires SameThreads(a, b) && i < |a.events| && About(a, i, k)
    ensures LastWord(b, |b.events|, k, j)
  {
    assert a.events[i] in b.events;
    var m: nat :| m < |b.events| && b.events[m] == a.events[i];
    assert About(b, m, k);
    ExplicitIsLastWord(b, |b.events|, k);
    j :| LastWord(b, |b.events|, k, j);
  }

  lemma LastWordIsLatest(log: Log, k: Key, i: nat)
    requires LastWord(log, |log.events|, k, i)
    ensures Latest(log, k, log.events[i])
  {
    forall f | Verdicts(log, k, f) ensures f.ts <= log.events[i].ts {
      var m: nat :| m < |log.events| && log.events[m] == f;
      assert About(log, m, k);
      NoneIsLater(log, k, i, m);
    }
  }

  lemma LastWordCarries(a: Log, b: Log, q: Qid, u: Login, s: Status)
    requires SameThreads(a, b) && Untied(a, Key(q, u)) && Stands(a, q, u, s)
    ensures Stands(b, q, u, s)
  {
    var k := Key(q, u);
    var i: nat :| LastWord(a, |a.events|, k, i) && VerdictOf(a.events[i]) == s;
    var j := SomeLastWord(a, b, k, i);
    LastWordIsLatest(a, k, i);
    LastWordIsLatest(b, k, j);
    assert Latest(a, k, b.events[j]);
  }

  lemma SameMaint(a: Log, b: Log, u: Login)
    requires SameThreads(a, b)
    ensures IsMaint(a, u) <==> IsMaint(b, u)
    ensures u in Reviewers(a) <==> u in Reviewers(b)
  {
    TallySets(a, |a.events|, u);
    TallySets(b, |b.events|, u);
    assert a.events[..|a.events|] == a.events && b.events[..|b.events|] == b.events;
    SameBlanket(a, b, |a.reviews|);
  }

  lemma {:induction false} SameBlanket(a: Log, b: Log, n: nat)
    requires SameThreads(a, b) && n <= |a.reviews|
    ensures ReadReviews(a, n) == ReadReviews(b, n)
  {
    if n > 0 { SameBlanket(a, b, n - 1); }
  }

  lemma SameStanding(a: Log, b: Log, q: Qid, u: Login)
    requires SameThreads(a, b) && Untied(a, Key(q, u))
    ensures forall s :: Stands(a, q, u, s) <==> Stands(b, q, u, s)
    ensures StandingObjection(a, q, u) <==> StandingObjection(b, q, u)
    ensures Rules(a, q, u) <==> Rules(b, q, u)
  {
    forall s ensures Stands(a, q, u, s) <==> Stands(b, q, u, s) {
      if Stands(a, q, u, s) { LastWordCarries(a, b, q, u, s); }
      if Stands(b, q, u, s) { LastWordCarries(b, a, q, u, s); }
    }
    SameMaint(a, b, u);
  }

  /** The gate does not depend on the order in which the comments are read. */
  lemma GateIsOrderFree(a: Log, b: Log)
    requires SameThreads(a, b)
    ensures Gate(a) <==> Gate(b)
  {
    forall u ensures (IsMaint(a, u) <==> IsMaint(b, u)) && (u in Reviewers(a) <==> u in Reviewers(b)) {
      SameMaint(a, b, u);
    }
    assert Reviewers(a) == Reviewers(b);
  }

  /** Nor does whether a tag is green, where nobody's latest verdicts on it differ. */
  lemma ThreadOrderIsIrrelevant(a: Log, b: Log, q: Qid)
    requires SameThreads(a, b) && forall u :: Untied(a, Key(q, u))
    ensures Green(a, q) <==> Green(b, q)
    ensures Gate(a) <==> Gate(b)
  {
    GateIsOrderFree(a, b);
    forall u ensures IsMaint(a, u) <==> IsMaint(b, u) { SameMaint(a, b, u); }
    SameBlanket(a, b, |a.reviews|);
    forall u ensures Rules(a, q, u) <==> Rules(b, q, u)
      ensures StandingObjection(a, q, u) <==> StandingObjection(b, q, u)
    {
      SameStanding(a, b, q, u);
    }
    forall u ensures Stands(a, q, u, Approve) <==> Stands(b, q, u, Approve) {
      SameStanding(a, b, q, u);
    }
    GreenIff(a, q);
    GreenIff(b, q);
  }

  function Earlier(log: Log, e: Event): Log { log.(events := [e] + log.events) }

  lemma FirstReadStands(log: Log, q: Qid, u: Login, e: Event)
    requires Latest(log, Key(q, u), e)
    ensures SameThreads(log, Earlier(log, e)) && Stands(Earlier(log, e), q, u, VerdictOf(e))
  {
    var b, k := Earlier(log, e), Key(q, u);
    forall j | 0 < j < |b.events| && About(b, j, k) ensures b.events[j].ts <= e.ts {
      assert b.events[j] == log.events[j - 1] && Verdicts(log, k, log.events[j - 1]);
    }
    assert b.events[0] == e && About(b, 0, k);
    assert LastWord(b, |b.events|, k, 0);
  }

  /** A person's verdict on a tag is the same in every reading order exactly if the latest ones agree. */
  lemma OrderIsIrrelevantIff(a: Log, q: Qid, u: Login)
    ensures Untied(a, Key(q, u)) <==>
      forall b, s :: SameThreads(a, b) ==> (Stands(a, q, u, s) <==> Stands(b, q, u, s))
  {
    var k := Key(q, u);
    if Untied(a, k) {
      forall b, s | SameThreads(a, b) ensures Stands(a, q, u, s) <==> Stands(b, q, u, s) {
        SameStanding(a, b, q, u);
      }
    } else {
      var e, f :| Latest(a, k, e) && Latest(a, k, f) && VerdictOf(e) != VerdictOf(f);
      FirstReadStands(a, q, u, e);
      FirstReadStands(a, q, u, f);
      OneVerdictStands(a, q, u, VerdictOf(e), VerdictOf(f));
    }
  }

  lemma OneVerdictStands(log: Log, q: Qid, u: Login, s: Status, t: Status)
    requires s != t
    ensures !(Stands(log, q, u, s) && Stands(log, q, u, t))
  {
    StandsIffExplicit(log, q, u, s);
    StandsIffExplicit(log, q, u, t);
  }

  // ---- trimming, and an erased verdict ------------------------------------------------------------------------

  /** Once a batch is trimmed to its green tags, reading the same reviews again recycles nothing. */
  lemma {:induction false} TrimmedStaysTrimmed(log: Log, tags: seq<Qid>)
    ensures Greens(log, Greens(log, tags)) == Greens(log, tags)
    ensures Recycles(log, Greens(log, tags)) == []
  {
    if tags != [] {
      var init, last := tags[..|tags| - 1], tags[|tags| - 1];
      TrimmedStaysTrimmed(log, init);
      var g := Greens(log, init);
      assert (g + [last])[..|g|] == g;
    }
  }

  function Noted(log: Log, q: Qid, u: Login, ts: int): Log {
    log.(events := log.events + [Said(q, u, Note, ts)])
  }

  lemma {:induction false} ReadAllOfPrefix(log: Log, e: Event, n: nat)
    requires n <= |log.events|
    ensures ReadAll(log.(events := log.events + [e]), n) == ReadAll(log, n)
  {
    if n > 0 { ReadAllOfPrefix(log, e, n - 1); }
  }

  lemma NoteErases(ex: map<Key, Record>, q: Qid, u: Login, ts: int, x: Qid)
    ensures RealIn(ex[Key(q, u) := Record(Note, ts)], x) == if x == q then RealIn(ex, q) - {u} else RealIn(ex, x)
  {
    var noted := ex[Key(q, u) := Record(Note, ts)];
    var now, was := RealIn(noted, x), if x == q then RealIn(ex, q) - {u} else RealIn(ex, x);
    forall v ensures v in now <==> v in was
      ensures v in now ==> v in was && now[v] == was[v]
    {
      RealAt(noted, x, v);
      RealAt(ex, x, v);
    }
  }

  lemma RealAt(ex: map<Key, Record>, q: Qid, u: Login)
    ensures u in RealIn(ex, q) <==> Key(q, u) in ex && ex[Key(q, u)].status != Note
    ensures u in RealIn(ex, q) ==> RealIn(ex, q)[u] == ex[Key(q, u)].status
  {
  }

  /** The note is its author's last word on the tag. */
  predicate Supersedes(log: Log, q: Qid, u: Login, ts: int) {
    Person(log, u) && (Key(q, u) in Explicit(log) ==> ts > Explicit(log)[Key(q, u)].ts)
  }

  lemma NotedTable(log: Log, q: Qid, u: Login, ts: int)
    ensures Explicit(Noted(log, q, u, ts)) ==
      if Supersedes(log, q, u, ts) then Explicit(log)[Key(q, u) := Record(Note, ts)] else Explicit(log)
  {
    var n, noted := |log.events|, Noted(log, q, u, ts);
    ReadAllOfPrefix(log, Said(q, u, Note, ts), n);
    assert ReadAll(noted, n + 1) == Read(noted, ReadAll(log, n), Said(q, u, Note, ts));
  }

  /** A later note takes back its author's verdict on the tag; every other verdict stays as it was. */
  lemma NoteErasesVerdict(log: Log, q: Qid, u: Login, ts: int, x: Qid)
    ensures Real(Noted(log, q, u, ts), x) ==
      if x == q && Supersedes(log, q, u, ts) then Real(log, q) - {u} else Real(log, x)
  {
    NotedTable(log, q, u, ts);
    if Supersedes(log, q, u, ts) { NoteErases(Explicit(log), q, u, ts, x); }
  }

  /** So a note is ignored exactly if its author has no verdict on the tag, or has one at least as late. */
  lemma NoteIsIgnoredIff(log: Log, q: Qid, u: Login, ts: int)
    requires Person(log, u)
    ensures Real(Noted(log, q, u, ts), q) == Real(log, q) <==>
      u !in Real(log, q) || (Key(q, u) in Explicit(log) && ts <= Explicit(log)[Key(q, u)].ts)
  {
    NoteErasesVerdict(log, q, u, ts, q);
    if u in Real(log, q) {
      assert Key(q, u) in Explicit(log);
      assert u !in Real(log, q) - {u};
    } else {
      assert Real(log, q) - {u} == Real(log, q);
    }
  }

  /** No review of the whole PR, and nobody known as a maintainer. */
  predicate Bare(log: Log) {
    log.reviews == [] && log.listed == {} && ReadAll(log, |log.events|).maint == {}
  }

  lemma NotedIsBare(log: Log, q: Qid, u: Login, ts: int)
    requires Bare(log)
    ensures Bare(Noted(log, q, u, ts))
  {
    ReadAllOfPrefix(log, Said(q, u, Note, ts), |log.events|);
  }

  lemma GreenWhenBare(log: Log, q: Qid, spoken: map<Login, Status>)
    requires Bare(log) && spoken == Real(log, q)
    ensures Green(log, q) <==>
      (forall u :: u in spoken ==> !Objects(spoken[u])) && exists u :: u in spoken && spoken[u] == Approve
  {
    GreenByAll(log, q, spoken);
  }

  function OneObjection(q: Qid, a: Login, b: Login): Log {
    Log([Said(q, b, Approve, 1), Said(q, a, Reject, 2)], [], {}, {}, {})
  }

  lemma OneObjectionStands(q: Qid, a: Login, b: Login)
    requires a != b && a != "" && b != ""
    ensures var log := OneObjection(q, a, b);
      && Bare(log) && Supersedes(log, q, a, 3)
      && Real(log, q) == map[b := Approve, a := Reject] && Real(log, q) - {a} == map[b := Approve]
  {
    var log, ka, kb := OneObjection(q, a, b), Key(q, a), Key(q, b);
    assert ReadAll(log, 1) == Tally(map[kb := Record(Approve, 1)], {b}, {});
    assert ka in Explicit(log) && kb in Explicit(log) && ka.login == a && kb.login == b;
  }

  lemma NotGreenWith(log: Log, q: Qid, a: Login)
    requires Bare(log) && a in Real(log, q) && Objects(Real(log, q)[a])
    ensures !Green(log, q)
  {
    GreenWhenBare(log, q, Real(log, q));
  }

  lemma GreenWithOnly(log: Log, q: Qid, b: Login)
    requires Bare(log) && Real(log, q) == map[b := Approve]
    ensures Green(log, q)
  {
    var spoken := map[b := Approve];
    GreenWhenBare(log, q, spoken);
    assert b in spoken;
  }

  /** So an objection followed by a note from the same person no longer holds the tag back. */
  lemma NoteErasesObjection(q: Qid, a: Login, b: Login)
    requires a != b && a != "" && b != ""
    ensures !Green(OneObjection(q, a, b), q) && Green(Noted(OneObjection(q, a, b), q, a, 3), q)
  {
    var log := OneObjection(q, a, b);
    OneObjectionStands(q, a, b);
    assert a in map[b := Approve, a := Reject];
    NotGreenWith(log, q, a);
    NoteErasesVerdict(log, q, a, 3, q);
    NotedIsBare(log, q, a, 3);
    GreenWithOnly(Noted(log, q, a, 3), q, b);
  }

  /** Both approve, and the first is a maintainer. */
  function TwoApprovals(q: Qid, a: Login, b: Login): Log {
    Log([Said(q, a, Approve, 1), Said(q, b, Approve, 2)], [], {a}, {}, {})
  }

  /** That opens the gate and makes the tag green. */
  lemma GateOpens(q: Qid, a: Login, b: Login)
    requires a != b && a != "" && b != ""
    ensures Gate(TwoApprovals(q, a, b)) && Green(TwoApprovals(q, a, b), q)
  {
    var log := TwoApprovals(q, a, b);
    var ka, kb := Key(q, a), Key(q, b);
    assert ReadAll(log, 1) == Tally(map[ka := Record(Approve, 1)], {a}, {});
    assert ReadAll(log, 2) == Tally(map[ka := Record(Approve, 1), kb := Record(Approve, 2)], {a, b}, {});
    assert Reviewers(log) == {a, b};
    assert ka in Explicit(log) && ka.login in Real(log, q);
    assert Real(log, q)[a] in MaintVerdicts(log, q);
    forall u | u in Real(log, q) ensures Real(log, q)[u] == Approve {}
  }
}
