/** The rules of settling in terms of the comments, reactions and reviews themselves. */
module ReviewRules {

  import opened SettleVerdicts

  // ---- who said what last ------------------------------------------------------------------------------------------

  ghost predicate SaidBy(log: Log, q: Qid, u: Login, e: Event) {
    u != "" && u !in log.bots && !e.Seen? && e.qid == q && e.login == u
  }

  /** Event `i` is what `u` said last about the tag: the latest, and of equally late ones the first read. */
  ghost predicate LastSaid(log: Log, q: Qid, u: Login, i: int) {
    && 0 <= i < |log.events| && SaidBy(log, q, u, log.events[i])
    && (forall j | 0 <= j < i && SaidBy(log, q, u, log.events[j]) :: log.events[j].ts < log.events[i].ts)
    && (forall j | i < j < |log.events| && SaidBy(log, q, u, log.events[j]) :: log.events[j].ts <= log.events[i].ts)
  }

  predicate Approves(e: Event) { (e.Said? && e.status == Approve) || (e.Reacted? && e.thumbsUp) }

  predicate Opposes(e: Event) {
    (e.Said? && (e.status == Reject || e.status == Revise || e.status == Flag)) || (e.Reacted? && !e.thumbsUp)
  }

  ghost predicate Approving(log: Log, q: Qid, u: Login) {
    exists i :: LastSaid(log, q, u, i) && Approves(log.events[i])
  }

  ghost predicate Opposing(log: Log, q: Qid, u: Login) {
    exists i :: LastSaid(log, q, u, i) && Opposes(log.events[i])
  }

  /** On the list, or with a role in the organisation on any comment or review, or a member who reacted. */
  ghost predicate Maintains(log: Log, u: Login) {
    || u in log.listed
    || (u != "" && u !in log.bots &&
        ((exists e :: e in log.events && e.login == u && ((e.Seen? && e.orgRole) || (e.Reacted? && u in log.members)))
         || exists r :: r in log.reviews && r.login == u && r.orgRole))
  }

  /** Review `i` is the last of `u` on the whole pull request. */
  ghost predicate LastReview(log: Log, u: Login, n: nat, i: int) {
    && 0 <= i < n <= |log.reviews| && log.reviews[i].login == u && u != "" && u !in log.bots
    && (forall j | 0 <= j < i && log.reviews[j].login == u :: log.reviews[j].ts < log.reviews[i].ts)
    && (forall j | i < j < n && log.reviews[j].login == u :: log.reviews[j].ts <= log.reviews[i].ts)
  }

  ghost predicate ApprovesAll(log: Log, u: Login) {
    exists i :: LastReview(log, u, |log.reviews|, i) && log.reviews[i].approved
  }

  /** A person who said something about some tag, or approves the pull request. */
  ghost predicate Reviews(log: Log, u: Login) {
    || (u != "" && u !in log.bots && exists e :: e in log.events && !e.Seen? && e.login == u)
    || ApprovesAll(log, u)
  }

  // ---- the tables say the same --------------------------------------------------------------------------------

  lemma LastSaidIsLastWord(log: Log, q: Qid, u: Login, i: nat)
    ensures LastSaid(log, q, u, i) <==> LastWord(log, |log.events|, Key(q, u), i)
  {
    forall j: nat | j < |log.events| ensures SaidBy(log, q, u, log.events[j]) <==> About(log, j, Key(q, u)) {}
  }

  lemma ApprovingStands(log: Log, q: Qid, u: Login)
    ensures Stands(log, q, u, Approve) <==> Approving(log, q, u)
    ensures StandingObjection(log, q, u) <==> Opposing(log, q, u)
    ensures Rules(log, q, u) <==> IsMaint(log, u) && (Approving(log, q, u) || Opposing(log, q, u))
  {
    forall i: nat ensures LastSaid(log, q, u, i) <==> LastWord(log, |log.events|, Key(q, u), i) {
      LastSaidIsLastWord(log, q, u, i);
    }
    forall i: nat | LastSaid(log, q, u, i)
      ensures Stands(log, q, u, VerdictOf(log.events[i]))
      ensures Approves(log.events[i]) <==> VerdictOf(log.events[i]) == Approve
      ensures Opposes(log.events[i]) <==> Objects(VerdictOf(log.events[i]))
    {
    }
  }

  lemma MaintainsIff(log: Log, u: Login)
    ensures IsMaint(log, u) <==> Maintains(log, u)
  {
    TallySets(log, |log.events|, u);
    assert log.events[..|log.events|] == log.events;
  }

  ghost predicate Unreviewed(log: Log, u: Login, n: nat) {
    n <= |log.reviews| && forall i | 0 <= i < n :: log.reviews[i].login == u ==> u == "" || u in log.bots
  }

  ghost predicate StanceFrom(log: Log, u: Login, n: nat, st: Stance) {
    exists i :: LastReview(log, u, n, i) && st == Stance(log.reviews[i].approved, log.reviews[i].ts)
  }

  lemma NextReview(log: Log, u: Login, n: nat, i: int)
    requires n < |log.reviews| && LastReview(log, u, n, i)
    ensures var r := log.reviews[n];
      if r.login == u && r.ts > log.reviews[i].ts then LastReview(log, u, n + 1, n) else LastReview(log, u, n + 1, i)
  {
  }

  lemma {:induction false} StanceIsLast(log: Log, u: Login, n: nat)
    requires n <= |log.reviews|
    ensures var m := ReadReviews(log, n);
      if u in m then StanceFrom(log, u, n, m[u]) else Unreviewed(log, u, n)
  {
    if n > 0 {
      StanceIsLast(log, u, n - 1);
      var m, r := ReadReviews(log, n - 1), log.reviews[n - 1];
      if u in m {
        StanceMoves(log, u, n - 1, m[u]);
      } else if r.login == u && u != "" && u !in log.bots {
        assert LastReview(log, u, n, n - 1);
      }
    }
  }

  lemma StanceMoves(log: Log, u: Login, n: nat, st: Stance)
    requires n < |log.reviews| && StanceFrom(log, u, n, st)
    ensures var r := log.reviews[n];
      StanceFrom(log, u, n + 1, if r.login == u && r.ts > st.ts then Stance(r.approved, r.ts) else st)
  {
    var i :| LastReview(log, u, n, i) && st == Stance(log.reviews[i].approved, log.reviews[i].ts);
    NextReview(log, u, n, i);
  }

  lemma LastReviewIsUnique(log: Log, u: Login, i: int, j: int)
    requires LastReview(log, u, |log.reviews|, i) && LastReview(log, u, |log.reviews|, j)
    ensures i == j
  {
  }

  lemma ApprovesAllIff(log: Log, u: Login)
    ensures u in Blanket(log) <==> ApprovesAll(log, u)
  {
    StanceIsLast(log, u, |log.reviews|);
    if ApprovesAll(log, u) {
      var i :| LastReview(log, u, |log.reviews|, i) && log.reviews[i].approved;
      var states := ReadReviews(log, |log.reviews|);
      assert u in states;
      var j :| LastReview(log, u, |log.reviews|, j) && states[u] == Stance(log.reviews[j].approved, log.reviews[j].ts);
      LastReviewIsUnique(log, u, i, j);
    }
  }

  lemma ReviewsIff(log: Log, u: Login)
    ensures u in Reviewers(log) <==> Reviews(log, u)
  {
    TallySets(log, |log.events|, u);
    assert log.events[..|log.events|] == log.events;
    ApprovesAllIff(log, u);
  }

  // ---- the rules ----------------------------------------------------------------------------------------------

  /**
   A tag is green: if a maintainer approves or opposes it, exactly if none opposes it; otherwise exactly if nobody
   opposes it and somebody approves it or the whole pull request.
   */
  lemma GreenByTheRules(log: Log, q: Qid)
    ensures Green(log, q) <==>
      if exists u :: Maintains(log, u) && (Approving(log, q, u) || Opposing(log, q, u))
      then forall u :: Maintains(log, u) ==> !Opposing(log, q, u)
      else (forall u :: !Opposing(log, q, u)) && exists u :: Approving(log, q, u) || ApprovesAll(log, u)
  {
    GreenIff(log, q);
    forall u
      ensures Stands(log, q, u, Approve) <==> Approving(log, q, u)
      ensures StandingObjection(log, q, u) <==> Opposing(log, q, u)
      ensures Rules(log, q, u) <==> Maintains(log, u) && (Approving(log, q, u) || Opposing(log, q, u))
      ensures IsMaint(log, u) <==> Maintains(log, u)
      ensures u in Blanket(log) <==> ApprovesAll(log, u)
    {
      ApprovingStands(log, q, u);
      MaintainsIff(log, u);
      ApprovesAllIff(log, u);
    }
  }

  /** The gate is open exactly if two people review, and a maintainer does. */
  lemma GateByTheRules(log: Log)
    ensures Gate(log) <==>
      && (exists u, v :: u != v && Reviews(log, u) && Reviews(log, v))
      && exists u :: Reviews(log, u) && Maintains(log, u)
  {
    forall u ensures (u in Reviewers(log) <==> Reviews(log, u)) && (IsMaint(log, u) <==> Maintains(log, u)) {
      ReviewsIff(log, u);
      MaintainsIff(log, u);
    }
    TwoOrMore(Reviewers(log));
    if u, v :| u in Reviewers(log) && v in Reviewers(log) && u != v { assert Reviews(log, u) && Reviews(log, v); }
    if u, v :| u != v && Reviews(log, u) && Reviews(log, v) { assert u in Reviewers(log) && v in Reviewers(log); }
  }

  lemma TwoOrMore(s: set<Login>)
    ensures |s| >= 2 <==> exists u, v :: u in s && v in s && u != v
  {
    if |s| >= 2 {
      var u :| u in s;
      var rest := s - {u};
      assert |rest| >= 1;
      var v :| v in rest;
      assert u in s && v in s && u != v;
    }
    if u, v :| u in s && v in s && u != v {
      assert s == {u, v} + (s - {u, v});
      assert |{u, v}| == 2;
    }
  }
}
