/** With the reviews, master and the merge state frozen, an open batch comes to rest. */
module PollerRest {

  import opened Options
  import opened SettleVerdicts
  import opened Poller
  import B = TagBatch
  import T = TagTrimming
  import R = TagRoundTrip

  datatype World = World(log: Log, tags: seq<Qid>, conflicting: bool, tip: Sha, flake: bool)
  datatype Config = Config(st: State, w: World)

  /** An empty diff is an error, never an empty classification. */
  function ViewOf(w: World): View {
    var cls := if w.tags == [] then Failed else Got(ClassifiedOf(w.log, w.tags));
    View(Got(true), Got(false), cls, Got(w.conflicting), Got(w.tip), Got(w.flake))
  }

  function ChoiceAt(c: Config): Choice { Choose(c.st, ViewOf(c.w)) }

  /** A rebuild re-applies the tags on the PR that the approved file lists. */
  function Carried(tags: seq<Qid>, approved: set<Qid>): (r: seq<Qid>)
    ensures forall q :: q in r <==> q in tags && q in approved
  {
    if tags == [] then [] else
      var last := tags[|tags| - 1];
      if last in approved then Carried(tags[..|tags| - 1], approved) + [last] else Carried(tags[..|tags| - 1], approved)
  }

  /** The tags on the PR after a tick: a trim leaves the green ones, even if it is cut off after its push. */
  function TagsAfter(c: Config, fate: Fate): seq<Qid> {
    match ChoiceAt(c)
    case Do(Settle) => if fate.trim.TrimFailed? then c.w.tags else Greens(c.w.log, c.w.tags)
    case Do(Rebuild) =>
      if fate.approved.Some? && fate.fetched.Some? && fate.rebuilt then Carried(c.w.tags, fate.approved.value)
      else c.w.tags
    case _ => c.w.tags
  }

  function OutcomeAt(c: Config, fate: Fate): Outcome { Step(c.st, ViewOf(c.w), fate, false).1 }

  /** A rebuild that would re-apply no tag at all is refused: its branch would not differ from master. */
  predicate Possible(c: Config, fate: Fate) {
    ChoiceAt(c) == Do(Rebuild) && fate.rebuilt && fate.approved.Some? ==> Carried(c.w.tags, fate.approved.value) != []
  }

  /** A rebuild can also be cut off after its push, so that the tags have changed although it failed. */
  predicate CutOffRebuild(c: Config, fate: Fate, tags: seq<Qid>) {
    && ChoiceAt(c) == Do(Rebuild) && fate.approved.Some? && fate.fetched.Some? && !fate.rebuilt
    && tags == Carried(c.w.tags, fate.approved.value) != []
  }

  /**
   One tick, and whatever CI and mergeability do until the next. `steady` says that a conflict with the frozen
   master can go away but not appear.
   */
  ghost predicate Next(c: Config, fate: Fate, d: Config, steady: bool) {
    && Possible(c, fate)
    && d.st == Step(c.st, ViewOf(c.w), fate, false).0
    && d.w.log == c.w.log && d.w.tip == c.w.tip
    && (d.w.tags == TagsAfter(c, fate) || CutOffRebuild(c, fate, d.w.tags))
    && (fate.fetched.Some? ==> fate.fetched == Some(c.w.tip))
    && (steady && d.w.conflicting ==> c.w.conflicting)
  }

  // ---- what of all this the choice depends on ------------------------------------------------------------------

  /**
   `pending`: some tag on the PR is recycled. `stale`: no rebuild onto this master yet. `unhealed`: no self-heal
   since the last trim or rebuild.
   */
  datatype Signals = Signals(
    settled: bool, gate: bool, empty: bool, pending: bool, conflicting: bool, stale: bool, unhealed: bool, flake: bool)

  function SignalsOf(c: Config): Signals {
    Signals(
      c.st.settledPr == c.st.currentPr, Gate(c.w.log), c.w.tags == [], Recycles(c.w.log, c.w.tags) != [],
      c.w.conflicting, c.st.conflictSha != Some(c.w.tip), c.st.retriggeredPr != c.st.currentPr, c.w.flake)
  }

  function Pick(s: Signals): Choice {
    if s.empty then Raise
    else if !s.settled then if s.gate then Do(Settle) else Wait
    else if s.gate && s.pending then Do(Settle)
    else if s.conflicting && s.stale then Do(Rebuild)
    else if s.unhealed && s.flake then Do(Heal) else Wait
  }

  lemma ChoiceIsPicked(c: Config)
    requires c.st.currentPr.Some?
    ensures ChoiceAt(c) == Pick(SignalsOf(c))
  {
  }

  lemma CarriedIsClean(log: Log, tags: seq<Qid>, approved: set<Qid>)
    requires Recycles(log, tags) == []
    ensures Recycles(log, Carried(tags, approved)) == []
  {
    var r := Recycles(log, Carried(tags, approved));
    if r != [] {
      EachTagIsSorted(log, Carried(tags, approved), r[0]);
      EachTagIsSorted(log, tags, r[0]);
    }
  }

  lemma SettleEffect(c: Config, fate: Fate)
    requires c.st.currentPr.Some? && ChoiceAt(c) == Do(Settle)
    ensures var st, o := Step(c.st, ViewOf(c.w), fate, false).0, OutcomeAt(c, fate);
      if o.Completed? then
        && st == c.st.(settledPr := c.st.currentPr, retriggeredPr := st.retriggeredPr)
        && st.retriggeredPr == (if c.st.settledPr == c.st.currentPr then None else c.st.retriggeredPr)
      else st == c.st
    ensures OutcomeAt(c, fate).Completed? ==> TagsAfter(c, fate) == Greens(c.w.log, c.w.tags)
    ensures TagsAfter(c, fate) == c.w.tags || TagsAfter(c, fate) == Greens(c.w.log, c.w.tags)
  {
  }

  lemma RebuildEffect(c: Config, fate: Fate)
    requires c.st.currentPr.Some? && ChoiceAt(c) == Do(Rebuild)
    ensures var st, o := Step(c.st, ViewOf(c.w), fate, false).0, OutcomeAt(c, fate);
      || (st == c.st && !o.Completed?)
      || (fate.fetched.Some? && st == c.st.(conflictSha := fate.fetched, retriggeredPr := None))
    ensures TagsAfter(c, fate) == c.w.tags
      || (fate.approved.Some? && TagsAfter(c, fate) == Carried(c.w.tags, fate.approved.value))
  {
  }

  lemma {:induction false} CarriedKeepsIff(tags: seq<Qid>, approved: set<Qid>)
    ensures |Carried(tags, approved)| <= |tags|
    ensures Carried(tags, approved) == tags <==> forall q | q in tags :: q in approved
  {
    if tags != [] {
      var init, last := tags[..|tags| - 1], tags[|tags| - 1];
      CarriedKeepsIff(init, approved);
      assert tags == init + [last];
      var kept := Carried(init, approved);
      if last in approved { assert (kept + [last])[..|kept|] == kept; }
    }
  }

  /** A completed rebuild keeps the tags of the PR exactly if the approved file lists them all. */
  lemma RebuildKeepsTagsIff(c: Config, fate: Fate, d: Config, steady: bool)
    requires c.st.currentPr.Some? && Next(c, fate, d, steady)
    requires ChoiceAt(c) == Do(Rebuild) && OutcomeAt(c, fate).Completed?
    ensures fate.approved.Some? && (d.w.tags == c.w.tags <==> forall q | q in c.w.tags :: q in fate.approved.value)
  {
    if fate.approved.Some? { CarriedKeepsIff(c.w.tags, fate.approved.value); }
  }

  lemma HealEffect(c: Config, fate: Fate)
    requires c.st.currentPr.Some? && ChoiceAt(c) == Do(Heal)
    ensures var st, o := Step(c.st, ViewOf(c.w), fate, false).0, OutcomeAt(c, fate);
      st == if o.Completed? then c.st.(retriggeredPr := c.st.currentPr) else c.st
    ensures TagsAfter(c, fate) == c.w.tags
  {
  }

  lemma IdleEffect(c: Config, fate: Fate)
    requires c.st.currentPr.Some? && !ChoiceAt(c).Do?
    ensures Step(c.st, ViewOf(c.w), fate, false).0 == c.st && !OutcomeAt(c, fate).Completed?
    ensures TagsAfter(c, fate) == c.w.tags
  {
  }

  /** How the signals `t` after a tick can differ from those before it. */
  predicate Follows(s: Signals, t: Signals, done: bool, steady: bool) {
    && t.gate == s.gate && (steady && t.conflicting ==> s.conflicting)
    && match Pick(s)
       case Do(Settle) =>
         && t.stale == s.stale && (t.unhealed ==> s.unhealed || done) && (t.pending ==> s.pending)
         && (if done then t.settled && !t.pending else t.settled == s.settled)
       case Do(Rebuild) =>
         && t.settled && (t.pending ==> s.pending)
         && (!t.stale || (!done && t.unhealed == s.unhealed))
       case Do(Heal) =>
         && t.settled && t.stale == s.stale && (t.pending ==> s.pending)
         && (if done then !t.unhealed else t.unhealed == s.unhealed)
       case _ =>
         && !done && t.settled == s.settled && t.stale == s.stale && t.pending == s.pending && t.unhealed == s.unhealed
  }

  lemma SignalsFollow(c: Config, fate: Fate, d: Config, steady: bool)
    requires c.st.currentPr.Some? && Next(c, fate, d, steady)
    ensures d.st.currentPr == c.st.currentPr
    ensures Follows(SignalsOf(c), SignalsOf(d), OutcomeAt(c, fate).Completed?, steady)
  {
    ChoiceIsPicked(c);
    match ChoiceAt(c) {
      case Do(Settle) =>
        SettleEffect(c, fate);
        TrimmedStaysTrimmed(c.w.log, c.w.tags);
      case Do(Rebuild) =>
        RebuildEffect(c, fate);
        if !SignalsOf(c).pending && fate.approved.Some? {
          CarriedIsClean(c.w.log, c.w.tags, fate.approved.value);
        }
      case Do(Heal) => HealEffect(c, fate);
      case _ => IdleEffect(c, fate);
    }
  }

  // ---- how many ticks can still complete something -------------------------------------------------------------

  function One(b: bool): nat { if b then 1 else 0 }

  function Rank(s: Signals, steady: bool): nat {
    var settle, rebuild := s.gate && (s.settled ==> s.pending), s.stale && (steady ==> s.conflicting);
    if !s.settled && !s.gate then 0
    else
      One(settle) + One(rebuild) + One(settle || rebuild || s.unhealed)
        + One(!steady && rebuild && (settle || s.unhealed))
  }

  /** A tick that completes something uses up some of the rank, and no tick adds to it. */
  lemma RankDrops(s: Signals, t: Signals, done: bool, steady: bool)
    requires Follows(s, t, done, steady)
    ensures Rank(t, steady) + One(done) <= Rank(s, steady)
  {
  }

  ghost predicate Run(cs: seq<Config>, fates: seq<Fate>, steady: bool) {
    && |cs| == |fates| + 1 && cs[0].st.currentPr.Some?
    && forall i | 0 <= i < |fates| :: Next(cs[i], fates[i], cs[i + 1], steady)
  }

  function Count(done: seq<bool>): nat {
    if done == [] then 0 else Count(done[..|done| - 1]) + One(done[|done| - 1])
  }

  /** Which of the ticks completed a settle, a rebuild or a self-heal. */
  function Completions(cs: seq<Config>, fates: seq<Fate>): seq<bool>
    requires |fates| <= |cs|
  {
    seq(|fates|, i requires 0 <= i < |fates| => OutcomeAt(cs[i], fates[i]).Completed?)
  }

  lemma {:induction false} CountIsRanked(ranks: seq<nat>, done: seq<bool>, n: nat)
    requires n <= |done| < |ranks|
    requires forall i | 0 <= i < |done| :: ranks[i + 1] + One(done[i]) <= ranks[i]
    ensures Count(done[..n]) + ranks[n] <= ranks[0]
  {
    if n > 0 {
      CountIsRanked(ranks, done, n - 1);
      assert done[..n][..n - 1] == done[..n - 1];
    }
  }

  lemma {:induction false} CurrentStays(cs: seq<Config>, fates: seq<Fate>, steady: bool, n: nat)
    requires Run(cs, fates, steady) && n <= |fates|
    ensures cs[n].st.currentPr == cs[0].st.currentPr
  {
    if n > 0 {
      CurrentStays(cs, fates, steady, n - 1);
      SignalsFollow(cs[n - 1], fates[n - 1], cs[n], steady);
    }
  }

  /**
   At most three ticks complete anything, whichever others fail; four if conflicts may come back on the same master.
   */
  lemma FewTicksAct(cs: seq<Config>, fates: seq<Fate>, steady: bool)
    requires Run(cs, fates, steady)
    ensures Count(Completions(cs, fates)) <= if steady then 3 else 4
  {
    var done := Completions(cs, fates);
    var ranks := seq(|cs|, i requires 0 <= i < |cs| => Rank(SignalsOf(cs[i]), steady));
    forall i | 0 <= i < |done| ensures ranks[i + 1] + One(done[i]) <= ranks[i] {
      CurrentStays(cs, fates, steady, i);
      SignalsFollow(cs[i], fates[i], cs[i + 1], steady);
      RankDrops(SignalsOf(cs[i]), SignalsOf(cs[i + 1]), done[i], steady);
    }
    CountIsRanked(ranks, done, |done|);
    assert done[..|done|] == done;
  }

  // ---- four ticks ------------------------------------------------------------------------------------------------

  function Fresh(pr: Pr): State { State(Some(pr), 0, "", None, None, None, None) }

  /** A settle, a self-heal, a rebuild because a conflict came up on the same master, and a second self-heal. */
  function FourTicks(log: Log, q: Qid, pr: Pr, tip: Sha): seq<Config> {
    var calm, conflict := World(log, [q], false, tip, true), World(log, [q], true, tip, true);
    var settled := Fresh(pr).(settledPr := Some(pr));
    [ Config(Fresh(pr), calm),
      Config(settled, calm),
      Config(settled.(retriggeredPr := Some(pr)), conflict),
      Config(settled.(conflictSha := Some(tip)), calm),
      Config(settled.(conflictSha := Some(tip), retriggeredPr := Some(pr)), calm) ]
  }

  lemma GreenTagStays(log: Log, q: Qid)
    requires Green(log, q)
    ensures Greens(log, [q]) == [q] && Recycles(log, [q]) == [] && Carried([q], {q}) == [q]
  {
    assert [q][..0] == [];
  }

  function Able(q: Qid, tip: Sha): Fate {
    Fate(false, false, NotOpened, TrimDone, Some({q}), Some(tip), true, true)
  }

  ghost predicate Acts(c: Config, fate: Fate, d: Config) {
    Next(c, fate, d, false) && OutcomeAt(c, fate).Completed?
  }

  /** Each of the first `n` ticks completes its step and leads to the next configuration. */
  ghost predicate Acting(cs: seq<Config>, fate: Fate, n: nat)
    requires n < |cs|
  {
    n == 0 || (Acting(cs, fate, n - 1) && Acts(cs[n - 1], fate, cs[n]))
  }

  lemma HealActs(c: Config, q: Qid, d: Config)
    requires c.st.currentPr.Some? && ChoiceAt(c) == Do(Heal)
    requires d == Config(c.st.(retriggeredPr := c.st.currentPr), d.w)
    requires d.w.log == c.w.log && d.w.tip == c.w.tip && d.w.tags == c.w.tags
    ensures Acts(c, Able(q, c.w.tip), d)
  {
    HealEffect(c, Able(q, c.w.tip));
  }

  lemma RebuildStep(st: State, v: View, fate: Fate)
    requires Choose(st, v) == Do(Rebuild) && fate.approved.Some? && fate.fetched.Some? && fate.rebuilt
    ensures Step(st, v, fate, false) == (st.(conflictSha := fate.fetched, retriggeredPr := None), Completed(Rebuild))
  {
  }

  lemma RebuildTags(c: Config, fate: Fate, approved: set<Qid>)
    requires ChoiceAt(c) == Do(Rebuild) && fate.approved == Some(approved)
      && Carried(c.w.tags, approved) == c.w.tags != []
    ensures TagsAfter(c, fate) == c.w.tags && Possible(c, fate)
  {
  }

  lemma RebuildActs(c: Config, q: Qid, d: Config)
    requires c.st.currentPr.Some? && ChoiceAt(c) == Do(Rebuild) && Carried(c.w.tags, {q}) == c.w.tags
    requires d == Config(c.st.(conflictSha := Some(c.w.tip), retriggeredPr := None), d.w)
    requires d.w.log == c.w.log && d.w.tip == c.w.tip && d.w.tags == c.w.tags != []
    ensures Acts(c, Able(q, c.w.tip), d)
  {
    RebuildStep(c.st, ViewOf(c.w), Able(q, c.w.tip));
    RebuildTags(c, Able(q, c.w.tip), {q});
  }

  lemma FirstActs(log: Log, q: Qid, pr: Pr, tip: Sha)
    requires Gate(log) && Green(log, q)
    ensures var cs := FourTicks(log, q, pr, tip); Acts(cs[0], Able(q, tip), cs[1])
  {
    var cs := FourTicks(log, q, pr, tip);
    GreenTagStays(log, q);
    ChoiceIsPicked(cs[0]);
  }

  lemma SecondActs(log: Log, q: Qid, pr: Pr, tip: Sha)
    requires Gate(log) && Green(log, q)
    ensures var cs := FourTicks(log, q, pr, tip); Acts(cs[1], Able(q, tip), cs[2])
  {
    var cs := FourTicks(log, q, pr, tip);
    GreenTagStays(log, q);
    ChoiceIsPicked(cs[1]);
    HealActs(cs[1], q, cs[2]);
  }

  lemma ThirdActs(log: Log, q: Qid, pr: Pr, tip: Sha)
    requires Gate(log) && Green(log, q)
    ensures var cs := FourTicks(log, q, pr, tip); Acts(cs[2], Able(q, tip), cs[3])
  {
    var cs := FourTicks(log, q, pr, tip);
    GreenTagStays(log, q);
    ChoiceIsPicked(cs[2]);
    RebuildActs(cs[2], q, cs[3]);
  }

  lemma FourthActs(log: Log, q: Qid, pr: Pr, tip: Sha)
    requires Gate(log) && Green(log, q)
    ensures var cs := FourTicks(log, q, pr, tip); Acts(cs[3], Able(q, tip), cs[4])
  {
    var cs := FourTicks(log, q, pr, tip);
    GreenTagStays(log, q);
    ChoiceIsPicked(cs[3]);
    HealActs(cs[3], q, cs[4]);
  }

  lemma ActingStep(cs: seq<Config>, fate: Fate, n: nat)
    requires n + 1 < |cs| && Acting(cs, fate, n) && Acts(cs[n], fate, cs[n + 1])
    ensures Acting(cs, fate, n + 1)
  {
  }

  lemma {:induction false} AllAct(log: Log, q: Qid, pr: Pr, tip: Sha, n: nat)
    requires Gate(log) && Green(log, q) && n <= 4
    ensures Acting(FourTicks(log, q, pr, tip), Able(q, tip), n)
  {
    if n > 0 {
      var cs := FourTicks(log, q, pr, tip);
      AllAct(log, q, pr, tip, n - 1);
      if n == 1 { FirstActs(log, q, pr, tip); }
      else if n == 2 { SecondActs(log, q, pr, tip); }
      else if n == 3 { ThirdActs(log, q, pr, tip); }
      else { FourthActs(log, q, pr, tip); }
      ActingStep(cs, Able(q, tip), n - 1);
    }
  }

  /** With an open gate and a green tag, four ticks can act. */
  lemma FourTicksCanAct(log: Log, q: Qid, pr: Pr, tip: Sha) returns (cs: seq<Config>, fates: seq<Fate>)
    requires Gate(log) && Green(log, q)
    ensures cs == FourTicks(log, q, pr, tip) && |fates| == 4
    ensures Run(cs, fates, false) && Count(Completions(cs, fates)) == 4
  {
    cs, fates := FourTicks(log, q, pr, tip), seq(4, _ => Able(q, tip));
    AllAct(log, q, pr, tip, 4);
    ActingIsARun(cs, Able(q, tip), fates);
  }

  /** It happens: two approvals, one of them a maintainer's, and a conflict that comes and goes. */
  lemma FourTicksHappen(q: Qid, a: Login, b: Login, pr: Pr, tip: Sha) returns (cs: seq<Config>, fates: seq<Fate>)
    requires a != b && a != "" && b != ""
    ensures cs == FourTicks(TwoApprovals(q, a, b), q, pr, tip) && |fates| == 4
    ensures Run(cs, fates, false) && Count(Completions(cs, fates)) == 4
  {
    GateOpens(q, a, b);
    cs, fates := FourTicksCanAct(TwoApprovals(q, a, b), q, pr, tip);
  }

  lemma {:induction false} ActingAt(cs: seq<Config>, fate: Fate, n: nat, i: nat)
    requires i < n < |cs| && Acting(cs, fate, n)
    ensures Next(cs[i], fate, cs[i + 1], false) && OutcomeAt(cs[i], fate).Completed?
  {
    if i < n - 1 { ActingAt(cs, fate, n - 1, i); }
  }

  lemma ActingIsARun(cs: seq<Config>, fate: Fate, fates: seq<Fate>)
    requires |cs| == |fates| + 1 && cs[0].st.currentPr.Some? && Acting(cs, fate, |fates|)
    requires forall i | 0 <= i < |fates| :: fates[i] == fate
    ensures Run(cs, fates, false) && Count(Completions(cs, fates)) == |fates|
  {
    forall i | 0 <= i < |fates| ensures Next(cs[i], fates[i], cs[i + 1], false) && Completions(cs, fates)[i] {
      ActingAt(cs, fate, |fates|, i);
    }
    AllCount(Completions(cs, fates));
  }

  lemma {:induction false} AllCount(done: seq<bool>)
    requires forall i | 0 <= i < |done| :: done[i]
    ensures Count(done) == |done|
  {
    if done != [] { AllCount(done[..|done| - 1]); }
  }

  // ---- coming to rest --------------------------------------------------------------------------------------------

  /**
   What the bot has to work with: the approved file's tags that master does not have already, which lists of tags a
   trim of the branch can remove, and which can be re-applied to master.
   */
  datatype Means = Means(approved: Option<set<Qid>>, trims: seq<Qid> -> bool, applies: seq<Qid> -> bool)

  function Recycled(c: Config): seq<Qid> { Recycles(c.w.log, c.w.tags) }

  /** The trim goes through; where nothing is recycled there is nothing to remove. */
  predicate Trims(c: Config, m: Means) { Recycled(c) == [] || m.trims(Recycled(c)) }

  /** The rebuild goes through: some tag is re-applied, and none of them fails to. */
  predicate Rebuilds(c: Config, m: Means) {
    m.approved.Some? && var tags := Carried(c.w.tags, m.approved.value); tags != [] && m.applies(tags)
  }

  function Good(c: Config, m: Means): Fate {
    var trim := if Trims(c, m) then TrimDone else TrimFailed;
    Fate(false, false, NotOpened, trim, m.approved, Some(c.w.tip), Rebuilds(c, m), true)
  }

  /** A tick whose steps succeed if they can, in a world that is otherwise frozen. */
  function Advance(c: Config, m: Means): Config {
    Config(Step(c.st, ViewOf(c.w), Good(c, m), false).0, c.w.(tags := TagsAfter(c, Good(c, m))))
  }

  ghost predicate Moves(c: Config, d: Config, m: Means) { d == Advance(c, m) }

  /** Successive ticks like that. */
  ghost predicate Quiet(cs: seq<Config>, m: Means) {
    forall i | 0 < i < |cs| :: Moves(cs[i - 1], cs[i], m)
  }

  lemma {:induction false} Persists(cs: seq<Config>, p: (Config, nat) -> bool, n: nat)
    requires n < |cs| && p(cs[0], 0) && forall i: nat | 0 < i < |cs| && p(cs[i - 1], i - 1) :: p(cs[i], i)
    ensures p(cs[n], n)
  {
    if n > 0 { Persists(cs, p, n - 1); }
  }

  /** Some tag is on the PR, and one that is green if a settle is to trim it. */
  ghost predicate Alive(c: Config) {
    c.w.tags != [] && (Gate(c.w.log) ==> exists q :: q in c.w.tags && Green(c.w.log, q))
  }

  /** A settle is due and its trim is refused. */
  predicate Refused(c: Config, m: Means) { Gate(c.w.log) && !Trims(c, m) }

  /** A rebuild is called for, now or after the settle, and there is no approved file to rebuild from. */
  predicate Bereft(s: Signals, m: Means) {
    m.approved.None? && s.conflicting && s.stale && (s.settled || s.gate)
  }

  predicate Stuck(c: Config, m: Means) { Refused(c, m) || Bereft(SignalsOf(c), m) }

  /** What a settle leaves are the green tags, and what a rebuild leaves are some of those it finds. */
  lemma StaysAlive(c: Config, m: Means)
    requires c.st.currentPr.Some? && Alive(c)
    ensures Alive(Advance(c, m))
  {
    var log, tags, after := c.w.log, c.w.tags, TagsAfter(c, Good(c, m));
    ChoiceIsPicked(c);
    if Gate(log) {
      var q :| q in tags && Green(log, q);
      EachTagIsSorted(log, tags, q);
      if ChoiceAt(c) == Do(Rebuild) && after != tags {
        EachTagIsSorted(log, tags, after[0]);
        assert after[0] in after;
      }
    }
  }

  /** Whether the tick completes what it sets out to do. */
  predicate Done(c: Config, m: Means) {
    match Pick(SignalsOf(c))
    case Do(Settle) => Trims(c, m)
    case Do(Rebuild) => Rebuilds(c, m)
    case Do(_) => true
    case _ => false
  }

  /** A rebuild that fails is not tried again on the same master; other failures leave everything as it was. */
  lemma NextSignals(c: Config, m: Means)
    requires c.st.currentPr.Some?
    ensures var s, d := SignalsOf(c), Advance(c, m);
      && d.st.currentPr == c.st.currentPr && d.w.log == c.w.log
      && Follows(s, SignalsOf(d), Done(c, m), true) && SignalsOf(d).conflicting == s.conflicting
      && (!Done(c, m) ==>
         d == c || (ChoiceAt(c) == Do(Rebuild) && m.approved.Some? && d.w == c.w && !SignalsOf(d).stale))
  {
    ChoiceIsPicked(c);
    SignalsFollow(c, Good(c, m), Advance(c, m), true);
  }

  lemma StuckStays(c: Config, m: Means, d: Config)
    requires c.st.currentPr.Some? && Alive(c) && Moves(c, d, m)
    ensures Stuck(d, m) == Stuck(c, m)
    ensures Stuck(c, m) ==> ChoiceAt(c) != Wait
  {
    ChoiceIsPicked(c);
    NextSignals(c, m);
    StaysAlive(c, m);
  }

  /** Not yet at rest and not stuck: the tick moves the batch on. */
  lemma MovesOrRests(c: Config, m: Means, d: Config)
    requires c.st.currentPr.Some? && Alive(c) && Moves(c, d, m) && !Stuck(c, m)
    ensures if ChoiceAt(c) == Wait then d == c else Rank(SignalsOf(d), true) < Rank(SignalsOf(c), true)
  {
    ChoiceIsPicked(c);
    NextSignals(c, m);
    RankDrops(SignalsOf(c), SignalsOf(d), Done(c, m), true);
  }

  /** After `n` successful ticks from rank `r`: at rest, or at least `n` further down; or stuck, if it was. */
  ghost predicate UnderWay(c: Config, m: Means, n: nat, r: nat, stuck: bool) {
    && c.st.currentPr.Some? && Alive(c) && Stuck(c, m) == stuck
    && (stuck || ChoiceAt(c) == Wait || Rank(SignalsOf(c), true) + n <= r)
  }

  lemma OneMore(c: Config, d: Config, m: Means, n: nat, r: nat, stuck: bool)
    requires UnderWay(c, m, n, r, stuck) && Moves(c, d, m)
    ensures UnderWay(d, m, n + 1, r, stuck)
  {
    NextSignals(c, m);
    StaysAlive(c, m);
    StuckStays(c, m, d);
    if !stuck { MovesOrRests(c, m, d); }
  }

  lemma StaysUnderWay(cs: seq<Config>, m: Means, n: nat, r: nat, stuck: bool)
    requires Quiet(cs, m) && n < |cs| && UnderWay(cs[0], m, 0, r, stuck)
    ensures UnderWay(cs[n], m, n, r, stuck)
  {
    var p := (c: Config, i: nat) => UnderWay(c, m, i, r, stuck);
    forall i: nat | 0 < i < |cs| && p(cs[i - 1], i - 1) ensures p(cs[i], i) {
      OneMore(cs[i - 1], cs[i], m, i - 1, r, stuck);
    }
    Persists(cs, p, n);
  }

  lemma RestsOrSticks(c: Config, m: Means, n: nat, stuck: bool)
    requires UnderWay(c, m, n, 3, stuck) && n >= 3
    ensures ChoiceAt(c) == Wait <==> !stuck
  {
    var d := Advance(c, m);
    StuckStays(c, m, d);
    if !stuck { MovesOrRests(c, m, d); }
  }

  /**
   From the third tick on the decision is to wait, for good, exactly if there is a tag to wait for, the trim of the
   settle is not refused and no rebuild lacks its approved file. What that file lists does not matter.
   */
  lemma RestsAfterThree(cs: seq<Config>, m: Means, n: nat)
    requires Quiet(cs, m) && 3 <= n < |cs| && cs[0].st.currentPr.Some?
    ensures Decided(cs[n].st, ViewOf(cs[n].w)) == Hold <==> Alive(cs[0]) && !Stuck(cs[0], m)
  {
    if Alive(cs[0]) {
      StaysUnderWay(cs, m, n, 3, Stuck(cs[0], m));
      RestsOrSticks(cs[n], m, n, Stuck(cs[0], m));
    } else if cs[0].w.tags == [] {
      EmptyForGood(cs, m, 0, n);
    } else {
      NoneIsGreen(cs[0].w.log, cs[0].w.tags);
      NoGreenNeverRests(cs, m, n);
    }
    DecidedIsChoice(cs, m, n);
  }

  /** The PR stays the current one, so the decision is what the tick sets out to do. */
  lemma DecidedIsChoice(cs: seq<Config>, m: Means, n: nat)
    requires Quiet(cs, m) && n < |cs| && cs[0].st.currentPr.Some?
    ensures cs[n].st.currentPr.Some? && Decided(cs[n].st, ViewOf(cs[n].w)) == VerdictFor(ChoiceAt(cs[n]))
  {
    var p := (c: Config, i: nat) => c.st.currentPr.Some?;
    forall i: nat | 0 < i < |cs| && p(cs[i - 1], i - 1) ensures p(cs[i], i) { NextSignals(cs[i - 1], m); }
    Persists(cs, p, n);
  }

  lemma {:induction false} NoneIsGreen(log: Log, tags: seq<Qid>)
    requires forall q | q in tags :: !Green(log, q)
    ensures Greens(log, tags) == []
  {
    if Greens(log, tags) != [] { EachTagIsSorted(log, tags, Greens(log, tags)[0]); }
  }

  /** The trims that go through on the files of a branch. */
  function TrimsOf(files: B.Files, home: Qid -> B.Path): seq<Qid> -> bool {
    qs => B.Trim(files, Entries(qs, home)).Some?
  }

  function Entries(qs: seq<Qid>, home: Qid -> B.Path): seq<B.Recycled> {
    seq(|qs|, i requires 0 <= i < |qs| => B.Recycled(qs[i], home(qs[i])))
  }

  /** On the files of a branch: a trim is refused unless its tags are each on one line and on different ones. */
  lemma RestsIfTrimmable(cs: seq<Config>, m: Means, files: B.Files, home: Qid -> B.Path, n: nat)
    requires Quiet(cs, m) && 3 <= n < |cs| && cs[0].st.currentPr.Some?
    requires R.AllTidy(files) && m.trims == TrimsOf(files, home)
    ensures var c := cs[0];
      var rec := Entries(Recycled(c), home);
      Decided(cs[n].st, ViewOf(cs[n].w)) == Hold <==>
        && Alive(c) && !Bereft(SignalsOf(c), m)
        && (Gate(c.w.log) ==>
              forall r | r in rec :: r.path in files && T.Trimmable(files[r.path], B.QidsFor(rec, r.path)))
  {
    RestsAfterThree(cs, m, n);
    R.TrimSucceedsIff(files, Entries(Recycled(cs[0]), home));
  }

  // ---- without a green tag -------------------------------------------------------------------------------------

  ghost predicate Emptied(c: Config) { c.st.currentPr.Some? && c.w.tags == [] }

  lemma EmptyStays(c: Config, d: Config, m: Means)
    requires Emptied(c) && Moves(c, d, m)
    ensures Emptied(d) && ChoiceAt(c) == Raise
  {
    ChoiceIsPicked(c);
    IdleEffect(c, Good(c, m));
  }

  /** Once the PR is empty every tick is an error. */
  lemma EmptyForGood(cs: seq<Config>, m: Means, k: nat, n: nat)
    requires Quiet(cs, m) && k <= n < |cs| && Emptied(cs[k])
    ensures ChoiceAt(cs[n]) == Raise
  {
    var p := (c: Config, i: nat) => i >= k ==> Emptied(c);
    forall i: nat | 0 < i < |cs| && p(cs[i - 1], i - 1) ensures p(cs[i], i) {
      if i > k { EmptyStays(cs[i - 1], cs[i], m); }
    }
    Persists(cs, p, n);
    EmptyStays(cs[n], Advance(cs[n], m), m);
  }

  lemma NoGreenEmpties(c: Config, d: Config, m: Means)
    requires c.st.currentPr.Some? && Gate(c.w.log) && Greens(c.w.log, c.w.tags) == [] && Moves(c, d, m)
    ensures if Trims(c, m) then Emptied(d) else d == c && ChoiceAt(c) == Do(Settle)
  {
    ChoiceIsPicked(c);
    NextSignals(c, m);
    if c.w.tags != [] { EachTagIsSorted(c.w.log, c.w.tags, c.w.tags[0]); }
  }

  /**
   Without a green tag the settle empties the PR, and every tick after it is an error; or its trim is refused for ever.
   */
  lemma NoGreenNeverRests(cs: seq<Config>, m: Means, n: nat)
    requires Quiet(cs, m) && 1 <= n < |cs|
    requires cs[0].st.currentPr.Some? && Gate(cs[0].w.log) && Greens(cs[0].w.log, cs[0].w.tags) == []
    ensures ChoiceAt(cs[n]) == if Trims(cs[0], m) then Raise else Do(Settle)
  {
    var c := cs[0];
    NoGreenEmpties(c, cs[1], m);
    if Trims(c, m) {
      EmptyForGood(cs, m, 1, n);
    } else {
      var p := (d: Config, i: nat) => d == c;
      forall i: nat | 0 < i < |cs| && p(cs[i - 1], i - 1) ensures p(cs[i], i) { NoGreenEmpties(c, cs[i], m); }
      Persists(cs, p, n);
    }
  }
}
