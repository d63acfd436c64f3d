/**
 Opening batches one after another, from state files that may be arbitrarily old, with runs that fail or are cut
 off at any step: no reviewed branch is pushed over, and no batch is opened before the one before it has merged.
 */
module BatchOpen {

  import opened Options

  type Pr = nat
  type Branch = string

  datatype Status = IsOpen | Merged | Closed
  datatype PullRequest = PullRequest(branch: Branch, status: Status)
  type PullRequests = map<Pr, PullRequest>

  datatype State = State(currentPr: Option<Pr>, batchNum: nat, branch: Branch)

  /** A push, and whether its branch had a pull request at that moment. */
  datatype Push = Push(branch: Branch, taken: bool)

  /** `files`: every state file written so far, by any runner. */
  datatype World = World(prs: PullRequests, pushes: seq<Push>, files: set<State>)

  /** A remote step fails, or takes effect although the run learns nothing of it, or succeeds. */
  datatype Remote = Failed | Unconfirmed | Succeeded

  /**
   How an attempt goes. `guard` and `found` are the answers to the two listings by branch, before the push and after
   the pull request is made; both may match loosely, and only the first is filtered. `number` is what GitHub would
   call the new pull request; `saved` says the state is written.
   */
  datatype Fate = Fate(
    mergedRead: bool, guard: Option<seq<Pr>>, push: Remote, create: Remote, number: Pr, found: Option<seq<Pr>>,
    saved: bool)

  function Decimal(n: nat): (s: string)
    ensures s != []
  {
    var digit := ('0' as int + n % 10) as char;
    if n < 10 then [digit] else Decimal(n / 10) + [digit]
  }

  lemma {:induction false} DecimalInjective(m: nat, n: nat)
    requires Decimal(m) == Decimal(n)
    ensures m == n
  {
    var s, t := Decimal(m), Decimal(n);
    assert s[|s| - 1] == t[|t| - 1];
    assert m % 10 == n % 10;
    if m >= 10 && n >= 10 {
      assert s[..|s| - 1] == Decimal(m / 10) && t[..|t| - 1] == Decimal(n / 10);
      DecimalInjective(m / 10, n / 10);
    }
  }

  function BranchName(n: nat): Branch { "wikilean/wikidata-batch-" + Decimal(n) }

  /** `s` is how `n` is written: digits worth `n`, without a leading zero. */
  ghost predicate Writes(s: string, n: nat) {
    && s != [] && (forall i | 0 <= i < |s| :: '0' <= s[i] <= '9') && (|s| > 1 ==> s[0] != '0')
    && Worth(s) == n
  }

  ghost function Worth(s: string): int {
    if s == [] then 0 else 10 * Worth(s[..|s| - 1]) + (s[|s| - 1] as int - '0' as int)
  }

  lemma {:induction false} DecimalWrites(n: nat)
    ensures Writes(Decimal(n), n) && (n > 0 ==> Decimal(n)[0] != '0')
  {
    if n >= 10 {
      DecimalWrites(n / 10);
      var s := Decimal(n);
      assert s[..|s| - 1] == Decimal(n / 10);
    } else {
      var s := Decimal(n);
      assert s[..0] == [] && Worth([]) == 0;
    }
  }

  /** A batch's branch is the fixed prefix and its number. */
  lemma BranchNameReads(n: nat)
    ensures exists s :: Writes(s, n) && BranchName(n) == "wikilean/wikidata-batch-" + s
  {
    DecimalWrites(n);
  }

  lemma BranchNameInjective(m: nat, n: nat)
    requires BranchName(m) == BranchName(n)
    ensures m == n
  {
    var prefix := "wikilean/wikidata-batch-";
    assert BranchName(m)[|prefix|..] == Decimal(m) && BranchName(n)[|prefix|..] == Decimal(n);
    DecimalInjective(m, n);
  }

  // ---- one attempt ----------------------------------------------------------------------------------------

  predicate On(prs: PullRequests, p: Pr, b: Branch) { p in prs && prs[p].branch == b }

  predicate Taken(prs: PullRequests, b: Branch) { exists p :: p in prs && prs[p].branch == b }

  /** The listed pull requests that are exactly on the branch. */
  function Exact(prs: PullRequests, listed: seq<Pr>, b: Branch): (r: seq<Pr>)
    ensures forall p :: p in r <==> p in listed && On(prs, p, b)
  {
    if listed == [] then [] else
      var last := listed[|listed| - 1];
      if On(prs, last, b) then Exact(prs, listed[..|listed| - 1], b) + [last] else Exact(prs, listed[..|listed| - 1], b)
  }

  function StillOpen(prs: PullRequests, listed: seq<Pr>): (r: seq<Pr>)
    ensures forall p :: p in r <==> p in listed && p in prs && prs[p].status.IsOpen?
  {
    if listed == [] then [] else
      var last := listed[|listed| - 1];
      if last in prs && prs[last].status.IsOpen? then StillOpen(prs, listed[..|listed| - 1]) + [last]
      else StillOpen(prs, listed[..|listed| - 1])
  }

  predicate HasMerged(prs: PullRequests, p: Pr) { p in prs && prs[p].status.Merged? }

  datatype Plan = Stop | Adopt(pr: Pr) | OpenNew

  /** What the run decides before it changes anything. */
  function PlanFor(w: World, st: State, fate: Fate): Plan {
    if st.currentPr.Some? && !(fate.mergedRead && HasMerged(w.prs, st.currentPr.value)) then Stop
    else if fate.guard.None? then Stop
    else
      var existing := Exact(w.prs, fate.guard.value, BranchName(st.batchNum + 1));
      if StillOpen(w.prs, existing) != [] then Adopt(StillOpen(w.prs, existing)[0])
      else if existing != [] then Stop
      else OpenNew
  }

  function Advanced(st: State, p: Pr): State {
    State(Some(p), st.batchNum + 1, BranchName(st.batchNum + 1))
  }

  function Pushed(w: World, b: Branch): World { w.(pushes := w.pushes + [Push(b, Taken(w.prs, b))]) }

  function Created(w: World, p: Pr, b: Branch): World { w.(prs := w.prs[p := PullRequest(b, IsOpen)]) }

  function Saved(w: World, st: State): World { w.(files := w.files + {st}) }

  /** The world after an attempt that reads state file `st`, and the state it leaves behind. */
  function Attempt(w: World, st: State, fate: Fate): (World, State) {
    match PlanFor(w, st, fate)
    case Stop => (w, st)
    case Adopt(p) => if fate.saved then (Saved(w, Advanced(st, p)), Advanced(st, p)) else (w, st)
    case OpenNew =>
      var b := BranchName(st.batchNum + 1);
      if fate.push.Failed? then (w, st)
      else if fate.push.Unconfirmed? || fate.create.Failed? then (Pushed(w, b), st)
      else
        var live := Created(Pushed(w, b), fate.number, b);
        if fate.create.Unconfirmed? || fate.found.None? || fate.found.value == [] || !fate.saved then (live, st)
        else (Saved(live, Advanced(st, fate.found.value[0])), Advanced(st, fate.found.value[0]))
  }

  /** The remote side and the state file, as the run changes them. */
  class Runner {
    var prs: PullRequests
    var file: State
    ghost var pushes: seq<Push>
    ghost var files: set<State>

    ghost function Seen(): World
      reads this
    {
      World(prs, pushes, files)
    }

    constructor (w: World, file: State)
      ensures Seen() == w && this.file == file
    {
      prs := w.prs;
      this.file := file;
      pushes, files := w.pushes, w.files;
    }

    method Save(p: Pr)
      modifies this
      ensures Seen() == Saved(old(Seen()), Advanced(old(file), p)) && file == Advanced(old(file), p)
    {
      file := State(Some(p), file.batchNum + 1, BranchName(file.batchNum + 1));
      files := files + {file};
    }

    method PushAndCreate(b: Branch, fate: Fate) returns (ok: bool)
      modifies this
      ensures file == old(file)
      ensures ok <==> fate.push.Succeeded? && fate.create.Succeeded?
      ensures Seen() ==
        if fate.push.Failed? then old(Seen())
        else if fate.push.Unconfirmed? || fate.create.Failed? then Pushed(old(Seen()), b)
        else Created(Pushed(old(Seen()), b), fate.number, b)
    {
      if fate.push.Failed? { return false; }
      pushes := pushes + [Push(b, Taken(prs, b))];
      if fate.push.Unconfirmed? || fate.create.Failed? { return false; }
      prs := prs[fate.number := PullRequest(b, IsOpen)];
      return fate.create.Succeeded?;
    }

    method OpenNextBatch(fate: Fate)
      modifies this
      ensures (Seen(), file) == Attempt(old(Seen()), old(file), fate)
    {
      if file.currentPr.Some? && !(fate.mergedRead && HasMerged(prs, file.currentPr.value)) { return; }
      if fate.guard.None? { return; }
      var b := BranchName(file.batchNum + 1);
      var existing := Exact(prs, fate.guard.value, b);
      var open := StillOpen(prs, existing);
      if open != [] {
        if fate.saved { Save(open[0]); }
        return;
      }
      if existing != [] { return; }
      var ok := PushAndCreate(b, fate);
      if !ok || fate.found.None? || fate.found.value == [] { return; }
      if fate.saved { Save(fate.found.value[0]); }
    }
  }

  // ---- what an attempt promises ------------------------------------------------------------------------------

  /** The state moves on only past a merged pull request, by one batch, onto that batch's branch. */
  lemma StateAdvancesByOneBatch(w: World, st: State, fate: Fate)
    requires Attempt(w, st, fate).1 != st
    ensures var now := Attempt(w, st, fate).1;
      now.batchNum == st.batchNum + 1 && now.branch == BranchName(now.batchNum) && now.currentPr.Some?
    ensures st.currentPr.Some? ==> HasMerged(w.prs, st.currentPr.value)
  {
  }

  /** An answer to the guard's listing has every pull request on the branch, and maybe others. */
  ghost predicate Complete(w: World, st: State, fate: Fate) {
    fate.guard.Some? ==> forall p | On(w.prs, p, BranchName(st.batchNum + 1)) :: p in fate.guard.value
  }

  /** The branch to be opened has no pull request. */
  lemma OpensOnlyFreeBranches(w: World, st: State, fate: Fate)
    requires Complete(w, st, fate) && PlanFor(w, st, fate).OpenNew?
    ensures !Taken(w.prs, BranchName(st.batchNum + 1))
  {
    var b := BranchName(st.batchNum + 1);
    var existing := Exact(w.prs, fate.guard.value, b);
    assert existing == [];
    forall p | p in w.prs ensures w.prs[p].branch != b {
      assert On(w.prs, p, b) ==> p in existing;
    }
  }

  /** The first listed pull request is exactly on the branch, as the guard's filter would have it. */
  predicate StartsExact(prs: PullRequests, listed: seq<Pr>, b: Branch) {
    listed != [] && On(prs, listed[0], b)
  }

  lemma OnlyTheNewOne(w: World, st: State, fate: Fate, p: Pr)
    requires Complete(w, st, fate) && PlanFor(w, st, fate).OpenNew?
    ensures var b := BranchName(st.batchNum + 1); On(Created(w, fate.number, b).prs, p, b) <==> p == fate.number
  {
    OpensOnlyFreeBranches(w, st, fate);
  }

  /**
   The number stored after opening is the new pull request's exactly if the listing starts with one that is exactly
   on the branch; any other start is another branch's pull request.
   */
  lemma TracksTheNewBatchIff(w: World, st: State, fate: Fate)
    requires Complete(w, st, fate) && PlanFor(w, st, fate).OpenNew? && Attempt(w, st, fate).1 != st
    ensures var (now, file) := Attempt(w, st, fate);
      && (file.currentPr == Some(fate.number) <==> StartsExact(now.prs, fate.found.value, file.branch))
      && (On(now.prs, file.currentPr.value, file.branch) <==> file.currentPr == Some(fate.number))
  {
    OnlyTheNewOne(w, st, fate, fate.found.value[0]);
  }

  // ---- whole runs ---------------------------------------------------------------------------------------------

  datatype Event = Try(st: State, fate: Fate) | Drift(prs: PullRequests)

  /** Reviews and merges: pull requests stay where they are, and a merged one stays merged. */
  ghost predicate Drifts(a: PullRequests, b: PullRequests) {
    a.Keys == b.Keys && forall p | p in a :: b[p].branch == a[p].branch && (a[p].status.Merged? ==> b[p].status.Merged?)
  }

  ghost predicate Legal(w: World, e: Event) {
    match e
    case Try(st, fate) => st in w.files && Complete(w, st, fate) && fate.number !in w.prs
    case Drift(prs) => Drifts(w.prs, prs)
  }

  function After(w: World, e: Event): World {
    match e
    case Try(st, fate) => Attempt(w, st, fate).0
    case Drift(prs) => w.(prs := prs)
  }

  ghost predicate Safe(w: World) {
    && (forall u | u in w.pushes :: !u.taken)
    && (forall p, q | p in w.prs && q in w.prs && w.prs[p].branch == w.prs[q].branch :: p == q)
  }

  lemma StaysSafe(w: World, e: Event)
    requires Safe(w) && Legal(w, e)
    ensures Safe(After(w, e))
  {
    if e.Try? && PlanFor(w, e.st, e.fate).OpenNew? {
      OpensOnlyFreeBranches(w, e.st, e.fate);
    }
  }

  ghost predicate Run(ws: seq<World>, es: seq<Event>) {
    |ws| == |es| + 1 && forall i | 0 <= i < |es| :: Legal(ws[i], es[i]) && ws[i + 1] == After(ws[i], es[i])
  }

  /** No run pushes to a branch that has a pull request, and no branch gets two. */
  lemma {:induction false} RunsAreSafe(ws: seq<World>, es: seq<Event>, n: nat)
    requires Run(ws, es) && Safe(ws[0]) && n <= |es|
    ensures Safe(ws[n])
  {
    if n > 0 {
      RunsAreSafe(ws, es, n - 1);
      StaysSafe(ws[n - 1], es[n - 1]);
    }
  }

  // ---- one batch at a time ------------------------------------------------------------------------------------

  ghost predicate Follows(w: World, first: nat, st: State) {
    && first <= st.batchNum
    && (if st.currentPr.Some? then On(w.prs, st.currentPr.value, BranchName(st.batchNum)) else st.batchNum == first)
  }

  ghost predicate MergedOn(w: World, n: nat) {
    exists p :: On(w.prs, p, BranchName(n)) && w.prs[p].status.Merged?
  }

  /** Past the first, a batch has a pull request only if the one before it has merged. */
  ghost predicate Ordered(w: World, first: nat) {
    && (forall st | st in w.files :: Follows(w, first, st))
    && (forall n: nat | n > first && Taken(w.prs, BranchName(n + 1)) :: MergedOn(w, n))
  }

  /** The listing after the pull request was made, if it is not empty, starts with one exactly on the new branch. */
  ghost predicate FindsIt(w: World, e: Event) {
    e.Try? && e.fate.found.Some? && e.fate.found.value != [] ==>
      var b := BranchName(e.st.batchNum + 1); StartsExact(Created(w, e.fate.number, b).prs, e.fate.found.value, b)
  }

  lemma MergedStays(w: World, e: Event, n: nat)
    requires Legal(w, e) && MergedOn(w, n)
    ensures MergedOn(After(w, e), n)
  {
    var p :| On(w.prs, p, BranchName(n)) && w.prs[p].status.Merged?;
    assert On(After(w, e).prs, p, BranchName(n));
  }

  lemma FollowsStays(w: World, e: Event, first: nat, st: State)
    requires Legal(w, e) && Follows(w, first, st)
    ensures Follows(After(w, e), first, st)
  {
  }

  lemma SavedFollows(w: World, e: Event, first: nat, st: State)
    requires Legal(w, e) && FindsIt(w, e) && Ordered(w, first) && st in After(w, e).files && st !in w.files
    ensures Follows(After(w, e), first, st)
  {
    assert Follows(w, first, e.st);
    if PlanFor(w, e.st, e.fate).Adopt? {
      var existing := Exact(w.prs, e.fate.guard.value, BranchName(e.st.batchNum + 1));
      var p := StillOpen(w.prs, existing)[0];
      assert p in StillOpen(w.prs, existing) && p in existing;
    }
  }

  lemma StaysOrdered(w: World, e: Event, first: nat)
    requires Legal(w, e) && FindsIt(w, e) && Ordered(w, first)
    ensures Ordered(After(w, e), first)
  {
    var now := After(w, e);
    forall st | st in now.files ensures Follows(now, first, st) {
      if st in w.files { FollowsStays(w, e, first, st); } else { SavedFollows(w, e, first, st); }
    }
    forall n: nat | n > first && Taken(now.prs, BranchName(n + 1)) ensures MergedOn(now, n) {
      if Taken(w.prs, BranchName(n + 1)) {
        MergedStays(w, e, n);
      } else {
        OpenedInOrder(w, e, first, n);
        MergedStays(w, e, n);
      }
    }
  }

  lemma OpenedInOrder(w: World, e: Event, first: nat, n: nat)
    requires Legal(w, e) && Ordered(w, first) && n > first
    requires !Taken(w.prs, BranchName(n + 1)) && Taken(After(w, e).prs, BranchName(n + 1))
    ensures MergedOn(w, n)
  {
    var p :| p in After(w, e).prs && After(w, e).prs[p].branch == BranchName(n + 1);
    assert e.Try? && p == e.fate.number;
    BranchNameInjective(e.st.batchNum + 1, n + 1);
    assert Follows(w, first, e.st);
    assert On(w.prs, e.st.currentPr.value, BranchName(n)) && HasMerged(w.prs, e.st.currentPr.value);
  }

  lemma {:induction false} RunsAreOrdered(ws: seq<World>, es: seq<Event>, first: nat, n: nat)
    requires Run(ws, es) && Ordered(ws[0], first) && n <= |es|
    requires forall i | 0 <= i < |es| :: FindsIt(ws[i], es[i])
    ensures Ordered(ws[n], first)
  {
    if n > 0 {
      RunsAreOrdered(ws, es, first, n - 1);
      StaysOrdered(ws[n - 1], es[n - 1], first);
    }
  }

  lemma {:induction false} EarlierMerged(w: World, first: nat, a: nat, b: nat)
    requires Ordered(w, first) && first < a < b && Taken(w.prs, BranchName(b))
    ensures MergedOn(w, a)
    decreases b
  {
    assert MergedOn(w, b - 1);
    if a < b - 1 {
      var p :| On(w.prs, p, BranchName(b - 1)) && w.prs[p].status.Merged?;
      EarlierMerged(w, first, a, b - 1);
    }
  }

  /** At any time at most one batch after the first has a pull request that has not merged. */
  lemma OneBatchAtATime(ws: seq<World>, es: seq<Event>, first: nat, n: nat, a: nat, p: Pr, b: nat, q: Pr)
    requires Run(ws, es) && Safe(ws[0]) && Ordered(ws[0], first) && n <= |es|
    requires forall i | 0 <= i < |es| :: FindsIt(ws[i], es[i])
    requires first < a <= b && On(ws[n].prs, p, BranchName(a)) && On(ws[n].prs, q, BranchName(b))
    requires !HasMerged(ws[n].prs, p) && !HasMerged(ws[n].prs, q)
    ensures p == q
  {
    RunsAreSafe(ws, es, n);
    RunsAreOrdered(ws, es, first, n);
    if a < b {
      assert Taken(ws[n].prs, BranchName(b));
      EarlierMerged(ws[n], first, a, b);
    }
  }

  // ---- a listing that starts with another batch's pull request -------------------------------------------------

  function Opens(guard: seq<Pr>, number: Pr, found: seq<Pr>): Fate {
    Fate(true, Some(guard), Succeeded, Succeeded, number, Some(found), true)
  }

  /**
   Batch 2 is opened while the pull request of batch 20 is listed first; 20 merges, and batch 3 is opened over batch 2.
   */
  function LooseRun(stray: Pr, second: Pr, third: Pr): (seq<World>, seq<Event>) {
    var b20, b2, b3 := BranchName(20), BranchName(2), BranchName(3);
    var start := State(None, 1, "");
    var wrong := State(Some(stray), 2, b2);
    var w0 := World(map[stray := PullRequest(b20, IsOpen)], [], {start});
    var e0 := Try(start, Opens([stray], second, [stray, second]));
    var w1 := After(w0, e0);
    var e1 := Drift(w1.prs[stray := PullRequest(b20, Merged)]);
    var w2 := After(w1, e1);
    var e2 := Try(wrong, Opens([second], third, [third]));
    ([w0, w1, w2, After(w2, e2)], [e0, e1, e2])
  }

  lemma BranchesDiffer()
    ensures BranchName(2) != BranchName(3) && BranchName(2) != BranchName(20) && BranchName(3) != BranchName(20)
  {
    if BranchName(2) == BranchName(3) { BranchNameInjective(2, 3); }
    if BranchName(2) == BranchName(20) { BranchNameInjective(2, 20); }
    if BranchName(3) == BranchName(20) { BranchNameInjective(3, 20); }
  }

  lemma {:induction false} NoneOn(prs: PullRequests, listed: seq<Pr>, b: Branch)
    requires forall p | p in prs :: prs[p].branch != b
    ensures Exact(prs, listed, b) == [] && !Taken(prs, b)
  {
    if listed != [] { NoneOn(prs, listed[..|listed| - 1], b); }
  }

  lemma FirstIsLoose(stray: Pr, second: Pr, third: Pr)
    requires stray != second
    ensures var (ws, es) := LooseRun(stray, second, third);
      && Legal(ws[0], es[0])
      && ws[1] == Saved(Created(Pushed(ws[0], BranchName(2)), second, BranchName(2)),
                          State(Some(stray), 2, BranchName(2)))
      && ws[1].prs == map[stray := PullRequest(BranchName(20), IsOpen), second := PullRequest(BranchName(2), IsOpen)]
  {
    var (ws, es) := LooseRun(stray, second, third);
    BranchesDiffer();
    NoneOn(ws[0].prs, [stray], BranchName(2));
    assert PlanFor(ws[0], es[0].st, es[0].fate) == OpenNew;
  }

  lemma ThirdIsOpened(w: World, stray: Pr, second: Pr, third: Pr)
    requires stray != second && second != third && stray != third
    requires w.prs == map[stray := PullRequest(BranchName(20), Merged), second := PullRequest(BranchName(2), IsOpen)]
    requires State(Some(stray), 2, BranchName(2)) in w.files
    ensures var e := Try(State(Some(stray), 2, BranchName(2)), Opens([second], third, [third]));
      Legal(w, e) && After(w, e).prs == w.prs[third := PullRequest(BranchName(3), IsOpen)]
  {
    BranchesDiffer();
    NoneOn(w.prs, [second], BranchName(3));
  }

  /** The second batch's pull request is lost track of, and the third is opened while it is open. */
  lemma LooseListingLosesABatch(stray: Pr, second: Pr, third: Pr)
    requires stray != second && second != third && stray != third
    ensures var (ws, es) := LooseRun(stray, second, third);
      && Run(ws, es) && Safe(ws[0])
      && State(Some(stray), 2, BranchName(2)) in ws[1].files && !On(ws[1].prs, stray, BranchName(2))
      && On(ws[3].prs, second, BranchName(2)) && On(ws[3].prs, third, BranchName(3))
      && !HasMerged(ws[3].prs, second) && !HasMerged(ws[3].prs, third)
  {
    var (ws, es) := LooseRun(stray, second, third);
    FirstIsLoose(stray, second, third);
    BranchesDiffer();
    ThirdIsOpened(ws[2], stray, second, third);
  }
}
