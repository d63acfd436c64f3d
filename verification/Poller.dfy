/**
 The poller of an open batch: what each tick does with what GitHub answers, that the cheap decision agrees with
 it, and that a batch nobody touches any more comes to rest.
 */
module Poller {

  import opened Options
  import opened SettleVerdicts

  type Pr = nat
  type Sha = string

  datatype Read<T> = Got(value: T) | Failed

  datatype State = State(
    currentPr: Option<Pr>, batchNum: nat, branch: string,
    settledPr: Option<Pr>, retriggeredPr: Option<Pr>, conflictSha: Option<Sha>, pushedPr: Option<Pr>)

  /** What GitHub answers during a tick; `cls` fails if any of the reads behind the classification does. */
  datatype View = View(
    isOpen: Read<bool>, merged: Read<bool>, cls: Read<Classified>,
    conflicting: Read<bool>, tip: Read<Sha>, flake: Read<bool>)

  datatype OpenResult = OpenFailed | NotOpened | Opened(pr: Pr, num: nat, branch: string, adopted: bool)

  /** A trim can fail before its push, or be cut off between the push and the state file. */
  datatype TrimResult = TrimFailed | CutOff | TrimDone

  /** How the steps a tick may take turn out. */
  datatype Fate = Fate(
    pushEnabled: bool, pushClean: bool, opening: OpenResult, trim: TrimResult,
    approved: Option<set<Qid>>, fetched: Option<Sha>, rebuilt: bool, healed: bool)

  datatype Action = Open | Settle | Rebuild | Heal
  datatype Choice = Wait | Do(action: Action) | Raise
  datatype Outcome = Waited | Completed(action: Action) | Broken(action: Action) | Raised

  // ---- choosing -------------------------------------------------------------------------------------------

  function AfterSettle(st: State, pr: Pr, v: View): Choice {
    if v.cls.Failed? then Raise
    else if v.cls.value.gate && v.cls.value.recycle != [] then Do(Settle)
    else if v.conflicting.Failed? || (v.conflicting.value && v.tip.Failed?) then Raise
    else if v.conflicting.value && st.conflictSha != Some(v.tip.value) then Do(Rebuild)
    else if st.retriggeredPr == Some(pr) then Wait
    else if v.flake.Failed? then Raise
    else if v.flake.value then Do(Heal) else Wait
  }

  function BeforeSettle(v: View): Choice {
    if v.cls.Failed? then Raise else if v.cls.value.gate then Do(Settle) else Wait
  }

  /** What the tick sets out to do. */
  function Choose(st: State, v: View): Choice {
    if st.currentPr.None? then Do(Open)
    else if v.isOpen.Failed? || v.merged.Failed? then Raise
    else if v.merged.value then Do(Open)
    else if !v.isOpen.value then Raise
    else if st.settledPr == st.currentPr then AfterSettle(st, st.currentPr.value, v)
    else BeforeSettle(v)
  }

  // ---- one tick ---------------------------------------------------------------------------------------------

  predicate PushDue(st: State, pr: Pr, fate: Fate) { fate.pushEnabled && st.pushedPr != Some(pr) }

  function AfterMerge(st: State, fate: Fate): State
    requires st.currentPr.Some?
  {
    var pr := st.currentPr.value;
    if PushDue(st, pr, fate) && fate.pushClean then st.(pushedPr := Some(pr)) else st
  }

  function Cleared(st: State): State { st.(settledPr := None, retriggeredPr := None) }

  function OpenNext(st: State, o: OpenResult): State {
    match o
    case Opened(pr, num, branch, adopted) =>
      var next := st.(currentPr := Some(pr), batchNum := num, branch := branch);
      if adopted then Cleared(next) else next
    case _ => st
  }

  /** The state file and the outcome after a tick. */
  function Step(st: State, v: View, fate: Fate, noOpen: bool): (State, Outcome) {
    match Choose(st, v)
    case Raise => (st, Raised)
    case Wait => (st, Waited)
    case Do(Open) =>
      var pushed := if st.currentPr.Some? then AfterMerge(st, fate) else st;
      if noOpen then (pushed, Waited)
      else if fate.opening.OpenFailed? then (pushed, Broken(Open))
      else
        var next := OpenNext(pushed, fate.opening);
        (if st.currentPr.Some? then Cleared(next) else next, Completed(Open))
    case Do(Settle) =>
      if !fate.trim.TrimDone? then (st, Broken(Settle))
      else
        var again := st.settledPr == st.currentPr;
        (st.(settledPr := st.currentPr, retriggeredPr := if again then None else st.retriggeredPr), Completed(Settle))
    case Do(Rebuild) =>
      if fate.approved.None? then (st, Raised)
      else if fate.fetched.None? then (st, Broken(Rebuild))
      else
        (st.(conflictSha := fate.fetched, retriggeredPr := None),
         if fate.rebuilt then Completed(Rebuild) else Broken(Rebuild))
    case Do(Heal) =>
      if fate.healed then (st.(retriggeredPr := st.currentPr), Completed(Heal)) else (st, Broken(Heal))
  }

  /**
   After an opening the state file names the new batch. An adopted batch and one after a merge start without markers;
   on the very first opening of a batch of its own they stay as they are.
   */
  lemma OpeningNames(st: State, v: View, fate: Fate, pr: Pr, num: nat, branch: string, adopted: bool)
    requires Choose(st, v) == Do(Open) && fate.opening == Opened(pr, num, branch, adopted)
    ensures var cleared := st.currentPr.Some? || adopted;
      var pushed := if st.currentPr.Some? && fate.pushEnabled && fate.pushClean then st.currentPr else st.pushedPr;
      Step(st, v, fate, false) ==
      (State(Some(pr), num, branch, if cleared then None else st.settledPr, if cleared then None else st.retriggeredPr,
             st.conflictSha, pushed), Completed(Open))
  {
  }

  // ---- deciding beforehand -------------------------------------------------------------------------------

  datatype Verdict = Act | Hold | Error

  function VerdictFor(c: Choice): Verdict {
    match c
    case Wait => Hold
    case Do(_) => Act
    case Raise => Error
  }

  /** What a tick turned out to be: a step taken or tried, nothing to do, or an error before any step. */
  function VerdictOf(o: Outcome): Verdict {
    match o
    case Waited => Hold
    case Completed(_) => Act
    case Broken(_) => Act
    case Raised => Error
  }

  /** The answer given before a tick is set up. A merged PR is reason enough to act. */
  function Decided(st: State, v: View): Verdict {
    if st.currentPr.Some? && v.merged == Got(true) then Act else VerdictFor(Choose(st, v))
  }

  /**
   Where the answer and the tick part: the state of a merged PR cannot be read, a rebuild is due and its approved
   file is missing, or the next batch is due and the tick was told not to open it.
   */
  predicate Parts(st: State, v: View, fate: Fate, noOpen: bool) {
    || (st.currentPr.Some? && v.merged == Got(true) && v.isOpen.Failed?)
    || (Choose(st, v) == Do(Rebuild) && fate.approved.None?)
    || (Choose(st, v) == Do(Open) && noOpen)
  }

  lemma DecidedIsWhatTheTickDoes(st: State, v: View, fate: Fate, noOpen: bool)
    ensures Decided(st, v) == VerdictOf(Step(st, v, fate, noOpen).1) <==> !Parts(st, v, fate, noOpen)
  {
  }

  /** `decide`: it says act, wait or error exactly as the tick will, unless the two part. */
  method Decide(st: State, v: View) returns (d: Verdict)
    ensures d == Decided(st, v)
    ensures forall fate, noOpen :: d == VerdictOf(Step(st, v, fate, noOpen).1) <==> !Parts(st, v, fate, noOpen)
  {
    forall fate, noOpen
      ensures Decided(st, v) == VerdictOf(Step(st, v, fate, noOpen).1) <==> !Parts(st, v, fate, noOpen)
    {
      DecidedIsWhatTheTickDoes(st, v, fate, noOpen);
    }
    if st.currentPr.None? { return Act; }
    if v.merged.Failed? { return Error; }
    if v.merged.value { return Act; }
    if v.isOpen.Failed? || !v.isOpen.value { return Error; }
    if st.settledPr == st.currentPr {
      if v.cls.Failed? { return Error; }
      if v.cls.value.gate && v.cls.value.recycle != [] { return Act; }
      if v.conflicting.Failed? { return Error; }
      if v.conflicting.value {
        if v.tip.Failed? { return Error; }
        if st.conflictSha != Some(v.tip.value) { return Act; }
      }
      if st.retriggeredPr == st.currentPr { return Hold; }
      if v.flake.Failed? { return Error; }
      return if v.flake.value then Act else Hold;
    }
    if v.cls.Failed? { return Error; }
    return if v.cls.value.gate then Act else Hold;
  }

  /** The state of a merged PR cannot be read: it says act, the tick fails. */
  lemma UnreadableMergedParts(st: State, v: View, fate: Fate, noOpen: bool)
    requires st.currentPr.Some? && v.merged == Got(true) && v.isOpen.Failed?
    ensures Decided(st, v) == Act && Step(st, v, fate, noOpen) == (st, Raised)
  {
  }

  /** A settled PR falls behind master and its approved file is missing: it says act, the tick fails. */
  lemma MissingApprovedParts(st: State, v: View, fate: Fate, noOpen: bool, tip: Sha)
    requires st.currentPr.Some? && st.settledPr == st.currentPr && v.isOpen == Got(true) && v.merged == Got(false)
    requires v.cls.Got? && v.cls.value.recycle == [] && v.conflicting == Got(true)
    requires v.tip == Got(tip) && st.conflictSha != Some(tip) && fate.approved.None?
    ensures Decided(st, v) == Act && Step(st, v, fate, noOpen) == (st, Raised)
  {
  }

  /** The PR has merged and the next open is supervised: it says act, the tick has nothing to do. */
  lemma SupervisedOpenParts(st: State, v: View, fate: Fate)
    requires st.currentPr.Some? && v.isOpen.Got? && v.merged == Got(true)
    ensures Decided(st, v) == Act && Step(st, v, fate, true).1 == Waited
  {
  }

  // ---- the state file ------------------------------------------------------------------------------------

  predicate CleanPush(st: State, v: View, fate: Fate) {
    && Choose(st, v) == Do(Open) && st.currentPr.Some?
    && PushDue(st, st.currentPr.value, fate) && fate.pushClean
  }

  ghost predicate NoRepeats(s: seq<Pr>) { forall i, j | 0 <= i < j < |s| :: s[i] != s[j] }

  /** The state file, with the batches left behind and the clean property pushes so far. */
  class StateFile {
    var st: State
    ghost var past: set<Pr>
    ghost var pushes: seq<Pr>

    /** No batch is pushed twice, and a push of the current batch is on record. */
    ghost predicate Valid()
      reads this
    {
      && (st.currentPr.Some? ==> st.currentPr.value !in past)
      && NoRepeats(pushes)
      && forall p | p in pushes :: p in past || (st.currentPr == Some(p) && st.pushedPr == Some(p))
    }

    constructor (st: State)
      ensures Valid() && this.st == st && past == {} && pushes == []
    {
      this.st := st;
      past, pushes := {}, [];
    }

    method PushProperty(pr: Pr, fate: Fate)
      requires Valid() && st.currentPr == Some(pr)
      modifies this
      ensures Valid() && st == AfterMerge(old(st), fate) && past == old(past)
      ensures pushes == old(pushes) + if PushDue(old(st), pr, fate) && fate.pushClean then [pr] else []
    {
      if fate.pushEnabled && st.pushedPr != Some(pr) {
        if fate.pushClean {
          st := st.(pushedPr := Some(pr));
          pushes := pushes + [pr];
        }
      }
    }

    method TickMerged(v: View, fate: Fate, noOpen: bool) returns (o: Outcome)
      requires Valid() && st.currentPr.Some? && v.isOpen.Got? && v.merged == Got(true)
      requires fate.opening.Opened? ==> fate.opening.pr !in past && st.currentPr != Some(fate.opening.pr)
      modifies this
      ensures Valid()
      ensures (st, o) == Step(old(st), v, fate, noOpen)
      ensures past == old(past) + if st.currentPr != old(st).currentPr then {old(st).currentPr.value} else {}
      ensures pushes == old(pushes) + if CleanPush(old(st), v, fate) then [old(st).currentPr.value] else []
    {
      var pr := st.currentPr.value;
      PushProperty(pr, fate);
      if noOpen { return Waited; }
      if fate.opening.OpenFailed? { return Broken(Open); }
      if fate.opening.Opened? {
        past := past + {pr};
      }
      st := OpenNext(st, fate.opening);
      st := st.(settledPr := None, retriggeredPr := None);
      return Completed(Open);
    }

    method TickSettled(v: View, fate: Fate) returns (o: Outcome)
      requires Valid() && st.currentPr.Some? && v.isOpen == Got(true) && v.merged == Got(false)
      requires st.settledPr == st.currentPr
      modifies this
      ensures Valid() && past == old(past) && pushes == old(pushes)
      ensures (st, o) == Step(old(st), v, fate, false)
    {
      var pr := st.currentPr.value;
      if v.cls.Failed? { return Raised; }
      if v.cls.value.gate && v.cls.value.recycle != [] {
        if !fate.trim.TrimDone? { return Broken(Settle); }
        st := st.(settledPr := Some(pr), retriggeredPr := None);
        return Completed(Settle);
      }
      if v.conflicting.Failed? { return Raised; }
      if v.conflicting.value {
        if v.tip.Failed? { return Raised; }
        if st.conflictSha != Some(v.tip.value) {
          if fate.approved.None? { return Raised; }
          if fate.fetched.None? { return Broken(Rebuild); }
          st := st.(conflictSha := fate.fetched, retriggeredPr := None);
          return if fate.rebuilt then Completed(Rebuild) else Broken(Rebuild);
        }
      }
      if st.retriggeredPr != Some(pr) {
        if v.flake.Failed? { return Raised; }
        if v.flake.value {
          if !fate.healed { return Broken(Heal); }
          st := st.(retriggeredPr := Some(pr));
          return Completed(Heal);
        }
      }
      return Waited;
    }

    method Tick(v: View, fate: Fate, noOpen: bool) returns (o: Outcome)
      requires Valid()
      requires fate.opening.Opened? ==> fate.opening.pr !in past && st.currentPr != Some(fate.opening.pr)
      modifies this
      ensures Valid()
      ensures (st, o) == Step(old(st), v, fate, noOpen)
      ensures past == old(past) +
        if old(st).currentPr.Some? && st.currentPr != old(st).currentPr then {old(st).currentPr.value} else {}
      ensures pushes == old(pushes) + if CleanPush(old(st), v, fate) then [old(st).currentPr.value] else []
    {
      if st.currentPr.None? {
        if noOpen { return Waited; }
        if fate.opening.OpenFailed? { return Broken(Open); }
        st := OpenNext(st, fate.opening);
        return Completed(Open);
      }
      if v.isOpen.Failed? || v.merged.Failed? { return Raised; }
      if v.merged.value {
        o := TickMerged(v, fate, noOpen);
        return;
      }
      if !v.isOpen.value { return Raised; }
      if st.settledPr == st.currentPr {
        o := TickSettled(v, fate);
        return;
      }
      if v.cls.Failed? { return Raised; }
      if !v.cls.value.gate { return Waited; }
      if !fate.trim.TrimDone? { return Broken(Settle); }
      st := st.(settledPr := st.currentPr);
      return Completed(Settle);
    }
  }
}
