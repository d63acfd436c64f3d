/**
 Removing recycled tags from the files of an open batch. Each recycled tag is looked up on its own and its line
 is edited from the text before any edit; a trim that leaves one of the tags behind is undone.
 */
module TagTrimming {

  import opened Options
  import opened TagInsertion
  import TagOverlay

  // ---- one line -----------------------------------------------------------------------------------------

  predicate NoRepeats(l: Line) {
    forall i, j | 0 <= i < j < |Items(l)| && Items(l)[i].Tag? :: Items(l)[i] != Items(l)[j]
  }

  function StripItems(items: seq<Item>, gone: set<Qid>): (r: seq<Item>)
    ensures forall x :: x in r <==> x in items && !(x.Tag? && x.qid in gone)
    ensures |r| <= |items|
  {
    if items == [] then [] else
      var last := items[|items| - 1];
      StripItems(items[..|items| - 1], gone) + if last.Tag? && last.qid in gone then [] else [last]
  }

  /**
   The line without one tag, or nothing if that leaves an empty attribute list. A list made of several copies of
   the tag keeps one: the pattern for a lone tag is tried on the line as it was.
   */
  function StripLine(l: Line, q: Qid): Option<Line> {
    var rest := StripItems(Items(l), {q});
    if !HasTag(l, q) then Some(l)
    else if l.ToAdditive? then Some(l.(clause := if rest == [] then None else Some(rest)))
    else if rest != [] then Some(l.(items := rest))
    else if |l.items| > 1 then Some(l.(items := [Tag(q)]))
    else if l.tail == "" then None
    else Some(l.(items := []))
  }

  predicate Untouched(l: Line, gone: set<Qid>) { forall q | q in gone :: !HasTag(l, q) }

  /** The line without any of the tags. */
  function StripSet(l: Line, gone: set<Qid>): Option<Line> {
    var rest := StripItems(Items(l), gone);
    if Untouched(l, gone) then Some(l)
    else if l.ToAdditive? then Some(l.(clause := if rest == [] then None else Some(rest)))
    else if rest == [] && l.tail == "" then None
    else Some(l.(items := rest))
  }

  lemma StripLineRemovesOneTag(l: Line, q: Qid, x: Qid)
    ensures HasTag(l, x) && x != q ==> StripLine(l, q).Some? && HasTag(StripLine(l, q).value, x)
    ensures StripLine(l, q).Some? && HasTag(StripLine(l, q).value, x) ==> HasTag(l, x)
    ensures StripLine(l, q).None? ==> Items(l) == [Tag(q)]
  {
    var rest := StripItems(Items(l), {q});
    if HasTag(l, x) && x != q { assert Tag(x) in rest; }
  }

  lemma StripLineRemovesTheTag(l: Line, q: Qid)
    requires NoRepeats(l) && StripLine(l, q).Some?
    ensures !HasTag(StripLine(l, q).value, q)
  {
    var rest := StripItems(Items(l), {q});
    if l.Attrs? && |l.items| > 1 {
      assert l.items[0] in l.items && l.items[1] in l.items;
      assert l.items[0] != Tag(q) || l.items[1] != Tag(q);
      assert l.items[0] in rest || l.items[1] in rest;
    }
  }

  lemma {:induction false} StripItemsAgree(items: seq<Item>, a: set<Qid>, b: set<Qid>)
    requires forall q | Tag(q) in items :: q in a <==> q in b
    ensures StripItems(items, a) == StripItems(items, b)
  {
    if items != [] {
      assert items[|items| - 1] in items;
      StripItemsAgree(items[..|items| - 1], a, b);
    }
  }

  /** Where one tag of the set is on the line, removing it is removing the set. */
  lemma OneOfTheSet(l: Line, q: Qid, gone: set<Qid>)
    requires NoRepeats(l) && HasTag(l, q) && q in gone
    requires forall x | x in gone && HasTag(l, x) :: x == q
    ensures StripLine(l, q) == StripSet(l, gone)
  {
    StripItemsAgree(Items(l), {q}, gone);
    if StripLine(l, q).Some? { StripLineRemovesTheTag(l, q); }
  }

  // ---- one file -------------------------------------------------------------------------------------------

  predicate Carries(f: File, q: Qid) { exists l :: l in f && HasTag(l, q) }

  function FirstTagged(f: File, q: Qid, i: nat): (r: Option<nat>)
    requires i <= |f|
    ensures r.Some? ==> i <= r.value < |f| && HasTag(f[r.value], q)
    ensures forall j | i <= j < (if r.Some? then r.value else |f|) :: !HasTag(f[j], q)
    decreases |f| - i
  {
    if i == |f| then None else if HasTag(f[i], q) then Some(i) else FirstTagged(f, q, i + 1)
  }

  datatype Edit = Edit(line: nat, after: Option<Line>)

  function EditFor(f: File, q: Qid): seq<Edit> {
    match FirstTagged(f, q, 0)
    case None => []
    case Some(i) => [Edit(i, StripLine(f[i], q))]
  }

  /** Every tag is planned against the lines as they are in `f`. */
  function Edits(f: File, qs: seq<Qid>): seq<Edit> {
    if qs == [] then [] else Edits(f, qs[..|qs| - 1]) + EditFor(f, qs[|qs| - 1])
  }

  predicate Deleted(edits: seq<Edit>, i: nat) { Edit(i, None) in edits }

  /** The last rewriting of line `i`. */
  function Rewritten(edits: seq<Edit>, i: nat): Option<Line> {
    if edits == [] then None else
      var e := edits[|edits| - 1];
      if e.line == i && e.after.Some? then e.after else Rewritten(edits[..|edits| - 1], i)
  }

  function NewLine(edits: seq<Edit>, i: nat, l: Line): Option<Line> {
    if Deleted(edits, i) then None
    else if Rewritten(edits, i).Some? then Rewritten(edits, i)
    else Some(l)
  }

  function Lines(o: Option<Line>): File {
    if o.None? then [] else [o.value]
  }

  function Edited(f: File, edits: seq<Edit>, n: nat): File
    requires n <= |f|
  {
    if n == 0 then [] else Edited(f, edits, n - 1) + Lines(NewLine(edits, n - 1, f[n - 1]))
  }

  function Rewrite(f: File, qs: seq<Qid>): File {
    Edited(f, Edits(f, qs), |f|)
  }

  predicate HoldsTag(l: Line) { exists x :: x in Items(l) && x.Tag? }

  predicate AnyTag(f: File) { exists l :: l in f && HoldsTag(l) }

  function DropImport(f: File): File {
    if f == [] then [] else
      var last := f[|f| - 1];
      DropImport(f[..|f| - 1]) + if last == Import(CrossRefAttribute) then [] else [last]
  }

  /** The file with the edits made; the import goes too if no tag is left. */
  function TrimFile(f: File, qs: seq<Qid>): File {
    if qs == [] then f else
      var g := Rewrite(f, qs);
      if AnyTag(g) then g else DropImport(g)
  }

  // ---- which edit each line gets ------------------------------------------------------------------------------

  /** The last of the tags planned on line `i`. */
  function Winner(f: File, qs: seq<Qid>, i: nat): (w: Option<Qid>)
    ensures w.Some? ==> w.value in qs && FirstTagged(f, w.value, 0) == Some(i)
    ensures w.None? ==> forall q | q in qs :: FirstTagged(f, q, 0) != Some(i)
  {
    if qs == [] then None
    else if FirstTagged(f, qs[|qs| - 1], 0) == Some(i) then Some(qs[|qs| - 1])
    else Winner(f, qs[..|qs| - 1], i)
  }

  function WinningLine(f: File, qs: seq<Qid>, i: nat): Option<Line>
    requires i < |f|
  {
    match Winner(f, qs, i)
    case None => Some(f[i])
    case Some(q) => StripLine(f[i], q)
  }

  lemma NewLineAfter(edits: seq<Edit>, e: Edit, i: nat, l: Line)
    ensures e.line != i ==> NewLine(edits + [e], i, l) == NewLine(edits, i, l)
    ensures e.line == i && e.after.None? ==> NewLine(edits + [e], i, l).None?
    ensures e.line == i && e.after.Some? ==>
      NewLine(edits + [e], i, l) == if Deleted(edits, i) then None else e.after
  {
    assert (edits + [e])[..|edits|] == edits;
    assert e in edits + [e];
  }

  lemma {:induction false} LastEditWins(f: File, qs: seq<Qid>, i: nat)
    requires i < |f|
    ensures NewLine(Edits(f, qs), i, f[i]) == WinningLine(f, qs, i)
  {
    if qs != [] {
      var init, q := qs[..|qs| - 1], qs[|qs| - 1];
      LastEditWins(f, init, i);
      var first := FirstTagged(f, q, 0);
      if first.Some? {
        NewLineAfter(Edits(f, init), EditFor(f, q)[0], i, f[i]);
        if first.value == i && Deleted(Edits(f, init), i) {
          StripLineRemovesOneTag(f[i], Winner(f, init, i).value, q);
          assert Tag(q) in Items(f[i]);
        }
      } else {
        assert Edits(f, qs) == Edits(f, init);
      }
    }
  }

  lemma {:induction false} EditedLines(f: File, edits: seq<Edit>, n: nat, l: Line)
    requires n <= |f|
    ensures l in Edited(f, edits, n) <==> exists i :: 0 <= i < n && NewLine(edits, i, f[i]) == Some(l)
  {
    if n > 0 {
      EditedLines(f, edits, n - 1, l);
      var last := Lines(NewLine(edits, n - 1, f[n - 1]));
      assert l in last <==> NewLine(edits, n - 1, f[n - 1]) == Some(l);
      assert l in Edited(f, edits, n) <==> l in Edited(f, edits, n - 1) || l in last;
    }
  }

  // ---- when a trim removes everything it was asked to ----------------------------------------------------------

  /** `q` is on line `i` and on no other. */
  ghost predicate OnlyOn(f: File, q: Qid, i: nat) {
    i < |f| && HasTag(f[i], q) && forall j | 0 <= j < |f| && j != i :: !HasTag(f[j], q)
  }

  ghost predicate Alone(f: File, qs: seq<Qid>, i: nat) {
    i < |f| ==> forall q, x | q in qs && x in qs && HasTag(f[i], q) && HasTag(f[i], x) :: q == x
  }

  /** Every tag is on exactly one line, and no line has two of them. */
  ghost predicate Trimmable(f: File, qs: seq<Qid>) {
    && (forall q | q in qs :: exists i: nat :: OnlyOn(f, q, i))
    && (forall i: nat :: Alone(f, qs, i))
  }

  ghost predicate AllRemoved(f: File, qs: seq<Qid>) {
    && (forall q | q in qs :: Carries(f, q))
    && (forall q | q in qs :: !Carries(Rewrite(f, qs), q))
  }

  ghost predicate Tidy(f: File) { forall l | l in f :: NoRepeats(l) }

  lemma WinningLineTags(f: File, qs: seq<Qid>, i: nat, q: Qid)
    requires i < |f| && HasTag(f[i], q) && Winner(f, qs, i) != Some(q)
    ensures Carries(Rewrite(f, qs), q)
  {
    LastEditWins(f, qs, i);
    var w := Winner(f, qs, i);
    if w.Some? { StripLineRemovesOneTag(f[i], w.value, q); }
    var l := WinningLine(f, qs, i).value;
    EditedLines(f, Edits(f, qs), |f|, l);
    assert NewLine(Edits(f, qs), i, f[i]) == Some(l);
    assert l in Rewrite(f, qs) && HasTag(l, q);
  }

  lemma RemovedOnlyIfTrimmable(f: File, qs: seq<Qid>)
    requires AllRemoved(f, qs)
    ensures Trimmable(f, qs)
  {
    forall q | q in qs ensures exists i: nat :: OnlyOn(f, q, i) {
      var first := FirstTagged(f, q, 0);
      var l :| l in f && HasTag(l, q);
      var i := first.value;
      forall j | 0 <= j < |f| && j != i ensures !HasTag(f[j], q) {
        if HasTag(f[j], q) { WinningLineTags(f, qs, j, q); }
      }
      assert OnlyOn(f, q, i);
    }
    forall i: nat ensures Alone(f, qs, i) {
      if i < |f| {
        forall q, x | q in qs && x in qs && HasTag(f[i], q) && HasTag(f[i], x) ensures q == x {
          if Winner(f, qs, i) != Some(q) { WinningLineTags(f, qs, i, q); }
          if Winner(f, qs, i) != Some(x) { WinningLineTags(f, qs, i, x); }
        }
      }
    }
  }

  lemma FirstOfOnly(f: File, q: Qid, i: nat)
    requires OnlyOn(f, q, i)
    ensures FirstTagged(f, q, 0) == Some(i)
  {
  }

  lemma TrimmableLine(f: File, qs: seq<Qid>, i: nat)
    requires Tidy(f) && Trimmable(f, qs) && i < |f|
    ensures WinningLine(f, qs, i) == StripSet(f[i], set q | q in qs)
  {
    var gone := set q | q in qs;
    assert NoRepeats(f[i]) && Alone(f, qs, i);
    if q :| q in gone && HasTag(f[i], q) {
      var j: nat :| OnlyOn(f, q, j);
      FirstOfOnly(f, q, j);
      OneOfTheSet(f[i], q, gone);
    } else {
      var w := Winner(f, qs, i);
      assert w.None?;
    }
  }

  function StripFile(f: File, gone: set<Qid>): File {
    if f == [] then [] else StripFile(f[..|f| - 1], gone) + Lines(StripSet(f[|f| - 1], gone))
  }

  lemma {:induction false} EditedIsStripped(f: File, qs: seq<Qid>, n: nat)
    requires Tidy(f) && Trimmable(f, qs) && n <= |f|
    ensures Edited(f, Edits(f, qs), n) == StripFile(f[..n], set q | q in qs)
  {
    if n > 0 {
      EditedIsStripped(f, qs, n - 1);
      assert f[..n][..n - 1] == f[..n - 1];
      LastEditWins(f, qs, n - 1);
      TrimmableLine(f, qs, n - 1);
    }
  }

  lemma StripSetTags(l: Line, gone: set<Qid>)
    ensures StripSet(l, gone).Some? ==>
      forall q :: HasTag(StripSet(l, gone).value, q) <==> HasTag(l, q) && q !in gone
    ensures StripSet(l, gone).None? ==> forall q | HasTag(l, q) :: q in gone
  {
    var rest := StripItems(Items(l), gone);
    if StripSet(l, gone).None? {
      forall q ensures HasTag(l, q) ==> q in gone {
        assert HasTag(l, q) && q !in gone ==> Tag(q) in rest;
      }
    }
  }

  lemma {:induction false} StripFileTags(f: File, gone: set<Qid>, q: Qid)
    ensures Carries(StripFile(f, gone), q) <==> Carries(f, q) && q !in gone
  {
    if f != [] {
      var init, l := f[..|f| - 1], f[|f| - 1];
      StripFileTags(init, gone, q);
      StripSetTags(l, gone);
      CarriesSplits(StripFile(init, gone), Lines(StripSet(l, gone)), q);
      CarriesLast(f, q);
    }
  }

  lemma CarriesLast(f: File, q: Qid)
    requires f != []
    ensures Carries(f, q) <==> Carries(f[..|f| - 1], q) || HasTag(f[|f| - 1], q)
  {
    CarriesSplits(f[..|f| - 1], [f[|f| - 1]], q);
    assert f == f[..|f| - 1] + [f[|f| - 1]];
  }

  lemma CarriesSplits(a: File, b: File, q: Qid)
    ensures Carries(a + b, q) <==> Carries(a, q) || Carries(b, q)
    ensures |b| == 1 ==> (Carries(b, q) <==> HasTag(b[0], q))
    ensures b == [] ==> !Carries(b, q)
  {
    if Carries(a, q) {
      var l :| l in a && HasTag(l, q);
      assert l in a + b;
    }
    if Carries(b, q) {
      var l :| l in b && HasTag(l, q);
      assert l in a + b;
    }
  }

  lemma TrimmableIsRemoved(f: File, qs: seq<Qid>, q: Qid)
    requires Tidy(f) && Trimmable(f, qs) && q in qs
    ensures Carries(f, q) && !Carries(StripFile(f, set x | x in qs), q)
  {
    var i: nat :| OnlyOn(f, q, i);
    assert f[i] in f;
    StripFileTags(f, (set x | x in qs), q);
  }

  /** A trim removes all its tags if and only if each is on one line and no two share one. */
  lemma RemovedIffTrimmable(f: File, qs: seq<Qid>)
    requires Tidy(f)
    ensures AllRemoved(f, qs) <==> Trimmable(f, qs)
    ensures Trimmable(f, qs) ==> Rewrite(f, qs) == StripFile(f, set q | q in qs)
  {
    if AllRemoved(f, qs) { RemovedOnlyIfTrimmable(f, qs); }
    if Trimmable(f, qs) {
      EditedIsStripped(f, qs, |f|);
      assert f[..|f|] == f;
      forall q | q in qs ensures Carries(f, q) && !Carries(StripFile(f, set x | x in qs), q) {
        TrimmableIsRemoved(f, qs, q);
      }
    }
  }
}
