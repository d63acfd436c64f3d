/**
 Removing tags from a file commutes with adding the import, and on a file with inserted tags it is filtering
 the overlay.
 */
module TagFiltering {

  import opened Options
  import opened TagInsertion
  import opened TagTrimming
  import O = TagOverlay

  // ---- removing tags and adding the import commute ---------------------------------------------------------

  lemma {:induction false} StripFileConcat(a: File, b: File, gone: set<Qid>)
    ensures StripFile(a + b, gone) == StripFile(a, gone) + StripFile(b, gone)
  {
    if b == [] {
      assert a + b == a;
    } else {
      assert (a + b)[..|a + b| - 1] == a + b[..|b| - 1];
      StripFileConcat(a, b[..|b| - 1], gone);
    }
  }

  lemma StripOneLine(l: Line, gone: set<Qid>)
    ensures StripFile([l], gone) == Lines(StripSet(l, gone))
  {
    assert [l][..0] == [];
    assert [] + Lines(StripSet(l, gone)) == Lines(StripSet(l, gone));
  }

  lemma {:induction false} ImportsStay(f: File, gone: set<Qid>, l: Line)
    requires l.Import?
    ensures l in StripFile(f, gone) <==> l in f
  {
    if f != [] {
      var init, last := f[..|f| - 1], f[|f| - 1];
      ImportsStay(init, gone, l);
      ImportStays(last, gone, l);
      assert l in f <==> l in init || l == last by { assert f == init + [last]; }
      assert l in StripFile(init, gone) + Lines(StripSet(last, gone)) <==> l in StripFile(init, gone) || l == last;
    }
  }

  lemma ImportStays(m: Line, gone: set<Qid>, l: Line)
    requires l.Import?
    ensures l in Lines(StripSet(m, gone)) <==> l == m
  {
  }

  lemma NoImportStays(f: File, gone: set<Qid>)
    requires forall i | 0 <= i < |f| :: !f[i].Import?
    ensures forall i | 0 <= i < |StripFile(f, gone)| :: !StripFile(f, gone)[i].Import?
  {
    forall i | 0 <= i < |StripFile(f, gone)| ensures !StripFile(f, gone)[i].Import? {
      var l := StripFile(f, gone)[i];
      if l.Import? { ImportsStay(f, gone, l); }
    }
  }

  lemma NoneSortsAfter(f: File, gone: set<Qid>)
    requires forall i | 0 <= i < |f| :: !SortsAfter(f[i])
    ensures forall i | 0 <= i < |StripFile(f, gone)| :: !SortsAfter(StripFile(f, gone)[i])
  {
    forall i | 0 <= i < |StripFile(f, gone)| ensures !SortsAfter(StripFile(f, gone)[i]) {
      var l := StripFile(f, gone)[i];
      if l.Import? { ImportsStay(f, gone, l); }
    }
  }

  lemma SlotAboveStays(f: File, k: nat, gone: set<Qid>)
    requires IsSlot(f, k) && k < |f| && SortsAfter(f[k])
    ensures IsSlot(StripFile(f, gone), |StripFile(f[..k], gone)|)
  {
    var left, rest := f[..k], f[k + 1..];
    assert f == left + ([f[k]] + rest);
    StripFileConcat(left, [f[k]] + rest, gone);
    StripFileConcat([f[k]], rest, gone);
    StripOneLine(f[k], gone);
    NoneSortsAfter(left, gone);
    var a, b := StripFile(left, gone), StripFile(rest, gone);
    assert StripFile(f, gone) == a + ([f[k]] + b);
    assert (a + ([f[k]] + b))[|a|] == f[k];
  }

  lemma SlotBelowStays(f: File, k: nat, gone: set<Qid>)
    requires IsSlot(f, k) && !(k < |f| && SortsAfter(f[k]))
    ensures IsSlot(StripFile(f, gone), |StripFile(f[..k], gone)|)
  {
    var left, right := f[..k], f[k..];
    assert f == left + right;
    StripFileConcat(left, right, gone);
    NoneSortsAfter(left, gone);
    NoImportStays(right, gone);
    assert left[|left| - 1] == f[k - 1];
    LastImportStays(left, gone);
    SlotFromSides(StripFile(left, gone), StripFile(right, gone));
  }

  lemma LastImportStays(f: File, gone: set<Qid>)
    requires f != [] && f[|f| - 1].Import?
    ensures StripFile(f, gone) != [] && StripFile(f, gone)[|StripFile(f, gone)| - 1] == f[|f| - 1]
  {
    assert StripSet(f[|f| - 1], gone) == Some(f[|f| - 1]);
  }

  lemma SlotFromSides(left: File, right: File)
    requires left != [] && left[|left| - 1].Import?
    requires forall i | 0 <= i < |left| :: !SortsAfter(left[i])
    requires forall i | 0 <= i < |right| :: !right[i].Import?
    ensures IsSlot(left + right, |left|)
  {
  }

  lemma StrippingKeepsTheSlot(f: File, gone: set<Qid>)
    ensures Slot(f).None? <==> Slot(StripFile(f, gone)).None?
    ensures Slot(f).Some? ==> Slot(StripFile(f, gone)) == Some(|StripFile(f[..Slot(f).value], gone)|)
  {
    var s := StripFile(f, gone);
    if Slot(f).Some? {
      var k := Slot(f).value;
      if k < |f| && SortsAfter(f[k]) {
        SlotAboveStays(f, k, gone);
      } else {
        SlotBelowStays(f, k, gone);
      }
      var m := |StripFile(f[..k], gone)|;
      assert IsSlot(s, m);
      assert Slot(s).Some?;
      SlotIsUnique(s, m, Slot(s).value);
    } else {
      NoImportStays(f, gone);
    }
  }

  lemma InsertCommutes(f: File, k: nat, gone: set<Qid>)
    requires k <= |f|
    ensures |StripFile(f[..k], gone)| <= |StripFile(f, gone)|
    ensures StripFile(Inserted(f, k, Import(CrossRefAttribute)), gone) ==
            Inserted(StripFile(f, gone), |StripFile(f[..k], gone)|, Import(CrossRefAttribute))
  {
    var left, right, l := f[..k], f[k..], Import(CrossRefAttribute);
    assert f == left + right;
    StripFileConcat(left, right, gone);
    StripFileConcat(left + [l], right, gone);
    StripFileConcat(left, [l], gone);
    StripOneLine(l, gone);
    var a, b := StripFile(left, gone), StripFile(right, gone);
    assert (a + b)[..|a|] == a && (a + b)[|a|..] == b;
  }

  lemma AddImportCommutes(f: File, gone: set<Qid>)
    ensures StripFile(AddImport(f), gone) == AddImport(StripFile(f, gone))
  {
    ImportsStay(f, gone, Import(CrossRefAttribute));
    StrippingKeepsTheSlot(f, gone);
    if Slot(f).Some? { InsertCommutes(f, Slot(f).value, gone); }
  }

  lemma {:induction false} DropConcat(a: File, b: File)
    ensures DropImport(a + b) == DropImport(a) + DropImport(b)
  {
    if b == [] {
      assert a + b == a;
    } else {
      assert (a + b)[..|a + b| - 1] == a + b[..|b| - 1];
      DropConcat(a, b[..|b| - 1]);
    }
  }

  lemma {:induction false} NothingToDrop(f: File)
    requires Import(CrossRefAttribute) !in f
    ensures DropImport(f) == f
  {
    if f != [] {
      NothingToDrop(f[..|f| - 1]);
    }
  }

  lemma DropUndoesInsert(left: File, right: File)
    requires Import(CrossRefAttribute) !in left && Import(CrossRefAttribute) !in right
    ensures DropImport(left + [Import(CrossRefAttribute)] + right) == left + right
  {
    var l := [Import(CrossRefAttribute)];
    calc {
      DropImport(left + l + right);
      { DropConcat(left + l, right); }
      DropImport(left + l) + DropImport(right);
      { DropConcat(left, l); DropTheImport(); }
      DropImport(left) + [] + DropImport(right);
      { NothingToDrop(left); NothingToDrop(right); }
      left + [] + right;
      left + right;
    }
  }

  lemma DropTheImport()
    ensures DropImport([Import(CrossRefAttribute)]) == []
  {
    assert [Import(CrossRefAttribute)][..0] == [];
  }

  lemma DropUndoesAdd(f: File)
    requires Import(CrossRefAttribute) !in f
    ensures DropImport(AddImport(f)) == f
  {
    if Slot(f).Some? {
      var left, right := f[..Slot(f).value], f[Slot(f).value..];
      assert left + right == f;
      DropUndoesInsert(left, right);
    } else {
      NothingToDrop(f);
    }
  }

  // ---- removing tags filters the overlay ----------------------------------------------------------------------

  predicate WrittenOut(l: Line) {
    match l
    case Attrs(_, items, _, _) => items != []
    case ToAdditive(_, Some(items), _) => items != []
    case _ => true
  }

  ghost predicate Distinct(qs: seq<Qid>) {
    forall i, j | 0 <= i < j < |qs| :: qs[i] != qs[j]
  }

  ghost predicate Sound(f: File, qs: seq<Qid>) {
    Distinct(qs) && forall q | q in qs :: Free(f, q)
  }

  ghost predicate AllSound(f: File, o: O.Overlay) {
    && O.Fits(f, o)
    && (forall i | 0 <= i < |f| :: Sound(f, o.stacked[i]))
    && (forall i | 0 <= i < |f| :: Sound(f, o.above[i]))
  }

  predicate Free(f: File, q: Qid) { O.Free(f, q) }

  lemma PlaceOneSound(f: File, o: O.Overlay, d: Name, q: Qid)
    requires AllSound(f, o) && Free(f, q)
    ensures AllSound(f, O.PlaceOne(f, o, d, q))
  {
    O.PlaceOneFits(f, o, d, q);
  }

  lemma {:induction false} InsertionsAreSound(f: File, requests: seq<Request>)
    requires O.AllFree(f, requests)
    ensures AllSound(f, O.PlaceAll(f, requests))
  {
    if requests != [] {
      var r := requests[|requests| - 1];
      assert r in requests;
      InsertionsAreSound(f, requests[..|requests| - 1]);
      PlaceOneSound(f, O.PlaceAll(f, requests[..|requests| - 1]), r.decl, r.qid);
    }
  }

  lemma {:induction false} StripTags(qs: seq<Qid>, gone: set<Qid>)
    ensures StripItems(Tags(qs), gone) == Tags(O.Without(qs, gone))
  {
    if qs != [] {
      assert Tags(qs)[..|qs| - 1] == Tags(qs[..|qs| - 1]);
      StripTags(qs[..|qs| - 1], gone);
      var last := qs[|qs| - 1];
      assert Tags(O.Without(qs, gone)) ==
             Tags(O.Without(qs[..|qs| - 1], gone)) + if last in gone then [] else [Tag(last)];
    }
  }

  lemma {:induction false} StripItemsConcat(a: seq<Item>, b: seq<Item>, gone: set<Qid>)
    ensures StripItems(a + b, gone) == StripItems(a, gone) + StripItems(b, gone)
  {
    if b == [] {
      assert a + b == a;
    } else {
      assert (a + b)[..|a + b| - 1] == a + b[..|b| - 1];
      StripItemsConcat(a, b[..|b| - 1], gone);
    }
  }

  lemma {:induction false} NothingToStrip(items: seq<Item>, gone: set<Qid>)
    requires forall q | q in gone :: Tag(q) !in items
    ensures StripItems(items, gone) == items
  {
    if items != [] {
      var init, last := items[..|items| - 1], items[|items| - 1];
      assert items == init + [last] && last in items;
      forall q | q in gone ensures Tag(q) !in init {
        assert Tag(q) !in init + [last];
      }
      NothingToStrip(init, gone);
    }
  }

  lemma StripStacked(l: Line, qs: seq<Qid>, gone: set<Qid>)
    requires Untouched(l, gone) && WrittenOut(l) && (qs != [] ==> IsAttr(l))
    ensures StripSet(Stack(l, qs), gone) == Some(Stack(l, O.Without(qs, gone)))
  {
    var s, kept := Stack(l, qs), O.Without(qs, gone);
    forall q ensures HasTag(s, q) <==> HasTag(l, q) || q in qs {
      O.StackHasTag(l, qs, q);
    }
    if Untouched(s, gone) {
      forall q | q in qs ensures q !in gone { assert HasTag(s, q); }
      WithoutNone(qs, gone);
    } else {
      assert Items(s) == Items(l) + Tags(qs);
      StripItemsConcat(Items(l), Tags(qs), gone);
      NothingToStrip(Items(l), gone);
      StripTags(qs, gone);
      StripStackedForm(l, qs, kept, gone);
    }
  }

  lemma StripStackedForm(l: Line, qs: seq<Qid>, kept: seq<Qid>, gone: set<Qid>)
    requires WrittenOut(l) && IsAttr(l) && qs != []
    requires !Untouched(Stack(l, qs), gone)
    requires StripItems(Items(Stack(l, qs)), gone) == Items(l) + Tags(kept)
    ensures StripSet(Stack(l, qs), gone) == Some(Stack(l, kept))
  {
    var rest := Items(l) + Tags(kept);
    assert |rest| == |Items(l)| + |kept|;
    if kept == [] {
      assert rest == Items(l);
    } else if Items(l) == [] {
      assert rest == Tags(kept);
    }
  }

  lemma {:induction false} WithoutNone(qs: seq<Qid>, gone: set<Qid>)
    requires forall q | q in qs :: q !in gone
    ensures O.Without(qs, gone) == qs
  {
    if qs != [] {
      var init, last := qs[..|qs| - 1], qs[|qs| - 1];
      assert qs == init + [last] && last in qs;
      forall q | q in init ensures q !in gone { assert q in init + [last]; }
      WithoutNone(init, gone);
    }
  }

  lemma StripStandalone(l: Line, qs: seq<Qid>, gone: set<Qid>)
    requires qs != []
    ensures StripSet(Standalone(l, qs), gone) ==
            var kept := O.Without(qs, gone); if kept == [] then None else Some(Standalone(l, kept))
  {
    var s, kept := Standalone(l, qs), O.Without(qs, gone);
    StripTags(qs, gone);
    forall q ensures HasTag(s, q) <==> q in qs { O.StackHasTag(l, qs, q); }
    if Untouched(s, gone) {
      forall q | q in qs ensures q !in gone { assert HasTag(s, q); }
      WithoutNone(qs, gone);
    } else {
      assert |Tags(kept)| == |kept|;
    }
  }

  ghost predicate FileFree(f: File, gone: set<Qid>) { forall q | q in gone :: Free(f, q) }

  ghost predicate Original(f: File) { forall l | l in f :: WrittenOut(l) }

  lemma StripBlock(f: File, o: O.Overlay, gone: set<Qid>, i: nat)
    requires O.Fits(f, o) && i < |f| && FileFree(f, gone) && Original(f)
    ensures O.Fits(f, O.Keep(o, gone))
    ensures StripFile(O.Block(f, o, i), gone) == O.Block(f, O.Keep(o, gone), i)
  {
    O.KeepFits(f, o, gone);
    var above, line := Standalone(f[i], o.above[i]), Stack(f[i], o.stacked[i]);
    assert f[i] in f;
    assert Untouched(f[i], gone) by {
      forall q | q in gone ensures !HasTag(f[i], q) { assert Free(f, q); assert O.FreeLine(f[i], q); }
    }
    StripStacked(f[i], o.stacked[i], gone);
    StripOneLine(line, gone);
    if o.above[i] == [] {
      assert O.Block(f, o, i) == [line];
    } else {
      StripStandalone(f[i], o.above[i], gone);
      StripOneLine(above, gone);
      StripFileConcat([above], [line], gone);
    }
  }

  ghost predicate BlockStrips(f: File, o: O.Overlay, k: O.Overlay, gone: set<Qid>, i: nat)
    requires O.Fits(f, o) && O.Fits(f, k) && i < |f|
  {
    StripFile(O.Block(f, o, i), gone) == O.Block(f, k, i)
  }

  lemma {:induction false} BlocksStrip(f: File, o: O.Overlay, k: O.Overlay, gone: set<Qid>, n: nat)
    requires O.Fits(f, o) && O.Fits(f, k) && n <= |f|
    requires forall i {:trigger BlockStrips(f, o, k, gone, i)} | 0 <= i < n :: BlockStrips(f, o, k, gone, i)
    ensures StripFile(O.Part(f, o, 0, n), gone) == O.Part(f, k, 0, n)
  {
    if n > 0 {
      BlocksStrip(f, o, k, gone, n - 1);
      assert BlockStrips(f, o, k, gone, n - 1);
      StripFileConcat(O.Part(f, o, 0, n - 1), O.Block(f, o, n - 1), gone);
    }
  }

  /** Removing tags from a rendered overlay renders the filtered one. */
  lemma StrippingFilters(f: File, o: O.Overlay, gone: set<Qid>)
    requires O.Fits(f, o) && FileFree(f, gone) && Original(f)
    ensures O.Fits(f, O.Keep(o, gone))
    ensures StripFile(O.Render(f, o), gone) == O.Render(f, O.Keep(o, gone))
  {
    O.KeepFits(f, o, gone);
    var k := O.Keep(o, gone);
    forall i: nat | i < |f| ensures BlockStrips(f, o, k, gone, i) {
      StripBlock(f, o, gone, i);
    }
    BlocksStrip(f, o, k, gone, |f|);
  }

  // ---- what stripping makes of one line ---------------------------------------------------------------------------

  lemma StripTag(q: Qid)
    ensures StripItems([Tag(q)], {q}) == []
  {
    assert [Tag(q)][..0] == [];
  }

  lemma StripLast(before: seq<Item>, q: Qid)
    requires StripItems(before, {q}) == before
    ensures StripItems(before + [Tag(q)], {q}) == before
  {
    StripItemsConcat(before, [Tag(q)], {q});
    StripTag(q);
  }

  lemma StripBefore(before: seq<Item>, q: Qid, after: seq<Item>)
    requires StripItems(before, {q}) == before && StripItems(after, {q}) == after
    ensures StripItems(before + [Tag(q)] + after, {q}) == before + after
  {
    StripItemsConcat(before + [Tag(q)], after, {q});
    StripLast(before, q);
  }

  lemma StripBetween(before: seq<Item>, q: Qid, after: seq<Item>)
    requires Tag(q) !in before && Tag(q) !in after
    ensures StripItems(before + [Tag(q)] + after, {q}) == before + after
  {
    NothingToStrip(before, {q});
    NothingToStrip(after, {q});
    StripBefore(before, q, after);
  }

  /** A tag is taken out of its list; alone on a line it takes the line with it, alone in a clause the clause. */
  lemma StripLineTakesOut(indent: string, before: seq<Item>, q: Qid, after: seq<Item>, tail: string, d: Option<Name>)
    requires Tag(q) !in before && Tag(q) !in after
    ensures var items := before + [Tag(q)] + after;
      && StripLine(ToAdditive(indent, Some(items), tail), q)
         == Some(ToAdditive(indent, if |items| == 1 then None else Some(before + after), tail))
      && StripLine(Attrs(indent, items, tail, d), q)
         == if |items| == 1 && tail == "" then None else Some(Attrs(indent, before + after, tail, d))
  {
    StripBetween(before, q, after);
    var items := before + [Tag(q)] + after;
    assert items[|before|] == Tag(q);
  }

  lemma {:induction false} StripAll(items: seq<Item>, q: Qid)
    requires forall i | 0 <= i < |items| :: items[i] == Tag(q)
    ensures StripItems(items, {q}) == []
  {
    if items != [] { StripAll(items[..|items| - 1], q); }
  }

  /** A list of nothing but the tag, more than once, keeps it once: stripping does not remove it. */
  lemma RepeatedTagStays(indent: string, items: seq<Item>, q: Qid, tail: string, d: Option<Name>)
    requires |items| > 1 && forall i | 0 <= i < |items| :: items[i] == Tag(q)
    ensures StripLine(Attrs(indent, items, tail, d), q) == Some(Attrs(indent, [Tag(q)], tail, d))
  {
    StripAll(items, q);
    assert items[0] == Tag(q);
  }
}
