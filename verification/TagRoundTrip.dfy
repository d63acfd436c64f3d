/** When trimming an open batch is the same as never having applied the recycled tags, and how it can fail to be. */
module TagRoundTrip {

  import opened Options
  import opened TagInsertion
  import opened TagTrimming
  import opened TagFiltering
  import opened TagBatch
  import O = TagOverlay

  // ---- which trims go through -----------------------------------------------------------------------------

  ghost predicate AllTidy(files: Files) { forall p | p in files :: Tidy(files[p]) }

  lemma {:induction false} DropKeepsTags(f: File, q: Qid)
    ensures Carries(DropImport(f), q) <==> Carries(f, q)
  {
    if f != [] {
      var init, last := f[..|f| - 1], f[|f| - 1];
      DropKeepsTags(init, q);
      assert f == init + [last];
      CarriesSplits(init, [last], q);
      CarriesSplits(DropImport(init), if last == Import(CrossRefAttribute) then [] else [last], q);
    }
  }

  /** On one file: the tags are all there before the edit and all gone afterwards. */
  ghost predicate Works(files: Files, recycle: seq<Recycled>, p: Path) {
    p in files && AllRemoved(files[p], QidsFor(recycle, p))
  }

  lemma WorksPerTag(files: Files, recycle: seq<Recycled>, r: Recycled)
    requires r.path in files
    ensures Present(Trimmed(files, recycle), r) <==>
            var qs := QidsFor(recycle, r.path);
            Carries(if qs == [] then files[r.path] else Rewrite(files[r.path], qs), r.qid)
  {
    DropKeepsTags(Rewrite(files[r.path], QidsFor(recycle, r.path)), r.qid);
  }

  lemma TrimWorksOnFile(files: Files, recycle: seq<Recycled>, p: Path)
    requires Trim(files, recycle).Some? && p in files
    ensures Works(files, recycle, p)
  {
    var qs := QidsFor(recycle, p);
    forall q | q in qs ensures Carries(files[p], q) && !Carries(Rewrite(files[p], qs), q) {
      QidsForMembers(recycle, p, q);
      var r := Recycled(q, p);
      assert Present(files, r) && !Present(Trimmed(files, recycle), r);
      WorksPerTag(files, recycle, r);
    }
  }

  lemma TrimWorksByFile(files: Files, recycle: seq<Recycled>)
    ensures Trim(files, recycle).Some? <==> forall r | r in recycle :: Works(files, recycle, r.path)
  {
    if Trim(files, recycle).Some? {
      forall r | r in recycle ensures Works(files, recycle, r.path) {
        assert Present(files, r);
        TrimWorksOnFile(files, recycle, r.path);
      }
    } else {
      var r :| r in recycle && (!Present(files, r) || Present(Trimmed(files, recycle), r));
      QidsForMembers(recycle, r.path, r.qid);
      assert Recycled(r.qid, r.path) == r;
      if r.path in files { WorksPerTag(files, recycle, r); }
      assert !Works(files, recycle, r.path);
    }
  }

  /** A trim goes through exactly when each tag is on one line of its file and no line has two of them. */
  lemma TrimSucceedsIff(files: Files, recycle: seq<Recycled>)
    requires AllTidy(files)
    ensures Trim(files, recycle).Some? <==>
            forall r | r in recycle :: r.path in files && Trimmable(files[r.path], QidsFor(recycle, r.path))
  {
    TrimWorksByFile(files, recycle);
    forall r | r in recycle && r.path in files
      ensures Works(files, recycle, r.path) <==> Trimmable(files[r.path], QidsFor(recycle, r.path))
    {
      RemovedIffTrimmable(files[r.path], QidsFor(recycle, r.path));
    }
  }

  // ---- opened files are tidy ---------------------------------------------------------------------------------

  ghost predicate Pristine(f: File) { Original(f) && Tidy(f) }

  lemma TagsAreDistinct(l: Line, qs: seq<Qid>)
    requires NoRepeats(l) && Distinct(qs) && forall q | q in qs :: !HasTag(l, q)
    ensures NoRepeats(Stack(l, qs)) && NoRepeats(Standalone(l, qs))
  {
    var items := Items(l) + Tags(qs);
    forall i, j | 0 <= i < j < |items| && items[i].Tag? ensures items[i] != items[j] {
      if j >= |Items(l)| && i < |Items(l)| {
        assert qs[j - |Items(l)|] in qs;
        assert Items(l)[i] in Items(l);
      }
    }
    assert IsAttr(l) ==> Items(Stack(l, qs)) == items || Stack(l, qs) == l;
  }

  lemma BlockIsTidy(f: File, o: O.Overlay, i: nat)
    requires Tidy(f) && AllSound(f, o) && i < |f|
    ensures Tidy(O.Block(f, o, i))
  {
    assert f[i] in f;
    forall q | q in o.stacked[i] ensures !HasTag(f[i], q) { assert O.FreeLine(f[i], q); }
    forall q | q in o.above[i] ensures !HasTag(f[i], q) { assert O.FreeLine(f[i], q); }
    TagsAreDistinct(f[i], o.stacked[i]);
    TagsAreDistinct(f[i], o.above[i]);
  }

  lemma {:induction false} RenderIsTidy(f: File, o: O.Overlay, n: nat)
    requires Tidy(f) && AllSound(f, o) && n <= |f|
    ensures Tidy(O.Part(f, o, 0, n))
  {
    if n > 0 {
      RenderIsTidy(f, o, n - 1);
      BlockIsTidy(f, o, n - 1);
    }
  }

  lemma OpenedIsTidy(f: File, requests: seq<Request>)
    requires Tidy(f) && O.AllFree(f, requests)
    ensures Tidy(OpenFile(f, requests))
  {
    O.InsertionsAreAnOverlay(f, requests);
    InsertionsAreSound(f, requests);
    RenderIsTidy(f, O.PlaceAll(f, requests), |f|);
    var tagged := ApplyAll(f, requests);
    forall l | l in AddImport(tagged) ensures NoRepeats(l) {
      AddsOneLine(tagged, l);
    }
  }

  // ---- whether any tag is left ---------------------------------------------------------------------------------

  ghost predicate Lands(f: File, r: Request) { FindDecl(f, r.decl).Some? }

  lemma {:induction false} InBlockHasTag(f: File, a: nat, q: Qid)
    requires a <= |f| && InBlock(f, a, q)
    ensures AnyTag(f)
    decreases a
  {
    if HasTag(f[a - 1], q) {
      assert Tag(q).Tag? && HoldsTag(f[a - 1]) && f[a - 1] in f;
    } else {
      InBlockHasTag(f, a - 1, q);
    }
  }

  lemma LandingLeavesATag(f: File, r: Request)
    requires Lands(f, r)
    ensures AnyTag(ApplyOne(f, r.decl, r.qid))
  {
    var i := FindDecl(f, r.decl).value;
    if AlreadyTagged(f, i, r.qid) {
      if HasTag(f[i], r.qid) {
        assert Tag(r.qid).Tag? && HoldsTag(f[i]) && f[i] in f;
      } else {
        InBlockHasTag(f, Anchor(f, i), r.qid);
      }
    } else {
      var a := Anchor(f, i);
      var l := if a > 0 && IsAttr(f[a - 1]) then Stack(f[a - 1], [r.qid]) else Standalone(f[a], [r.qid]);
      O.StackHasTag(if a > 0 then f[a - 1] else f[a], [r.qid], r.qid);
      O.StackHasTag(f[a], [r.qid], r.qid);
      assert Tag(r.qid).Tag? && HoldsTag(l);
      var g := ApplyOne(f, r.decl, r.qid);
      assert g[if a > 0 && IsAttr(f[a - 1]) then a - 1 else a] == l;
    }
  }

  lemma {:induction false} TaggedIffLanded(f: File, requests: seq<Request>)
    requires O.AllFree(f, requests)
    ensures AnyTag(ApplyAll(f, requests)) <==> AnyTag(f) || exists r :: r in requests && Lands(f, r)
    ensures (forall r | r in requests :: !Lands(f, r)) ==> ApplyAll(f, requests) == f
  {
    if requests != [] {
      var init, r := requests[..|requests| - 1], requests[|requests| - 1];
      assert requests == init + [r];
      TaggedIffLanded(f, init);
      O.InsertionsAreAnOverlay(f, init);
      O.DeclSeesThrough(f, O.PlaceAll(f, init), r.decl);
      if Lands(f, r) {
        LandingLeavesATag(ApplyAll(f, init), r);
        assert r in requests;
      }
    }
  }

  lemma AddsOneLine(f: File, l: Line)
    ensures l in f ==> l in AddImport(f)
    ensures l in AddImport(f) ==> l in f || l == Import(CrossRefAttribute)
  {
    if Slot(f).Some? {
      var k := Slot(f).value;
      assert f == f[..k] + f[k..];
    }
  }

  lemma ImportHoldsNoTag(f: File)
    ensures AnyTag(AddImport(f)) <==> AnyTag(f)
  {
    if AnyTag(f) {
      var l :| l in f && HoldsTag(l);
      AddsOneLine(f, l);
    }
    if AnyTag(AddImport(f)) {
      var l :| l in AddImport(f) && HoldsTag(l);
      AddsOneLine(f, l);
    }
  }

  // ---- one file ----------------------------------------------------------------------------------------------------

  /**
   When the import differs. A file that has it without any tag loses it with the last of the batch's tags. A file
   that lacks it, and can take it, keeps it if all of its own tags are upstream's and no tag of the batch is kept; and
   opening with kept tags that have no declaration in the file would have added it for nothing.
   */
  ghost predicate StrandedFile(f: File, kept: seq<Request>) {
    var landed := exists r :: r in kept && Lands(f, r);
    if Import(CrossRefAttribute) in f then !AnyTag(f) && !landed
    else Slot(f).Some? && if AnyTag(f) then kept == [] else kept != [] && !landed
  }

  lemma {:induction false} DropShortens(f: File)
    ensures |DropImport(f)| <= |f|
    ensures Import(CrossRefAttribute) in f ==> |DropImport(f)| < |f|
  {
    if f != [] {
      DropShortens(f[..|f| - 1]);
      assert f == f[..|f| - 1] + [f[|f| - 1]];
    }
  }

  lemma RemovingIsKeeping(f: File, requests: seq<Request>, gone: set<Qid>)
    requires O.AllFree(f, requests) && FileFree(f, gone) && Original(f)
    ensures StripFile(ApplyAll(f, requests), gone) == ApplyAll(f, O.Kept(requests, gone))
  {
    O.InsertionsAreAnOverlay(f, requests);
    O.InsertionsAreAnOverlay(f, O.Kept(requests, gone));
    O.KeepPlaceAll(f, requests, gone);
    StrippingFilters(f, O.PlaceAll(f, requests), gone);
  }

  lemma TrimmedFile(f: File, requests: seq<Request>, qs: seq<Qid>)
    requires Pristine(f) && O.AllFree(f, requests) && FileFree(f, set q | q in qs)
    requires qs != [] && requests != [] && AllRemoved(OpenFile(f, requests), qs)
    ensures var kept := ApplyAll(f, O.Kept(requests, set q | q in qs));
      TrimFile(OpenFile(f, requests), qs) == if AnyTag(kept) then AddImport(kept) else DropImport(AddImport(kept))
  {
    var gone := set q | q in qs;
    OpenedIsTidy(f, requests);
    RemovedIffTrimmable(OpenFile(f, requests), qs);
    AddImportCommutes(ApplyAll(f, requests), gone);
    RemovingIsKeeping(f, requests, gone);
    ImportHoldsNoTag(ApplyAll(f, O.Kept(requests, gone)));
  }

  lemma AbsentWithoutRequests(f: File, qs: seq<Qid>)
    requires FileFree(f, set q | q in qs) && qs != []
    ensures !AllRemoved(f, qs)
  {
    var q := qs[0];
    assert q in (set x | x in qs) && Free(f, q);
    forall l | l in f ensures !HasTag(l, q) { assert O.FreeLine(l, q); }
    assert q in qs && !Carries(f, q);
  }

  lemma AddImportGrows(f: File)
    ensures AddImport(f) == f <==> Import(CrossRefAttribute) in f || Slot(f).None?
  {
    if Import(CrossRefAttribute) !in f && Slot(f).Some? { assert |AddImport(f)| == |f| + 1; }
  }

  lemma ImportAsKept(f: File, kept: seq<Request>)
    requires O.AllFree(f, kept)
    ensures var h := ApplyAll(f, kept);
      (if AnyTag(h) then AddImport(h) else DropImport(AddImport(h))) == OpenFile(f, kept) <==> !StrandedFile(f, kept)
  {
    TaggedIffLanded(f, kept);
    AddImportGrows(f);
    if Import(CrossRefAttribute) in f {
      DropShortens(f);
    } else {
      DropUndoesAdd(f);
    }
  }

  lemma TrimIsKeptOnlyInFile(f: File, requests: seq<Request>, qs: seq<Qid>)
    requires Pristine(f) && O.AllFree(f, requests) && FileFree(f, set q | q in qs)
    requires qs != [] && AllRemoved(OpenFile(f, requests), qs)
    ensures var kept := O.Kept(requests, set q | q in qs);
      TrimFile(OpenFile(f, requests), qs) == OpenFile(f, kept) <==> !StrandedFile(f, kept)
  {
    if requests == [] { AbsentWithoutRequests(f, qs); }
    var kept := O.Kept(requests, set q | q in qs);
    TrimmedFile(f, requests, qs);
    forall r | r in kept ensures Free(f, r.qid) { assert r in requests; }
    ImportAsKept(f, kept);
  }

  // ---- the batch -----------------------------------------------------------------------------------------------

  function KeptEntries(entries: seq<Entry>, recycle: seq<Recycled>): seq<Entry> {
    if entries == [] then [] else
      var last := entries[|entries| - 1];
      if Recycled(last.qid, last.path) in recycle then KeptEntries(entries[..|entries| - 1], recycle)
      else KeptEntries(entries[..|entries| - 1], recycle) + [last]
  }

  lemma {:induction false} KeptByFile(entries: seq<Entry>, recycle: seq<Recycled>, p: Path)
    ensures ForPath(KeptEntries(entries, recycle), p) ==
            O.Kept(ForPath(entries, p), set q | q in QidsFor(recycle, p))
  {
    if entries != [] {
      var init, last := entries[..|entries| - 1], entries[|entries| - 1];
      KeptByFile(init, recycle, p);
      QidsForMembers(recycle, p, last.qid);
      var kept := KeptEntries(init, recycle);
      assert (kept + [last])[..|kept|] == kept;
      var rs := ForPath(init, p);
      assert (rs + [Request(last.decl, last.qid)])[..|rs|] == rs;
    }
  }

  /** The batch's own tags are in none of the files it starts from. */
  ghost predicate NewTags(files: Files, entries: seq<Entry>, recycle: seq<Recycled>) {
    && (forall e | e in entries && e.path in files :: Free(files[e.path], e.qid))
    && (forall r | r in recycle && r.path in files :: Free(files[r.path], r.qid))
  }

  ghost predicate AllPristine(files: Files) { forall p | p in files :: Pristine(files[p]) }

  ghost predicate Stranded(files: Files, entries: seq<Entry>, recycle: seq<Recycled>, p: Path)
    requires p in files
  {
    QidsFor(recycle, p) != [] && StrandedFile(files[p], ForPath(KeptEntries(entries, recycle), p))
  }

  lemma NewInFile(files: Files, entries: seq<Entry>, recycle: seq<Recycled>, p: Path)
    requires NewTags(files, entries, recycle) && p in files
    ensures O.AllFree(files[p], ForPath(entries, p))
    ensures FileFree(files[p], set q | q in QidsFor(recycle, p))
  {
    forall r | r in ForPath(entries, p) ensures Free(files[p], r.qid) {
      ForPathMembers(entries, p, r);
      assert Entry(p, r.decl, r.qid) in entries;
    }
    forall q | q in QidsFor(recycle, p) ensures Free(files[p], q) {
      QidsForMembers(recycle, p, q);
      assert Recycled(q, p) in recycle;
    }
  }

  /** If the trim goes through, every file is what opening with the kept tags alone gives, or it is stranded. */
  lemma TrimIsKeptOnly(files: Files, entries: seq<Entry>, recycle: seq<Recycled>, p: Path)
    requires AllPristine(files) && NewTags(files, entries, recycle) && p in files
    requires Trim(Open(files, entries), recycle).Some?
    ensures Trim(Open(files, entries), recycle).value[p] == Open(files, KeptEntries(entries, recycle))[p]
            <==> !Stranded(files, entries, recycle, p)
  {
    var live, qs := Open(files, entries), QidsFor(recycle, p);
    NewInFile(files, entries, recycle, p);
    KeptByFile(entries, recycle, p);
    if qs == [] {
      assert (set q | q in qs) == {};
      KeepsEverything(ForPath(entries, p));
    } else {
      TrimWorksByFile(live, recycle);
      QidsForMembers(recycle, p, qs[0]);
      assert Works(live, recycle, Recycled(qs[0], p).path);
      TrimIsKeptOnlyInFile(files[p], ForPath(entries, p), qs);
    }
  }

  lemma {:induction false} KeepsEverything(requests: seq<Request>)
    ensures O.Kept(requests, {}) == requests
  {
    if requests != [] {
      var init, last := requests[..|requests| - 1], requests[|requests| - 1];
      KeepsEverything(init);
      assert O.Kept(requests, {}) == init + [last];
    }
  }

  /** A batch that is trimmed is the batch of kept tags exactly if none of its files is stranded. */
  lemma TrimmedBatchIsKeptBatch(files: Files, entries: seq<Entry>, recycle: seq<Recycled>)
    requires AllPristine(files) && NewTags(files, entries, recycle)
    ensures var trimmed := Trim(Open(files, entries), recycle);
      trimmed.Some? ==>
      (trimmed.value == Open(files, KeptEntries(entries, recycle)) <==>
       forall p | p in files :: !Stranded(files, entries, recycle, p))
  {
    var trimmed, kept := Trim(Open(files, entries), recycle), Open(files, KeptEntries(entries, recycle));
    if trimmed.Some? {
      assert trimmed.value.Keys == kept.Keys == files.Keys;
      forall p | p in files ensures trimmed.value[p] == kept[p] <==> !Stranded(files, entries, recycle, p) {
        TrimIsKeptOnly(files, entries, recycle, p);
      }
      assert trimmed.value == kept <==> forall p | p in files :: trimmed.value[p] == kept[p];
    }
  }

  /** It is trimmed exactly when every recycled tag is on one line of its file, and no two are on the same one. */
  lemma TrimmedBatchIsPushedIff(files: Files, entries: seq<Entry>, recycle: seq<Recycled>)
    requires AllPristine(files) && NewTags(files, entries, recycle)
    ensures var live := Open(files, entries);
      Trim(live, recycle).Some? <==>
      forall r | r in recycle :: r.path in live && Trimmable(live[r.path], QidsFor(recycle, r.path))
  {
    var live := Open(files, entries);
    forall p | p in live ensures Tidy(live[p]) {
      NewInFile(files, entries, recycle, p);
      OpenedIsTidy(files[p], ForPath(entries, p));
    }
    TrimSucceedsIff(live, recycle);
  }

  // ---- the ways a trim falls short -----------------------------------------------------------------------------

  /** Two tags of one line, both recycled: the second edit overwrites the first, and the trim refuses. */
  lemma SharedLineIsRefused(files: Files, recycle: seq<Recycled>, p: Path, i: nat, q: Qid, x: Qid)
    requires Recycled(q, p) in recycle && Recycled(x, p) in recycle && q != x
    requires p in files && i < |files[p]| && HasTag(files[p][i], q) && HasTag(files[p][i], x)
    ensures Trim(files, recycle).None?
  {
    var qs := QidsFor(recycle, p);
    QidsForMembers(recycle, p, q);
    QidsForMembers(recycle, p, x);
    assert !Alone(files[p], qs, i);
    if Trim(files, recycle).Some? {
      TrimWorksOnFile(files, recycle, p);
      RemovedOnlyIfTrimmable(files[p], qs);
    }
  }

  /** Such a line is what two tags of one plain declaration make. */
  lemma TwoTagsShareALine(indent: string, d: Name, text: string, q: Qid, x: Qid)
    requires q != x
    ensures var f := [Plain(indent, Some(d), text)];
      ApplyAll(f, [Request(d, q), Request(d, x)]) == [Attrs(indent, [Tag(q), Tag(x)], "", None)] + f
  {
    var f, r, s := [Plain(indent, Some(d), text)], Request(d, q), Request(d, x);
    assert [r, s][..1] == [r] && [r][..0] == [];
    assert ApplyAll(f, [r]) == ApplyOne(ApplyAll(f, []), d, q) == ApplyOne(f, d, q);
    var one := [Attrs(indent, [Tag(q)], "", None)] + f;
    assert Standalone(f[0], [q]) == one[0];
    assert FindDecl(f, d) == Some(0) && Anchor(f, 0) == 0 && !AlreadyTagged(f, 0, q);
    assert ApplyOne(f, d, q) == one;
    assert FindFrom(one, d, 0) == Some(1);
    assert !HasTag(one[0], x);
    assert Stack(one[0], [x]).items == [Tag(q), Tag(x)];
    assert ApplyOne(one, d, x) == one[0 := Stack(one[0], [x])];
  }

  /** A file with one import that the attribute's import goes after, and one declaration. */
  function Small(path: string, d: Name, text: string): File {
    [Import(Named(path)), Plain("", Some(d), text)]
  }

  lemma FindInSmall(path: string, d: Name, text: string, name: Name)
    ensures FindFrom(Small(path, d, text), name, 0) == if name == d then Some(1) else None
  {
    var f := Small(path, d, text);
    assert FindFrom(f, name, 2) == None;
    assert FindFrom(f, name, 1) == if name == d then Some(1) else None;
  }

  lemma OneTagIsTrimmable(f: File, q: Qid, i: nat)
    requires OnlyOn(f, q, i)
    ensures Trimmable(f, [q])
  {
    forall x | x in [q] ensures exists j: nat :: OnlyOn(f, x, j) { assert OnlyOn(f, x, i); }
  }

  lemma OneRecycled(p: Path, q: Qid)
    ensures QidsFor([Recycled(q, p)], p) == [q] && (set x | x in [q]) == {q}
  {
    assert [Recycled(q, p)][..0] == [];
  }

  /** A trim of one tag that is on one line of its file goes through, and leaves a stranded file wrong. */
  lemma WrongAfterTrim(f: File, p: Path, entries: seq<Entry>, q: Qid, i: nat)
    requires Pristine(f) && Free(f, q) && O.AllFree(f, ForPath(entries, p))
    requires OnlyOn(OpenFile(f, ForPath(entries, p)), q, i) && StrandedFile(f, O.Kept(ForPath(entries, p), {q}))
    ensures var files, recycle := map[p := f], [Recycled(q, p)];
      var trimmed := Trim(Open(files, entries), recycle);
      trimmed.Some? && trimmed.value[p] != Open(files, KeptEntries(entries, recycle))[p]
  {
    var files, recycle := map[p := f], [Recycled(q, p)];
    forall e | e in entries && e.path in files ensures Free(f, e.qid) {
      ForPathMembers(entries, p, Request(e.decl, e.qid));
      assert Request(e.decl, e.qid) in ForPath(entries, p);
    }
    OneRecycled(p, q);
    OneTagIsTrimmable(Open(files, entries)[p], q, i);
    TrimmedBatchIsPushedIff(files, entries, recycle);
    KeptByFile(entries, recycle, p);
    TrimIsKeptOnly(files, entries, recycle, p);
  }

  lemma OnlyOnInserted(f: File, q: Qid, i: nat, k: nat, l: Line)
    requires OnlyOn(f, q, i) && k <= |f| && !HasTag(l, q)
    ensures OnlyOn(TagInsertion.Inserted(f, k, l), q, if i < k then i else i + 1)
  {
    var g := TagInsertion.Inserted(f, k, l);
    forall j | 0 <= j < |g| && j != (if i < k then i else i + 1) ensures !HasTag(g[j], q) {
      if j < k { assert g[j] == f[j]; } else if j > k { assert g[j] == f[j - 1]; }
    }
  }

  lemma InsertsOneLine(f: File, i: nat, d: Name, q: Qid)
    requires Free(f, q) && FindDecl(f, d) == Some(i) && f[i].Plain? && (i == 0 || f[i - 1].Import?)
    ensures ApplyAll(f, [Request(d, q)]) == TagInsertion.Inserted(f, i, Standalone(f[i], [q]))
  {
    assert [Request(d, q)][..0] == [];
    assert Anchor(f, i) == i && O.FreeLine(f[i], q) && !AlreadyTagged(f, i, q);
  }

  /** A tag that needs a line of its own is on that line alone, with or without the import added. */
  lemma LandsOnOneLine(f: File, i: nat, d: Name, q: Qid)
    requires Free(f, q) && FindDecl(f, d) == Some(i) && f[i].Plain? && (i == 0 || f[i - 1].Import?)
    ensures exists j: nat :: OnlyOn(OpenFile(f, [Request(d, q)]), q, j)
  {
    var l := Standalone(f[i], [q]);
    var tagged := ApplyAll(f, [Request(d, q)]);
    InsertsOneLine(f, i, d, q);
    O.StackHasTag(f[i], [q], q);
    assert tagged[i] == l;
    forall j | 0 <= j < |tagged| && j != i ensures !HasTag(tagged[j], q) {
      assert O.FreeLine(if j < i then f[j] else f[j - 1], q);
    }
    assert OnlyOn(tagged, q, i);
    if OpenFile(f, [Request(d, q)]) != tagged {
      OnlyOnInserted(tagged, q, i, Slot(tagged).value, Import(CrossRefAttribute));
    }
  }

  lemma OneEntry(p: Path, d: Name, q: Qid)
    ensures ForPath([Entry(p, d, q)], p) == [Request(d, q)] && O.Kept([Request(d, q)], {q}) == []
  {
    assert [Entry(p, d, q)][..0] == [] && [Request(d, q)][..0] == [];
  }

  /** Its only tag recycled, a file that had the import without a tag loses it. */
  lemma ImportIsLost(p: Path, d: Name, text: string, q: Qid)
    ensures var files := map[p := [Import(CrossRefAttribute), Plain("", Some(d), text)]];
      var entries, recycle := [Entry(p, d, q)], [Recycled(q, p)];
      var trimmed := Trim(Open(files, entries), recycle);
      trimmed.Some? && trimmed.value[p] != Open(files, KeptEntries(entries, recycle))[p]
  {
    var f := [Import(CrossRefAttribute), Plain("", Some(d), text)];
    var entries := [Entry(p, d, q)];
    assert FindFrom(f, d, 1) == Some(1) && FindDecl(f, d) == Some(1);
    OneEntry(p, d, q);
    LandsOnOneLine(f, 1, d, q);
    var j: nat :| OnlyOn(OpenFile(f, [Request(d, q)]), q, j);
    assert f[0] == Import(CrossRefAttribute);
    WrongAfterTrim(f, p, entries, q, j);
  }

  /** The small file with an upstream tag on another declaration. */
  function Upstream(path: string, d: Name, e: Name, text: string, x: Qid): File {
    Small(path, d, text) + [Attrs("", [Tag(x)], text, Some(e))]
  }

  lemma UpstreamIsStranded(path: string, d: Name, e: Name, text: string, x: Qid, q: Qid)
    requires q != x
    ensures var f := Upstream(path, d, e, text, x);
      Pristine(f) && Free(f, q) && StrandedFile(f, []) && FindDecl(f, d) == Some(1)
  {
    var f := Upstream(path, d, e, text, x);
    assert FindFrom(f, d, 1) == Some(1);
    assert Tag(x).Tag? && HoldsTag(f[2]) && f[2] in f && f[0].Import?;
  }

  /** Its only tag of the batch recycled, a file with an upstream tag keeps the import the batch added. */
  lemma ImportIsLeftBehind(p: Path, path: string, d: Name, e: Name, text: string, q: Qid, x: Qid)
    requires q != x
    ensures var files, entries, recycle := map[p := Upstream(path, d, e, text, x)], [Entry(p, d, q)], [Recycled(q, p)];
      var trimmed := Trim(Open(files, entries), recycle);
      trimmed.Some? && trimmed.value[p] != Open(files, KeptEntries(entries, recycle))[p]
  {
    var f := Upstream(path, d, e, text, x);
    UpstreamIsStranded(path, d, e, text, x, q);
    OneEntry(p, d, q);
    LandsOnOneLine(f, 1, d, q);
    var j: nat :| OnlyOn(OpenFile(f, [Request(d, q)]), q, j);
    WrongAfterTrim(f, p, [Entry(p, d, q)], q, j);
  }

  lemma SmallIsStranded(path: string, d: Name, missing: Name, text: string, q: Qid, x: Qid)
    requires d != missing && d != Short(missing)
    ensures var f := Small(path, d, text);
      && Pristine(f) && Free(f, q) && Free(f, x) && FindDecl(f, d) == Some(1) && FindDecl(f, missing) == None
      && StrandedFile(f, [Request(missing, x)])
  {
    var f := Small(path, d, text);
    FindInSmall(path, d, text, d);
    FindInSmall(path, d, text, missing);
    FindInSmall(path, d, text, Short(missing));
    assert f[0].Import?;
  }

  lemma TwoEntries(p: Path, d: Name, q: Qid, e: Name, x: Qid)
    requires q != x
    ensures var r, s := Request(d, q), Request(e, x);
      ForPath([Entry(p, d, q), Entry(p, e, x)], p) == [r, s] && O.Kept([r, s], {q}) == [s]
  {
    OneEntry(p, d, q);
    assert [Entry(p, d, q), Entry(p, e, x)][..1] == [Entry(p, d, q)];
    assert [Request(d, q), Request(e, x)][..1] == [Request(d, q)];
  }

  lemma MissingChangesNothing(f: File, r: Request, s: Request)
    requires Free(f, r.qid) && FindDecl(f, s.decl).None?
    ensures ApplyAll(f, [r, s]) == ApplyAll(f, [r])
  {
    assert [r, s][..1] == [r];
    O.InsertionsAreAnOverlay(f, [r]);
    O.DeclSeesThrough(f, O.PlaceAll(f, [r]), s.decl);
  }

  /** A kept tag whose declaration is not in the file would have added the import that the trim drops. */
  lemma ImportIsMissed(p: Path, path: string, d: Name, missing: Name, text: string, q: Qid, x: Qid)
    requires q != x && d != missing && d != Short(missing)
    ensures var files, entries := map[p := Small(path, d, text)], [Entry(p, d, q), Entry(p, missing, x)];
      var recycle := [Recycled(q, p)];
      var trimmed := Trim(Open(files, entries), recycle);
      trimmed.Some? && trimmed.value[p] != Open(files, KeptEntries(entries, recycle))[p]
  {
    var f := Small(path, d, text);
    SmallIsStranded(path, d, missing, text, q, x);
    TwoEntries(p, d, q, missing, x);
    LandsOnOneLine(f, 1, d, q);
    MissingChangesNothing(f, Request(d, q), Request(missing, x));
    var j: nat :| OnlyOn(OpenFile(f, [Request(d, q)]), q, j);
    WrongAfterTrim(f, p, [Entry(p, d, q), Entry(p, missing, x)], q, j);
  }
}
