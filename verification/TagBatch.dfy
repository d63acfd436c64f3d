/**
 A batch over several files: opening it inserts every tag and the import that provides the attribute, trimming
 removes the recycled ones. Each file comes out as its own functions of its requests and its recycled tags say.
 */
module TagBatch {

  import opened Options
  import opened TagInsertion
  import opened TagTrimming
  import opened TagFiltering
  import O = TagOverlay

  type Path = string
  type Files = map<Path, File>

  datatype Entry = Entry(path: Path, decl: Name, qid: Qid)
  datatype Recycled = Recycled(qid: Qid, path: Path)

  // ---- opening ------------------------------------------------------------------------------------------

  /** The requests for one file, in order. */
  function ForPath(entries: seq<Entry>, p: Path): seq<Request> {
    if entries == [] then [] else
      var last := entries[|entries| - 1];
      if last.path == p then ForPath(entries[..|entries| - 1], p) + [Request(last.decl, last.qid)]
      else ForPath(entries[..|entries| - 1], p)
  }

  lemma {:induction false} ForPathMembers(entries: seq<Entry>, p: Path, r: Request)
    ensures r in ForPath(entries, p) <==> Entry(p, r.decl, r.qid) in entries
  {
    if entries != [] {
      ForPathMembers(entries[..|entries| - 1], p, r);
      assert entries == entries[..|entries| - 1] + [entries[|entries| - 1]];
    }
  }

  lemma ForPathEmpty(entries: seq<Entry>, p: Path)
    ensures ForPath(entries, p) == [] <==> forall e | e in entries :: e.path != p
  {
    forall e | e in entries && e.path == p ensures ForPath(entries, p) != [] {
      ForPathMembers(entries, p, Request(e.decl, e.qid));
    }
    if ForPath(entries, p) != [] { ForPathMembers(entries, p, ForPath(entries, p)[0]); }
  }

  function OpenFile(f: File, requests: seq<Request>): File {
    if requests == [] then f else AddImport(ApplyAll(f, requests))
  }

  function Open(files: Files, entries: seq<Entry>): Files {
    map p | p in files :: OpenFile(files[p], ForPath(entries, p))
  }

  function TaggedAt(files: Files, entries: seq<Entry>, p: Path): File
    requires p in files
  {
    ApplyAll(files[p], ForPath(entries, p))
  }

  /** `now` is `files` with the tags of `entries` inserted. */
  ghost predicate TaggedBy(files: Files, entries: seq<Entry>, now: Files) {
    && now.Keys == files.Keys
    && forall p {:trigger TaggedAt(files, entries, p)} | p in files :: now[p] == TaggedAt(files, entries, p)
  }

  lemma TaggedNext(files: Files, entries: seq<Entry>, e: Entry, now: Files, f: File)
    requires TaggedBy(files, entries, now) && e.path in files
    requires f == ApplyOne(now[e.path], e.decl, e.qid)
    ensures TaggedBy(files, entries + [e], now[e.path := f])
  {
    assert (entries + [e])[..|entries|] == entries;
    var after := now[e.path := f];
    forall p | p in files ensures after[p] == TaggedAt(files, entries + [e], p) {
      assert now[p] == TaggedAt(files, entries, p);
      var rs := ForPath(entries, p);
      assert (rs + [Request(e.decl, e.qid)])[..|rs|] == rs;
    }
  }

  method InsertAll(files: Files, entries: seq<Entry>) returns (now: Files)
    requires forall e | e in entries :: e.path in files
    ensures TaggedBy(files, entries, now)
  {
    now := files;
    for n := 0 to |entries|
      invariant TaggedBy(files, entries[..n], now)
    {
      var e := entries[n];
      assert entries[..n + 1] == entries[..n] + [e];
      var f := InsertTag(now[e.path], Request(e.decl, e.qid));
      TaggedNext(files, entries[..n], e, now, f);
      now := now[e.path := f];
    }
    assert entries[..|entries|] == entries;
  }

  method AddImports(files: Files, paths: set<Path>) returns (now: Files)
    requires paths <= files.Keys
    ensures now.Keys == files.Keys
    ensures forall p | p in files :: now[p] == if p in paths then AddImport(files[p]) else files[p]
  {
    now := files;
    var todo := paths;
    while todo != {}
      invariant todo <= paths && now.Keys == files.Keys
      invariant forall p | p in files :: now[p] == if p in paths - todo then AddImport(files[p]) else files[p]
    {
      var p :| p in todo;
      var f := AddImportLoop(now[p]);
      now, todo := now[p := f], todo - {p};
    }
  }

  /** `apply_all` and then `add_crossref_imports`. */
  method OpenBatch(files: Files, entries: seq<Entry>) returns (after: Files)
    requires forall e | e in entries :: e.path in files
    ensures after == Open(files, entries)
  {
    var tagged := InsertAll(files, entries);
    var paths := set e | e in entries :: e.path;
    after := AddImports(tagged, paths);
    forall p | p in files ensures after[p] == Open(files, entries)[p] {
      assert tagged[p] == TaggedAt(files, entries, p);
      ForPathEmpty(entries, p);
    }
  }

  // ---- trimming -----------------------------------------------------------------------------------------

  function QidsFor(recycle: seq<Recycled>, p: Path): seq<Qid> {
    if recycle == [] then [] else
      var last := recycle[|recycle| - 1];
      if last.path == p then QidsFor(recycle[..|recycle| - 1], p) + [last.qid]
      else QidsFor(recycle[..|recycle| - 1], p)
  }

  lemma {:induction false} QidsForMembers(recycle: seq<Recycled>, p: Path, q: Qid)
    ensures q in QidsFor(recycle, p) <==> Recycled(q, p) in recycle
  {
    if recycle != [] {
      QidsForMembers(recycle[..|recycle| - 1], p, q);
      assert recycle == recycle[..|recycle| - 1] + [recycle[|recycle| - 1]];
    }
  }

  predicate Present(files: Files, r: Recycled) { r.path in files && Carries(files[r.path], r.qid) }

  function Trimmed(files: Files, recycle: seq<Recycled>): Files {
    map p | p in files :: TrimFile(files[p], QidsFor(recycle, p))
  }

  /** Nothing is written if some tag is not where it should be, or is still there afterwards. */
  function Trim(files: Files, recycle: seq<Recycled>): Option<Files> {
    if exists r :: r in recycle && !Present(files, r) then None
    else if exists r :: r in recycle && Present(Trimmed(files, recycle), r) then None
    else Some(Trimmed(files, recycle))
  }

  method EditFile(f: File, edits: seq<Edit>) returns (g: File)
    ensures g == var e := Edited(f, edits, |f|); if AnyTag(e) then e else DropImport(e)
  {
    var remaining := false;
    var out: File := [];
    g := [];
    for i := 0 to |f|
      invariant out == Edited(f, edits, i) && g == DropImport(out)
      invariant remaining <==> AnyTag(out)
    {
      var l := NewLine(edits, i, f[i]);
      if l.Some? {
        ghost var before := out;
        out := out + [l.value];
        assert out[..|out| - 1] == before;
        if l.value != Import(CrossRefAttribute) {
          g := g + [l.value];
        }
        remaining := remaining || HoldsTag(l.value);
        assert l.value in out;
      }
    }
    if remaining {
      g := out;
    }
  }

  method FindTagged(f: File, q: Qid) returns (r: Option<nat>)
    ensures r == FirstTagged(f, q, 0)
  {
    for i := 0 to |f|
      invariant FirstTagged(f, q, 0) == FirstTagged(f, q, i)
    {
      if HasTag(f[i], q) {
        return Some(i);
      }
    }
    return None;
  }

  function EditsAt(edits: map<Path, seq<Edit>>, p: Path): seq<Edit> {
    if p in edits then edits[p] else []
  }

  ghost predicate PlannedFor(files: Files, recycle: seq<Recycled>, edits: map<Path, seq<Edit>>, p: Path)
    requires p in files
  {
    && EditsAt(edits, p) == Edits(files[p], QidsFor(recycle, p))
    && (p in edits ==> QidsFor(recycle, p) != [])
  }

  /** `edits` has the edits of each file for the tags in `recycle`. */
  ghost predicate Planned(files: Files, recycle: seq<Recycled>, edits: map<Path, seq<Edit>>) {
    && edits.Keys <= files.Keys
    && (forall p {:trigger PlannedFor(files, recycle, edits, p)} | p in files :: PlannedFor(files, recycle, edits, p))
  }

  method Plan(files: Files, recycle: seq<Recycled>) returns (edits: map<Path, seq<Edit>>, missing: seq<Qid>)
    ensures Planned(files, recycle, edits)
    ensures missing != [] <==> exists r :: r in recycle && !Present(files, r)
  {
    edits, missing := map[], [];
    for n := 0 to |recycle|
      invariant Planned(files, recycle[..n], edits)
      invariant missing != [] <==> exists r :: r in recycle[..n] && !Present(files, r)
    {
      var r := recycle[n];
      assert recycle[..n + 1] == recycle[..n] + [r];
      var found: Option<nat> := None;
      if r.path in files {
        found := FindTagged(files[r.path], r.qid);
      }
      PlanNext(files, recycle[..n], r, edits);
      FoundIffPresent(files, r);
      if found.Some? {
        var edit := Edit(found.value, StripLine(files[r.path][found.value], r.qid));
        edits := edits[r.path := EditsAt(edits, r.path) + [edit]];
      } else {
        missing := missing + [r.qid];
      }
    }
    assert recycle[..|recycle|] == recycle;
  }

  lemma FoundIffPresent(files: Files, r: Recycled)
    ensures Present(files, r) <==> r.path in files && FirstTagged(files[r.path], r.qid, 0).Some?
  {
  }

  lemma PlanNext(files: Files, recycle: seq<Recycled>, r: Recycled, edits: map<Path, seq<Edit>>)
    requires Planned(files, recycle, edits)
    ensures !Present(files, r) ==> Planned(files, recycle + [r], edits)
    ensures Present(files, r) ==>
      Planned(files, recycle + [r], edits[r.path := EditsAt(edits, r.path) + EditFor(files[r.path], r.qid)])
  {
    FoundIffPresent(files, r);
    assert (recycle + [r])[..|recycle|] == recycle;
    var after := if Present(files, r) then edits[r.path := EditsAt(edits, r.path) + EditFor(files[r.path], r.qid)]
      else edits;
    forall p | p in files ensures PlannedFor(files, recycle + [r], after, p) {
      assert PlannedFor(files, recycle, edits, p);
      var qs := QidsFor(recycle, p);
      assert (qs + [r.qid])[..|qs|] == qs;
    }
  }

  /** `apply_edits`. */
  method WriteEdits(files: Files, recycle: seq<Recycled>, edits: map<Path, seq<Edit>>) returns (now: Files)
    requires Planned(files, recycle, edits)
    ensures now.Keys == files.Keys
    ensures forall p | p in files :: now[p] == if p in edits then TrimFile(files[p], QidsFor(recycle, p)) else files[p]
  {
    now := files;
    var todo := edits.Keys;
    while todo != {}
      invariant todo <= edits.Keys && now.Keys == files.Keys
      invariant forall p | p in files ::
        now[p] == if p in edits.Keys - todo then TrimFile(files[p], QidsFor(recycle, p)) else files[p]
    {
      var p :| p in todo;
      assert PlannedFor(files, recycle, edits, p);
      var f := EditFile(files[p], edits[p]);
      now, todo := now[p := f], todo - {p};
    }
  }

  /** Plan, refuse if a tag is missing, write, and restore the files if a tag is left. */
  method TrimBatch(files: Files, recycle: seq<Recycled>) returns (pushed: bool, after: Files)
    ensures pushed <==> Trim(files, recycle).Some?
    ensures after == if pushed then Trim(files, recycle).value else files
  {
    var edits, missing := Plan(files, recycle);
    if missing != [] {
      return false, files;
    }
    after := WriteEdits(files, recycle, edits);
    forall p | p in files ensures after[p] == Trimmed(files, recycle)[p] {
      if p !in edits { NothingPlanned(files, recycle, edits, p); }
    }
    assert after == Trimmed(files, recycle);
    if r :| r in recycle && Present(after, r) {
      return false, files;
    }
    return true, after;
  }

  lemma NothingPlanned(files: Files, recycle: seq<Recycled>, edits: map<Path, seq<Edit>>, p: Path)
    requires Planned(files, recycle, edits) && p in files && p !in edits
    requires forall r | r in recycle :: Present(files, r)
    ensures QidsFor(recycle, p) == []
  {
    assert PlannedFor(files, recycle, edits, p);
    var qs := QidsFor(recycle, p);
    if qs != [] {
      var q := qs[|qs| - 1];
      QidsForMembers(recycle, p, q);
      FoundIffPresent(files, Recycled(q, p));
    }
  }
}
