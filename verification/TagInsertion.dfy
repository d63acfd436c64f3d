/**
 Inserting `@[wikidata Q]` tags into a source file, as a list of structured lines. A tag is stacked into
 the attribute line above its declaration, folded into a `to_additive`, or put on a line of its own.
 */
module TagInsertion {

  import opened Options
  import Ids

  type Qid = string
  type Name = string

  datatype Item = Tag(qid: Qid) | Other(text: string)

  /** The module that provides the attribute, or any other. */
  datatype Module = CrossRefAttribute | Named(path: string)

  /**
   `Attrs` is `@[items]tail`, which may go on to declare something on the same line; `ToAdditive` is
   `@[to_additive (attr := clause) rest]`; `Plain` is any other line, a declaration head if `decl` names one.
   */
  datatype Line =
    | Attrs(indent: string, items: seq<Item>, tail: string, decl: Option<Name>)
    | ToAdditive(indent: string, clause: Option<seq<Item>>, rest: string)
    | Plain(indent: string, decl: Option<Name>, text: string)
    | Modifier(indent: string, text: string)
    | Import(of: Module)

  type File = seq<Line>

  function Decl(l: Line): Option<Name> {
    match l
    case Attrs(_, _, _, d) => d
    case Plain(_, d, _) => d
    case _ => None
  }

  function Indent(l: Line): string {
    if l.Import? then "" else l.indent
  }

  predicate IsAttr(l: Line) { l.Attrs? || l.ToAdditive? }

  function Items(l: Line): seq<Item> {
    match l
    case Attrs(_, items, _, _) => items
    case ToAdditive(_, Some(items), _) => items
    case _ => []
  }

  predicate HasTag(l: Line, q: Qid) { Tag(q) in Items(l) }

  // ---- finding the declaration ------------------------------------------------------------------------

  /** The first line at or after `i` that declares `name`. */
  function FindFrom(f: File, name: Name, i: nat): (r: Option<nat>)
    requires i <= |f|
    ensures r.Some? ==> i <= r.value < |f|
    decreases |f| - i
  {
    if i == |f| then None
    else if Decl(f[i]) == Some(name) then Some(i)
    else FindFrom(f, name, i + 1)
  }

  /** The part after the last dot. */
  function Short(name: Name): Name {
    if name == [] then [] else
      var last := name[|name| - 1];
      if last == '.' then [] else Short(name[..|name| - 1]) + [last]
  }

  /** The full name anywhere in the file, or else the short name. */
  function FindDecl(f: File, name: Name): (r: Option<nat>)
    ensures r.Some? ==> r.value < |f|
  {
    var full := FindFrom(f, name, 0);
    if full.Some? || Short(name) == name then full else FindFrom(f, Short(name), 0)
  }

  /** Up past the bare modifier lines above a declaration. */
  function Anchor(f: File, idx: nat): (a: nat)
    requires idx < |f|
    ensures a <= idx
    decreases idx
  {
    if idx > 0 && f[idx - 1].Modifier? then Anchor(f, idx - 1) else idx
  }

  /** The tag is on an attribute or modifier line directly above line `a`. */
  predicate InBlock(f: File, a: nat, q: Qid)
    requires a <= |f|
    decreases a
  {
    a > 0 && (IsAttr(f[a - 1]) || f[a - 1].Modifier?) && (HasTag(f[a - 1], q) || InBlock(f, a - 1, q))
  }

  predicate AlreadyTagged(f: File, idx: nat, q: Qid)
    requires idx < |f|
  {
    HasTag(f[idx], q) || InBlock(f, Anchor(f, idx), q)
  }

  // ---- editing ------------------------------------------------------------------------------------------

  function Tags(qs: seq<Qid>): (r: seq<Item>)
    ensures |r| == |qs| && forall i | 0 <= i < |qs| :: r[i] == Tag(qs[i])
  {
    seq(|qs|, i requires 0 <= i < |qs| => Tag(qs[i]))
  }

  /** Appends tags to an attribute line's list. */
  function Stack(l: Line, qs: seq<Qid>): Line {
    if qs == [] then l else
      match l
      case Attrs(indent, items, tail, d) => Attrs(indent, items + Tags(qs), tail, d)
      case ToAdditive(indent, None, rest) => ToAdditive(indent, Some(Tags(qs)), rest)
      case ToAdditive(indent, Some(items), rest) => ToAdditive(indent, Some(items + Tags(qs)), rest)
      case _ => l
  }

  function Standalone(below: Line, qs: seq<Qid>): Line {
    Attrs(Indent(below), Tags(qs), "", None)
  }

  function ApplyTag(f: File, idx: nat, q: Qid): File
    requires idx < |f|
  {
    var a := Anchor(f, idx);
    if a > 0 && IsAttr(f[a - 1]) then f[a - 1 := Stack(f[a - 1], [q])]
    else f[..a] + [Standalone(f[a], [q])] + f[a..]
  }

  function ApplyOne(f: File, d: Name, q: Qid): File {
    match FindDecl(f, d)
    case None => f
    case Some(i) => if AlreadyTagged(f, i, q) then f else ApplyTag(f, i, q)
  }

  datatype Request = Request(decl: Name, qid: Qid)

  function ApplyAll(f: File, requests: seq<Request>): File {
    if requests == [] then f else
      var r := requests[|requests| - 1];
      ApplyOne(ApplyAll(f, requests[..|requests| - 1]), r.decl, r.qid)
  }

  // ---- where a request goes and what it writes -----------------------------------------------------------------

  ghost predicate FirstDeclares(f: File, name: Name, i: nat) {
    i < |f| && Decl(f[i]) == Some(name) && forall j | 0 <= j < i :: Decl(f[j]) != Some(name)
  }

  ghost predicate Undeclared(f: File, name: Name) { forall j | 0 <= j < |f| :: Decl(f[j]) != Some(name) }

  /** `s` is what follows the last dot of the name. */
  ghost predicate LastPart(name: Name, s: Name) { '.' !in s && exists p: string :: name == p + "." + s }

  /** The first line that declares the full name; without one, the first that declares its last part. */
  ghost predicate Finds(f: File, name: Name, r: Option<nat>) {
    match r
    case Some(i) =>
      FirstDeclares(f, name, i) || (Undeclared(f, name) && exists s :: LastPart(name, s) && FirstDeclares(f, s, i))
    case None => Undeclared(f, name) && forall s :: LastPart(name, s) ==> Undeclared(f, s)
  }

  /** Line `a` is where the modifier lines above line `i` begin. */
  ghost predicate Heads(f: File, i: nat, a: nat) {
    a <= i < |f| && (forall k | a <= k < i :: f[k].Modifier?) && (a > 0 ==> !f[a - 1].Modifier?)
  }

  /** The declaration's own line, or one of the attribute and modifier lines right above, has the tag. */
  ghost predicate CarriesAt(f: File, i: nat, a: nat, q: Qid)
    requires a <= i < |f|
  {
    || Tag(q) in Items(f[i])
    || exists j :: 0 <= j < a && Tag(q) in Items(f[j]) && forall k | j <= k < a :: IsAttr(f[k]) || f[k].Modifier?
  }

  /** The tag goes last into the attribute list on the line above `a`, or onto a line of its own there. */
  ghost predicate Written(f: File, a: nat, q: Qid, g: File)
    requires a < |f|
  {
    if a == 0 then g == [Attrs(Indent(f[0]), [Tag(q)], "", None)] + f
    else
      match f[a - 1]
      case Attrs(indent, items, tail, d) => g == f[a - 1 := Attrs(indent, items + [Tag(q)], tail, d)]
      case ToAdditive(indent, None, rest) => g == f[a - 1 := ToAdditive(indent, Some([Tag(q)]), rest)]
      case ToAdditive(indent, Some(items), rest) => g == f[a - 1 := ToAdditive(indent, Some(items + [Tag(q)]), rest)]
      case _ => g == f[..a] + [Attrs(Indent(f[a]), [Tag(q)], "", None)] + f[a..]
  }

  ghost predicate Tagged(f: File, i: nat, q: Qid, g: File) {
    exists a :: Heads(f, i, a) && if CarriesAt(f, i, a, q) then g == f else Written(f, a, q, g)
  }

  lemma {:induction false} FindFromIsFirst(f: File, name: Name, i: nat)
    requires i <= |f| && forall j | 0 <= j < i :: Decl(f[j]) != Some(name)
    ensures match FindFrom(f, name, i) case Some(k) => FirstDeclares(f, name, k) case None => Undeclared(f, name)
    decreases |f| - i
  {
    if i < |f| && Decl(f[i]) != Some(name) { FindFromIsFirst(f, name, i + 1); }
  }

  /** After the last dot if there is one. */
  lemma {:induction false} ShortIsLastPart(name: Name)
    ensures if '.' in name then LastPart(name, Short(name)) else Short(name) == name
    ensures '.' !in Short(name)
  {
    if name != [] {
      var init, last := name[..|name| - 1], name[|name| - 1];
      assert name == init + [last];
      ShortIsLastPart(init);
      if last == '.' {
        assert name == init + "." + "";
      } else if '.' in name {
        var p: string :| init == p + "." + Short(init);
        assert name == p + "." + Short(name);
      }
    }
  }

  lemma LastPartIsUnique(name: Name, s: Name, t: Name)
    requires LastPart(name, s) && LastPart(name, t)
    ensures s == t
  {
    var p: string :| name == p + "." + s;
    var r: string :| name == r + "." + t;
    assert name[|p|] == '.' && name[|r|] == '.';
    forall k | |p| < k < |name| ensures name[k] != '.' { assert name[k] == s[k - |p| - 1]; }
    forall k | |r| < k < |name| ensures name[k] != '.' { assert name[k] == t[k - |r| - 1]; }
    assert s == name[|p| + 1..] && t == name[|r| + 1..];
  }

  lemma FindDeclFinds(f: File, name: Name)
    ensures Finds(f, name, FindDecl(f, name))
  {
    FindFromIsFirst(f, name, 0);
    FindFromIsFirst(f, Short(name), 0);
    ShortIsLastPart(name);
    forall s | LastPart(name, s) ensures s == Short(name) && '.' in name {
      var p: string :| name == p + "." + s;
      assert name[|p|] == '.';
      LastPartIsUnique(name, s, Short(name));
    }
  }

  lemma {:induction false} AnchorHeads(f: File, i: nat)
    requires i < |f|
    ensures Heads(f, i, Anchor(f, i))
    decreases i
  {
    if i > 0 && f[i - 1].Modifier? { AnchorHeads(f, i - 1); }
  }

  lemma {:induction false} InBlockIff(f: File, a: nat, q: Qid)
    requires a <= |f|
    ensures InBlock(f, a, q) <==>
      exists j :: 0 <= j < a && Tag(q) in Items(f[j]) && forall k | j <= k < a :: IsAttr(f[k]) || f[k].Modifier?
    decreases a
  {
    if a > 0 {
      InBlockIff(f, a - 1, q);
      if InBlock(f, a, q) && Tag(q) !in Items(f[a - 1]) {
        var j :| 0 <= j < a - 1 && Tag(q) in Items(f[j]) && forall k | j <= k < a - 1 :: IsAttr(f[k]) || f[k].Modifier?;
        assert forall k | j <= k < a :: IsAttr(f[k]) || f[k].Modifier?;
      }
      if InBlock(f, a, q) && Tag(q) in Items(f[a - 1]) {
        assert forall k | a - 1 <= k < a :: IsAttr(f[k]) || f[k].Modifier?;
      }
    }
  }

  lemma ApplyTagWrites(f: File, i: nat, q: Qid)
    requires i < |f|
    ensures Written(f, Anchor(f, i), q, ApplyTag(f, i, q))
  {
    assert Tags([q]) == [Tag(q)];
  }

  lemma ApplyAtTags(f: File, i: nat, q: Qid)
    requires i < |f|
    ensures Tagged(f, i, q, if AlreadyTagged(f, i, q) then f else ApplyTag(f, i, q))
  {
    var a := Anchor(f, i);
    AnchorHeads(f, i);
    InBlockIff(f, a, q);
    ApplyTagWrites(f, i, q);
    assert AlreadyTagged(f, i, q) <==> CarriesAt(f, i, a, q);
  }

  method FindDeclLoop(f: File, name: Name) returns (r: Option<nat>)
    ensures r == FindFrom(f, name, 0)
  {
    var i := 0;
    while i < |f|
      invariant i <= |f| && FindFrom(f, name, 0) == FindFrom(f, name, i)
    {
      if Decl(f[i]) == Some(name) {
        return Some(i);
      }
      i := i + 1;
    }
    return None;
  }

  method AnchorLoop(f: File, idx: nat) returns (a: nat)
    requires idx < |f|
    ensures a == Anchor(f, idx)
  {
    a := idx;
    while a > 0 && f[a - 1].Modifier?
      invariant a <= idx && Anchor(f, a) == Anchor(f, idx)
    {
      a := a - 1;
    }
  }

  method AlreadyTaggedLoop(f: File, idx: nat, q: Qid) returns (tagged: bool)
    requires idx < |f|
    ensures tagged <==> AlreadyTagged(f, idx, q)
  {
    if HasTag(f[idx], q) {
      return true;
    }
    var j: nat := AnchorLoop(f, idx);
    while j > 0 && (IsAttr(f[j - 1]) || f[j - 1].Modifier?)
      invariant 0 <= j <= |f| && InBlock(f, j, q) == InBlock(f, Anchor(f, idx), q)
    {
      if HasTag(f[j - 1], q) {
        return true;
      }
      j := j - 1;
    }
    return false;
  }

  /** One turn of `apply_all`. */
  method InsertTag(f0: File, r: Request) returns (f: File)
    ensures f == ApplyOne(f0, r.decl, r.qid)
    ensures exists found ::
              Finds(f0, r.decl, found) && if found.Some? then Tagged(f0, found.value, r.qid, f) else f == f0
  {
    FindDeclFinds(f0, r.decl);
    if FindDecl(f0, r.decl).Some? { ApplyAtTags(f0, FindDecl(f0, r.decl).value, r.qid); }
    f := f0;
    var found := FindDeclLoop(f, r.decl);
    if found.None? && Short(r.decl) != r.decl {
      found := FindDeclLoop(f, Short(r.decl));
    }
    if found.Some? {
      var tagged := AlreadyTaggedLoop(f, found.value, r.qid);
      if !tagged {
        var a := AnchorLoop(f, found.value);
        if a > 0 && IsAttr(f[a - 1]) {
          f := f[a - 1 := Stack(f[a - 1], [r.qid])];
        } else {
          f := f[..a] + [Standalone(f[a], [r.qid])] + f[a..];
        }
      }
    }
  }

  // ---- the import -----------------------------------------------------------------------------------------

  predicate FollowsCrossRef(path: string) { Ids.Less("Mathlib.Tactic.CrossRefAttribute", path) }

  predicate SortsAfter(l: Line) { l.Import? && l.of.Named? && FollowsCrossRef(l.of.path) }

  /** Line `k` of `f` is where the import goes: before the first import sorting after it, or after the last one. */
  predicate IsSlot(f: File, k: nat) {
    k <= |f| && (forall i | 0 <= i < k :: !SortsAfter(f[i])) &&
    if k < |f| && SortsAfter(f[k]) then true
    else k > 0 && f[k - 1].Import? && forall i | k <= i < |f| :: !f[i].Import?
  }

  /** The first import at or after `i` that sorts after the new one. */
  function FirstAfter(f: File, i: nat): (r: Option<nat>)
    requires i <= |f|
    ensures r.Some? ==> i <= r.value < |f| && SortsAfter(f[r.value])
    ensures forall j | i <= j < (if r.Some? then r.value else |f|) :: !SortsAfter(f[j])
    decreases |f| - i
  {
    if i == |f| then None else if SortsAfter(f[i]) then Some(i) else FirstAfter(f, i + 1)
  }

  /** The last import before line `n`. */
  function LastImport(f: File, n: nat): (r: Option<nat>)
    requires n <= |f|
    ensures r.Some? ==> r.value < n && f[r.value].Import?
    ensures forall j | (if r.Some? then r.value + 1 else 0) <= j < n :: !f[j].Import?
  {
    if n == 0 then None else if f[n - 1].Import? then Some(n - 1) else LastImport(f, n - 1)
  }

  function Slot(f: File): (r: Option<nat>)
    ensures r.Some? ==> IsSlot(f, r.value)
    ensures r.None? ==> forall i | 0 <= i < |f| :: !f[i].Import?
  {
    var greater := FirstAfter(f, 0);
    if greater.Some? then greater
    else
      var last := LastImport(f, |f|);
      if last.Some? then Some(last.value + 1) else None
  }

  lemma SlotIsUnique(f: File, j: nat, k: nat)
    requires IsSlot(f, j) && IsSlot(f, k)
    ensures j == k
  {
  }

  function Inserted(f: File, k: nat, l: Line): File
    requires k <= |f|
  {
    f[..k] + [l] + f[k..]
  }

  /** Nothing changes if the import is there already, or there is no public import to put it next to. */
  function AddImport(f: File): File {
    if Import(CrossRefAttribute) in f || Slot(f).None? then f else Inserted(f, Slot(f).value, Import(CrossRefAttribute))
  }

  /** `idxs` are the import lines above line `n`, from the top. */
  ghost predicate AreImports(f: File, n: nat, idxs: seq<nat>)
    requires n <= |f|
  {
    && (forall m | 0 <= m < |idxs| :: idxs[m] < n && f[idxs[m]].Import?)
    && (forall x | 0 <= x < n && f[x].Import? :: x in idxs)
    && (forall l, m | 0 <= l < m < |idxs| :: idxs[l] < idxs[m])
  }

  lemma SlotAmongImports(f: File, idxs: seq<nat>, n: nat, at: nat)
    requires AreImports(f, |f|, idxs) && n <= |idxs| && 0 < |idxs|
    requires forall m | 0 <= m < n :: !SortsAfter(f[idxs[m]])
    requires if n < |idxs| then at == idxs[n] && SortsAfter(f[at]) else at == idxs[|idxs| - 1] + 1
    ensures IsSlot(f, at)
  {
    forall i | 0 <= i < at ensures !SortsAfter(f[i]) {
      if f[i].Import? {
        var m :| 0 <= m < |idxs| && idxs[m] == i;
        assert m < n;
      }
    }
  }

  ghost predicate SortsBehind(l: Line) {
    l.Import? && l.of.Named? && Ids.Less("Mathlib.Tactic.CrossRefAttribute", l.of.path)
  }

  /** The import goes in front of the first that sorts behind it, or else behind the last one. */
  ghost predicate ImportedAt(f: File, k: nat) {
    k <= |f| &&
    if k < |f| && SortsBehind(f[k]) then forall i | 0 <= i < k :: !SortsBehind(f[i])
    else
      && (forall i | 0 <= i < |f| :: !SortsBehind(f[i]))
      && k > 0 && f[k - 1].Import? && forall i | k <= i < |f| :: !f[i].Import?
  }

  ghost predicate Imported(f0: File, f: File) {
    if Import(CrossRefAttribute) in f0 || forall l | l in f0 :: !l.Import? then f == f0
    else exists k: nat :: ImportedAt(f0, k) && f == f0[..k] + [Import(CrossRefAttribute)] + f0[k..]
  }

  lemma AddImportImports(f: File)
    ensures Imported(f, AddImport(f))
  {
    if Slot(f).Some? {
      var k := Slot(f).value;
      assert ImportedAt(f, k);
      if f[if k < |f| && SortsAfter(f[k]) then k else k - 1].Import? {}
    }
  }

  method AddImportLoop(f0: File) returns (f: File)
    ensures f == AddImport(f0)
    ensures Imported(f0, f)
  {
    if Import(CrossRefAttribute) in f0 {
      return f0;
    }
    var idxs: seq<nat> := [];
    for i := 0 to |f0|
      invariant AreImports(f0, i, idxs)
    {
      if f0[i].Import? {
        idxs := idxs + [i];
      }
    }
    if idxs == [] {
      assert Slot(f0).None?;
      AddImportImports(f0);
      return f0;
    }
    var at := idxs[|idxs| - 1] + 1;
    ghost var before := |idxs|;
    for n := 0 to |idxs|
      invariant at == idxs[|idxs| - 1] + 1 && before == |idxs|
      invariant forall m | 0 <= m < n :: !SortsAfter(f0[idxs[m]])
    {
      if SortsAfter(f0[idxs[n]]) {
        at, before := idxs[n], n;
        break;
      }
    }
    SlotAmongImports(f0, idxs, before, at);
    SlotIsUnique(f0, at, Slot(f0).value);
    AddImportImports(f0);
    f := f0[..at] + [Import(CrossRefAttribute)] + f0[at..];
  }
}
