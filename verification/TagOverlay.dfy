/**
 What a run of tag insertions leaves behind: the original file with two lists of tags beside each line, the
 ones stacked into that line and the ones on a line of their own above it. Editing a file is then appending to
 one of these lists, and removing tags is filtering all of them.
 */
module TagOverlay {

  import opened Options
  import opened TagInsertion

  datatype Overlay = Overlay(stacked: seq<seq<Qid>>, above: seq<seq<Qid>>)

  predicate BlockLine(l: Line) { IsAttr(l) || l.Modifier? }

  /** Tags are stacked into attribute lines only, and stand alone only where no attribute or modifier is above. */
  ghost predicate Fits(f: File, o: Overlay) {
    && |o.stacked| == |f| && |o.above| == |f|
    && (forall i | 0 <= i < |f| :: o.stacked[i] != [] ==> IsAttr(f[i]))
    && (forall i | 0 < i < |f| :: o.above[i] != [] ==> !BlockLine(f[i - 1]))
  }

  function Blank(f: File): (o: Overlay)
    ensures Fits(f, o)
  {
    var none := seq(|f|, i requires 0 <= i < |f| => []);
    Overlay(none, none)
  }

  function Block(f: File, o: Overlay, i: nat): (b: File)
    requires Fits(f, o) && i < |f|
    ensures b != [] && b[|b| - 1] == Stack(f[i], o.stacked[i])
  {
    (if o.above[i] == [] then [] else [Standalone(f[i], o.above[i])]) + [Stack(f[i], o.stacked[i])]
  }

  function Part(f: File, o: Overlay, lo: nat, hi: nat): File
    requires Fits(f, o) && lo <= hi <= |f|
  {
    if lo == hi then [] else Part(f, o, lo, hi - 1) + Block(f, o, hi - 1)
  }

  /** The file the overlay stands for. */
  function Render(f: File, o: Overlay): File
    requires Fits(f, o)
  {
    Part(f, o, 0, |f|)
  }

  /** Where line `i` of the original is in the rendered file. */
  function Pos(f: File, o: Overlay, i: nat): nat
    requires Fits(f, o) && i < |f|
  {
    |Part(f, o, 0, i + 1)| - 1
  }

  lemma {:induction false} PartSplits(f: File, o: Overlay, lo: nat, mid: nat, hi: nat)
    requires Fits(f, o) && lo <= mid <= hi <= |f|
    ensures Part(f, o, lo, hi) == Part(f, o, lo, mid) + Part(f, o, mid, hi)
    decreases hi - mid
  {
    if mid < hi {
      PartSplits(f, o, lo, mid, hi - 1);
    }
  }

  lemma {:induction false} PartReadsOnlyItsSlots(f: File, o: Overlay, p: Overlay, lo: nat, hi: nat)
    requires Fits(f, o) && Fits(f, p) && lo <= hi <= |f|
    requires forall i | lo <= i < hi :: o.stacked[i] == p.stacked[i] && o.above[i] == p.above[i]
    ensures Part(f, o, lo, hi) == Part(f, p, lo, hi)
    decreases hi - lo
  {
    if lo < hi {
      PartReadsOnlyItsSlots(f, o, p, lo, hi - 1);
    }
  }

  lemma {:induction false} BlankRenders(f: File, n: nat)
    requires n <= |f|
    ensures Part(f, Blank(f), 0, n) == f[..n]
  {
    if n > 0 {
      BlankRenders(f, n - 1);
    }
  }

  /** The rendered file is what is above line `i`, its block, and what is below. */
  lemma RenderAround(f: File, o: Overlay, i: nat)
    requires Fits(f, o) && i < |f|
    ensures Render(f, o) == Part(f, o, 0, i) + Block(f, o, i) + Part(f, o, i + 1, |f|)
    ensures Part(f, o, 0, i + 1) == Part(f, o, 0, i) + Block(f, o, i)
  {
    PartSplits(f, o, 0, i + 1, |f|);
  }

  /** Line `i` of the original, and the one standing alone above it. */
  lemma OwnLines(f: File, o: Overlay, i: nat)
    requires Fits(f, o) && i < |f|
    ensures Pos(f, o, i) < |Render(f, o)|
    ensures Render(f, o)[Pos(f, o, i)] == Stack(f[i], o.stacked[i])
    ensures o.above[i] != [] ==>
      Pos(f, o, i) == |Part(f, o, 0, i)| + 1 && Render(f, o)[Pos(f, o, i) - 1] == Standalone(f[i], o.above[i])
    ensures o.above[i] == [] ==> Pos(f, o, i) == |Part(f, o, 0, i)|
  {
    RenderAround(f, o, i);
  }

  /** The original's line before line `i` ends what comes before its block. */
  lemma LineBefore(f: File, o: Overlay, i: nat)
    requires Fits(f, o) && 0 < i < |f|
    ensures Pos(f, o, i - 1) == |Part(f, o, 0, i)| - 1 && Pos(f, o, i - 1) < |Render(f, o)|
    ensures Render(f, o)[Pos(f, o, i - 1)] == Stack(f[i - 1], o.stacked[i - 1])
  {
    RenderAround(f, o, i - 1);
  }

  // ---- finding and anchoring see through the overlay -----------------------------------------------------

  lemma StackKeepsDecl(l: Line, qs: seq<Qid>)
    ensures Decl(Stack(l, qs)) == Decl(l) && Stack(l, qs).Modifier? == l.Modifier?
      && BlockLine(Stack(l, qs)) == BlockLine(l)
  {
  }

  lemma FindStep(r: File, name: Name, j: nat, p: nat)
    requires j <= p < |r| && (p == j || (p == j + 1 && Decl(r[j]).None?))
    ensures FindFrom(r, name, j) == if Decl(r[p]) == Some(name) then Some(p) else FindFrom(r, name, p + 1)
  {
  }

  lemma {:induction false} FindSeesThrough(f: File, o: Overlay, name: Name, i: nat)
    requires Fits(f, o) && i <= |f|
    ensures |Part(f, o, 0, i)| <= |Render(f, o)|
    ensures FindFrom(Render(f, o), name, |Part(f, o, 0, i)|) ==
            var r := FindFrom(f, name, i); if r.None? then None else Some(Pos(f, o, r.value))
    decreases |f| - i
  {
    PartSplits(f, o, 0, i, |f|);
    if i < |f| {
      FindSeesThrough(f, o, name, i + 1);
      OwnLines(f, o, i);
      StackKeepsDecl(f[i], o.stacked[i]);
      FindStep(Render(f, o), name, |Part(f, o, 0, i)|, Pos(f, o, i));
    }
  }

  lemma DeclSeesThrough(f: File, o: Overlay, name: Name)
    requires Fits(f, o)
    ensures FindDecl(Render(f, o), name) ==
            var r := FindDecl(f, name); if r.None? then None else Some(Pos(f, o, r.value))
  {
    FindSeesThrough(f, o, name, 0);
    FindSeesThrough(f, o, Short(name), 0);
  }

  lemma {:induction false} AnchorSeesThrough(f: File, o: Overlay, i: nat)
    requires Fits(f, o) && i < |f|
    ensures Pos(f, o, i) < |Render(f, o)|
    ensures Anchor(Render(f, o), Pos(f, o, i)) == Pos(f, o, Anchor(f, i))
    decreases i
  {
    OwnLines(f, o, i);
    if i > 0 { LineBefore(f, o, i); }
    if i > 0 && f[i - 1].Modifier? {
      AnchorSeesThrough(f, o, i - 1);
    }
  }

  // ---- the tag is there already ----------------------------------------------------------------------------

  predicate FreeLine(l: Line, q: Qid) { !HasTag(l, q) }

  predicate Free(f: File, q: Qid) { forall l | l in f :: FreeLine(l, q) }

  predicate InBlockOf(f: File, o: Overlay, a: nat, q: Qid)
    requires |o.stacked| == |o.above| == |f| && a < |f|
    decreases a
  {
    || q in o.above[a]
    || (a > 0 && BlockLine(f[a - 1]) && (q in o.stacked[a - 1] || InBlockOf(f, o, a - 1, q)))
  }

  predicate Tagged(f: File, o: Overlay, i: nat, q: Qid)
    requires |o.stacked| == |o.above| == |f| && i < |f|
  {
    q in o.stacked[i] || InBlockOf(f, o, Anchor(f, i), q)
  }

  lemma StackHasTag(l: Line, qs: seq<Qid>, q: Qid)
    ensures IsAttr(l) ==> (HasTag(Stack(l, qs), q) <==> HasTag(l, q) || q in qs)
    ensures !IsAttr(l) ==> !HasTag(Stack(l, qs), q)
    ensures HasTag(Standalone(l, qs), q) <==> q in qs
  {
    assert forall i | 0 <= i < |qs| :: Tags(qs)[i] == Tag(qs[i]);
    assert Tag(q) in Tags(qs) <==> q in qs;
  }

  lemma AboveSeesThrough(f: File, o: Overlay, a: nat, q: Qid)
    requires Fits(f, o) && a < |f|
    ensures |Part(f, o, 0, a)| <= Pos(f, o, a) < |Render(f, o)|
    ensures InBlock(Render(f, o), Pos(f, o, a), q) <==>
            q in o.above[a] || InBlock(Render(f, o), |Part(f, o, 0, a)|, q)
  {
    OwnLines(f, o, a);
    StackHasTag(f[a], o.above[a], q);
  }

  lemma LineAboveSeesThrough(f: File, o: Overlay, a: nat, q: Qid)
    requires Fits(f, o) && 0 < a < |f| && Free(f, q)
    ensures Pos(f, o, a - 1) < |Part(f, o, 0, a)| <= |Render(f, o)|
    ensures InBlock(Render(f, o), |Part(f, o, 0, a)|, q) <==>
            BlockLine(f[a - 1]) && (q in o.stacked[a - 1] || InBlock(Render(f, o), Pos(f, o, a - 1), q))
  {
    LineBefore(f, o, a);
    StackHasTag(f[a - 1], o.stacked[a - 1], q);
    StackKeepsDecl(f[a - 1], o.stacked[a - 1]);
    assert FreeLine(f[a - 1], q);
  }

  lemma {:induction false} BlockSeesThrough(f: File, o: Overlay, a: nat, q: Qid)
    requires Fits(f, o) && a < |f| && Free(f, q)
    ensures Pos(f, o, a) < |Render(f, o)|
    ensures InBlock(Render(f, o), Pos(f, o, a), q) <==> InBlockOf(f, o, a, q)
    decreases a
  {
    AboveSeesThrough(f, o, a, q);
    if a > 0 {
      LineAboveSeesThrough(f, o, a, q);
      BlockSeesThrough(f, o, a - 1, q);
    }
  }

  lemma TaggedSeesThrough(f: File, o: Overlay, i: nat, q: Qid)
    requires Fits(f, o) && i < |f| && Free(f, q)
    ensures Pos(f, o, i) < |Render(f, o)|
    ensures AlreadyTagged(Render(f, o), Pos(f, o, i), q) <==> Tagged(f, o, i, q)
  {
    OwnLines(f, o, i);
    StackHasTag(f[i], o.stacked[i], q);
    assert FreeLine(f[i], q);
    AnchorSeesThrough(f, o, i);
    BlockSeesThrough(f, o, Anchor(f, i), q);
  }

  // ---- inserting is appending to one slot --------------------------------------------------------------------

  predicate StacksAbove(f: File, a: nat)
    requires a < |f|
  {
    a > 0 && IsAttr(f[a - 1])
  }

  function Place(f: File, o: Overlay, i: nat, q: Qid): Overlay
    requires |o.stacked| == |o.above| == |f| && i < |f|
  {
    var a := Anchor(f, i);
    if StacksAbove(f, a) then o.(stacked := o.stacked[a - 1 := o.stacked[a - 1] + [q]])
    else o.(above := o.above[a := o.above[a] + [q]])
  }

  lemma {:induction false} AnchorIsBelowNoModifier(f: File, i: nat)
    requires i < |f|
    ensures Anchor(f, i) > 0 ==> !f[Anchor(f, i) - 1].Modifier?
    decreases i
  {
    if i > 0 && f[i - 1].Modifier? { AnchorIsBelowNoModifier(f, i - 1); }
  }

  lemma PlaceFits(f: File, o: Overlay, i: nat, q: Qid)
    requires Fits(f, o) && i < |f|
    ensures Fits(f, Place(f, o, i, q))
  {
    AnchorIsBelowNoModifier(f, i);
  }

  lemma StackTwice(l: Line, qs: seq<Qid>, q: Qid)
    ensures Stack(Stack(l, qs), [q]) == Stack(l, qs + [q])
    ensures Stack(Standalone(l, qs), [q]) == Standalone(l, qs + [q])
    ensures Indent(Stack(l, qs)) == Indent(l)
  {
    assert Tags(qs + [q]) == Tags(qs) + Tags([q]);
    assert qs == [] ==> qs + [q] == [q];
    if l.Attrs? {
      assert l.items + Tags(qs) + Tags([q]) == l.items + (Tags(qs) + Tags([q]));
    } else if l.ToAdditive? && l.clause.Some? {
      assert l.clause.value + Tags(qs) + Tags([q]) == l.clause.value + (Tags(qs) + Tags([q]));
    }
  }

  /** Changing the slots of line `k` changes its block and nothing else. */
  lemma OneBlockChanges(f: File, o: Overlay, p: Overlay, k: nat)
    requires Fits(f, o) && Fits(f, p) && k < |f|
    requires forall i | 0 <= i < |f| && i != k :: o.stacked[i] == p.stacked[i] && o.above[i] == p.above[i]
    ensures Render(f, p) == Part(f, o, 0, k) + Block(f, p, k) + Part(f, o, k + 1, |f|)
  {
    RenderAround(f, p, k);
    PartReadsOnlyItsSlots(f, o, p, 0, k);
    PartReadsOnlyItsSlots(f, o, p, k + 1, |f|);
  }

  /** What stands above line `i` in its block. */
  function Above(f: File, o: Overlay, i: nat): File
    requires Fits(f, o) && i < |f|
  {
    if o.above[i] == [] then [] else [Standalone(f[i], o.above[i])]
  }

  lemma ReplaceMiddle(a: File, x: Line, y: Line, c: File)
    ensures (a + [x] + c)[|a| := y] == a + [y] + c
  {
  }

  lemma PlaceInLine(f: File, o: Overlay, k: nat, p: Overlay, q: Qid)
    requires Fits(f, o) && Fits(f, p) && k < |f| && IsAttr(f[k])
    requires p == o.(stacked := o.stacked[k := o.stacked[k] + [q]])
    ensures Pos(f, o, k) < |Render(f, o)|
    ensures var r, at := Render(f, o), Pos(f, o, k); IsAttr(r[at]) && r[at := Stack(r[at], [q])] == Render(f, p)
  {
    OwnLines(f, o, k);
    var x, y := Stack(f[k], o.stacked[k]), Stack(f[k], o.stacked[k] + [q]);
    StackTwice(f[k], o.stacked[k], q);
    RenderAround(f, o, k);
    OneBlockChanges(f, o, p, k);
    var left, right := Part(f, o, 0, k) + Above(f, o, k), Part(f, o, k + 1, |f|);
    assert Above(f, o, k) + [x] == Block(f, o, k) && Above(f, o, k) + [y] == Block(f, p, k);
    assert Render(f, o) == left + [x] + right && Render(f, p) == left + [y] + right;
    ReplaceMiddle(left, x, y, right);
  }

  /** Nothing stands alone between an attribute line and the line it belongs to. */
  lemma StackedAbove(f: File, o: Overlay, a: nat)
    requires Fits(f, o) && a < |f| && StacksAbove(f, a)
    ensures Pos(f, o, a) == Pos(f, o, a - 1) + 1 && Pos(f, o, a) < |Render(f, o)|
    ensures IsAttr(Render(f, o)[Pos(f, o, a) - 1])
  {
    OwnLines(f, o, a);
    LineBefore(f, o, a);
    StackKeepsDecl(f[a - 1], o.stacked[a - 1]);
  }

  lemma AppliesAt(r: File, i: nat, a: nat, q: Qid)
    requires a <= i < |r| && Anchor(r, i) == a
    ensures a > 0 && IsAttr(r[a - 1]) ==> ApplyTag(r, i, q) == r[a - 1 := Stack(r[a - 1], [q])]
    ensures !(a > 0 && IsAttr(r[a - 1])) ==> ApplyTag(r, i, q) == r[..a] + [Standalone(r[a], [q])] + r[a..]
  {
  }

  lemma PlaceStacks(f: File, o: Overlay, i: nat, q: Qid)
    requires Fits(f, o) && i < |f| && StacksAbove(f, Anchor(f, i))
    ensures Pos(f, o, i) < |Render(f, o)| && Fits(f, Place(f, o, i, q))
    ensures ApplyTag(Render(f, o), Pos(f, o, i), q) == Render(f, Place(f, o, i, q))
  {
    var a := Anchor(f, i);
    PlaceFits(f, o, i, q);
    AnchorSeesThrough(f, o, i);
    StackedAbove(f, o, a);
    AppliesAt(Render(f, o), Pos(f, o, i), Pos(f, o, a), q);
    PlaceInLine(f, o, a - 1, Place(f, o, i, q), q);
  }

  lemma PlaceJoins(f: File, o: Overlay, a: nat, p: Overlay, q: Qid)
    requires Fits(f, o) && Fits(f, p) && a < |f| && o.above[a] != []
    requires p == o.(above := o.above[a := o.above[a] + [q]])
    ensures 0 < Pos(f, o, a) < |Render(f, o)|
    ensures var r, at := Render(f, o), Pos(f, o, a) - 1; IsAttr(r[at]) && r[at := Stack(r[at], [q])] == Render(f, p)
  {
    OwnLines(f, o, a);
    var x, y := Standalone(f[a], o.above[a]), Standalone(f[a], o.above[a] + [q]);
    StackTwice(f[a], o.above[a], q);
    RenderAround(f, o, a);
    OneBlockChanges(f, o, p, a);
    var left, right := Part(f, o, 0, a), [Stack(f[a], o.stacked[a])] + Part(f, o, a + 1, |f|);
    assert Block(f, o, a) == [x] + [Stack(f[a], o.stacked[a])];
    assert Block(f, p, a) == [y] + [Stack(f[a], o.stacked[a])];
    assert Render(f, o) == left + [x] + right && Render(f, p) == left + [y] + right;
    ReplaceMiddle(left, x, y, right);
  }

  lemma InsertMiddle(a: File, x: Line, y: Line, c: File)
    ensures (a + [x] + c)[..|a|] + [y] + (a + [x] + c)[|a|..] == a + ([y] + [x]) + c
  {
    var r := a + [x] + c;
    assert r[..|a|] == a && r[|a|..] == [x] + c;
  }

  lemma PlaceOpensLine(f: File, o: Overlay, a: nat, p: Overlay, q: Qid)
    requires Fits(f, o) && Fits(f, p) && a < |f| && o.above[a] == []
    requires p == o.(above := o.above[a := o.above[a] + [q]])
    ensures Pos(f, o, a) < |Render(f, o)|
    ensures var r, at := Render(f, o), Pos(f, o, a); r[..at] + [Standalone(r[at], [q])] + r[at..] == Render(f, p)
  {
    OwnLines(f, o, a);
    var x, y := Stack(f[a], o.stacked[a]), Standalone(f[a], [q]);
    StackTwice(f[a], o.stacked[a], q);
    assert o.above[a] + [q] == [q];
    RenderAround(f, o, a);
    OneBlockChanges(f, o, p, a);
    var left, right := Part(f, o, 0, a), Part(f, o, a + 1, |f|);
    assert Block(f, o, a) == [x] && Block(f, p, a) == [y] + [x];
    assert Render(f, o) == left + [x] + right && Render(f, p) == left + ([y] + [x]) + right;
    InsertMiddle(left, x, y, right);
  }

  lemma PlaceStandsAlone(f: File, o: Overlay, i: nat, q: Qid)
    requires Fits(f, o) && i < |f| && !StacksAbove(f, Anchor(f, i))
    ensures Pos(f, o, i) < |Render(f, o)| && Fits(f, Place(f, o, i, q))
    ensures ApplyTag(Render(f, o), Pos(f, o, i), q) == Render(f, Place(f, o, i, q))
  {
    var a, p := Anchor(f, i), Place(f, o, i, q);
    PlaceFits(f, o, i, q);
    AnchorSeesThrough(f, o, i);
    AppliesAt(Render(f, o), Pos(f, o, i), Pos(f, o, a), q);
    if o.above[a] == [] {
      OwnLines(f, o, a);
      if a > 0 {
        LineBefore(f, o, a);
        StackKeepsDecl(f[a - 1], o.stacked[a - 1]);
      }
      PlaceOpensLine(f, o, a, p, q);
    } else {
      PlaceJoins(f, o, a, p, q);
    }
  }

  function PlaceOne(f: File, o: Overlay, d: Name, q: Qid): Overlay
    requires |o.stacked| == |o.above| == |f|
  {
    match FindDecl(f, d)
    case None => o
    case Some(i) => if Tagged(f, o, i, q) then o else Place(f, o, i, q)
  }

  function PlaceAll(f: File, requests: seq<Request>): (o: Overlay)
    ensures Fits(f, o)
  {
    if requests == [] then Blank(f) else
      var r, before := requests[|requests| - 1], PlaceAll(f, requests[..|requests| - 1]);
      PlaceOneFits(f, before, r.decl, r.qid);
      PlaceOne(f, before, r.decl, r.qid)
  }

  lemma PlaceOneFits(f: File, o: Overlay, d: Name, q: Qid)
    requires Fits(f, o)
    ensures Fits(f, PlaceOne(f, o, d, q))
  {
    var r := FindDecl(f, d);
    if r.Some? { PlaceFits(f, o, r.value, q); }
  }

  lemma PlaceOneRenders(f: File, o: Overlay, d: Name, q: Qid)
    requires Fits(f, o) && Free(f, q)
    ensures Fits(f, PlaceOne(f, o, d, q))
    ensures ApplyOne(Render(f, o), d, q) == Render(f, PlaceOne(f, o, d, q))
  {
    PlaceOneFits(f, o, d, q);
    DeclSeesThrough(f, o, d);
    var r := FindDecl(f, d);
    if r.Some? {
      TaggedSeesThrough(f, o, r.value, q);
      if StacksAbove(f, Anchor(f, r.value)) {
        PlaceStacks(f, o, r.value, q);
      } else {
        PlaceStandsAlone(f, o, r.value, q);
      }
    }
  }

  predicate AllFree(f: File, requests: seq<Request>) {
    forall r | r in requests :: Free(f, r.qid)
  }

  /** A run of insertions, whatever mix of forms it meets, leaves the original file and one overlay. */
  lemma {:induction false} InsertionsAreAnOverlay(f: File, requests: seq<Request>)
    requires AllFree(f, requests)
    ensures ApplyAll(f, requests) == Render(f, PlaceAll(f, requests))
  {
    if requests == [] {
      BlankRenders(f, |f|);
      assert f[..|f|] == f;
    } else {
      var r := requests[|requests| - 1];
      InsertionsAreAnOverlay(f, requests[..|requests| - 1]);
      PlaceOneRenders(f, PlaceAll(f, requests[..|requests| - 1]), r.decl, r.qid);
    }
  }

  // ---- keeping some of the tags ----------------------------------------------------------------------------------

  function Without(qs: seq<Qid>, gone: set<Qid>): (r: seq<Qid>)
    ensures forall q :: q in r <==> q in qs && q !in gone
  {
    if qs == [] then [] else
      var last := qs[|qs| - 1];
      Without(qs[..|qs| - 1], gone) + if last in gone then [] else [last]
  }

  lemma WithoutLast(qs: seq<Qid>, q: Qid, gone: set<Qid>)
    ensures Without(qs + [q], gone) == if q in gone then Without(qs, gone) else Without(qs, gone) + [q]
  {
    assert (qs + [q])[..|qs|] == qs;
  }

  function KeepEach(slots: seq<seq<Qid>>, gone: set<Qid>): (k: seq<seq<Qid>>)
    ensures |k| == |slots| && forall i | 0 <= i < |k| :: k[i] == Without(slots[i], gone)
  {
    seq(|slots|, i requires 0 <= i < |slots| => Without(slots[i], gone))
  }

  function Keep(o: Overlay, gone: set<Qid>): Overlay {
    Overlay(KeepEach(o.stacked, gone), KeepEach(o.above, gone))
  }

  lemma KeepFits(f: File, o: Overlay, gone: set<Qid>)
    requires Fits(f, o)
    ensures Fits(f, Keep(o, gone))
  {
  }

  lemma KeepAppended(slots: seq<seq<Qid>>, i: nat, q: Qid, gone: set<Qid>)
    requires i < |slots|
    ensures KeepEach(slots[i := slots[i] + [q]], gone) ==
            var k := KeepEach(slots, gone); if q in gone then k else k[i := k[i] + [q]]
  {
    WithoutLast(slots[i], q, gone);
  }

  lemma {:induction false} KeptBlockHolds(f: File, o: Overlay, gone: set<Qid>, a: nat, q: Qid)
    requires Fits(f, o) && a < |f| && q !in gone
    ensures InBlockOf(f, Keep(o, gone), a, q) <==> InBlockOf(f, o, a, q)
    decreases a
  {
    if a > 0 { KeptBlockHolds(f, o, gone, a - 1, q); }
  }

  /** Whether and where a tag goes does not depend on the other tags of the run. */
  lemma KeepPlace(f: File, o: Overlay, i: nat, q: Qid, gone: set<Qid>)
    requires Fits(f, o) && i < |f|
    ensures Keep(Place(f, o, i, q), gone) == if q in gone then Keep(o, gone) else Place(f, Keep(o, gone), i, q)
  {
    var a := Anchor(f, i);
    if StacksAbove(f, a) {
      KeepAppended(o.stacked, a - 1, q, gone);
    } else {
      KeepAppended(o.above, a, q, gone);
    }
  }

  lemma KeepPlaceOne(f: File, o: Overlay, d: Name, q: Qid, gone: set<Qid>)
    requires Fits(f, o)
    ensures Keep(PlaceOne(f, o, d, q), gone) ==
            if q in gone then Keep(o, gone) else PlaceOne(f, Keep(o, gone), d, q)
  {
    var r := FindDecl(f, d);
    if r.Some? {
      KeepPlace(f, o, r.value, q, gone);
      if q !in gone { KeptBlockHolds(f, o, gone, Anchor(f, r.value), q); }
    }
  }

  function Kept(requests: seq<Request>, gone: set<Qid>): (kept: seq<Request>)
    ensures forall r :: r in kept <==> r in requests && r.qid !in gone
  {
    if requests == [] then [] else
      var last := requests[|requests| - 1];
      if last.qid in gone then Kept(requests[..|requests| - 1], gone)
      else Kept(requests[..|requests| - 1], gone) + [last]
  }

  lemma {:induction false} KeepPlaceAll(f: File, requests: seq<Request>, gone: set<Qid>)
    ensures Keep(PlaceAll(f, requests), gone) == PlaceAll(f, Kept(requests, gone))
  {
    if requests == [] {
      assert Keep(Blank(f), gone) == Blank(f);
    } else {
      var r, init := requests[|requests| - 1], requests[..|requests| - 1];
      KeepPlaceAll(f, init, gone);
      KeepPlaceOne(f, PlaceAll(f, init), r.decl, r.qid, gone);
      if r.qid !in gone {
        var kept := Kept(requests, gone);
        assert kept == Kept(init, gone) + [r] && kept[..|kept| - 1] == Kept(init, gone);
      } else {
        assert Kept(requests, gone) == Kept(init, gone);
      }
    }
  }
}
