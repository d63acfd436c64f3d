/** Whether an inserted tag ends up on the declaration it was requested for. */
module TagPlacement {

  import opened Options
  import opened TagInsertion

  /** The tag is on an attribute line of the declaration below line `a`: no line in between declares anything. */
  predicate OwnBlock(f: File, a: nat, q: Qid)
    requires a <= |f|
    decreases a
  {
    && a > 0 && Decl(f[a - 1]).None? && (IsAttr(f[a - 1]) || f[a - 1].Modifier?)
    && (HasTag(f[a - 1], q) || OwnBlock(f, a - 1, q))
  }

  /** The declaration on line `i` carries the tag. */
  predicate OnDeclaration(f: File, i: nat, q: Qid)
    requires i < |f|
  {
    HasTag(f[i], q) || OwnBlock(f, i, q)
  }

  /** The line above the declaration and its modifiers is an attribute line that declares something itself. */
  predicate SharesLine(f: File, i: nat)
    requires i < |f|
  {
    var a := Anchor(f, i);
    a > 0 && IsAttr(f[a - 1]) && Decl(f[a - 1]).Some?
  }

  /** Where the declaration on line `i` is after the insertion. */
  function Moved(f: File, i: nat): nat
    requires i < |f|
  {
    var a := Anchor(f, i);
    if a > 0 && IsAttr(f[a - 1]) then i else i + 1
  }

  lemma {:induction false} AnchorStops(f: File, i: nat)
    requires i < |f|
    ensures Anchor(f, i) > 0 ==> !f[Anchor(f, i) - 1].Modifier?
    ensures forall k | Anchor(f, i) <= k < i :: f[k].Modifier?
    decreases i
  {
    if i > 0 && f[i - 1].Modifier? { AnchorStops(f, i - 1); }
  }

  /** Modifier lines hold no tag, so only what is above them matters. */
  lemma {:induction false} PastModifiers(f: File, a: nat, i: nat, q: Qid)
    requires a <= i <= |f| && forall k | a <= k < i :: f[k].Modifier?
    ensures OwnBlock(f, i, q) <==> OwnBlock(f, a, q)
    decreases i
  {
    if a < i {
      PastModifiers(f, a, i - 1, q);
      assert f[i - 1].Modifier?;
    }
  }

  /** Carrying the tag in its own block is carrying it in the block the editor looks at. */
  lemma {:induction false} OwnIsInBlock(f: File, a: nat, q: Qid)
    requires a <= |f| && OwnBlock(f, a, q)
    ensures InBlock(f, a, q)
    decreases a
  {
    if !HasTag(f[a - 1], q) { OwnIsInBlock(f, a - 1, q); }
  }

  lemma StackedHasTag(l: Line, q: Qid)
    requires IsAttr(l)
    ensures HasTag(Stack(l, [q]), q) && Decl(Stack(l, [q])) == Decl(l) && IsAttr(Stack(l, [q]))
  {
    assert Tags([q])[0] == Tag(q);
    assert Tag(q) in Items(Stack(l, [q]));
  }

  lemma StackedAbove(f: File, i: nat, q: Qid)
    requires i < |f| && !AlreadyTagged(f, i, q) && Moved(f, i) == i
    ensures i < |ApplyTag(f, i, q)|
    ensures OnDeclaration(ApplyTag(f, i, q), i, q) <==> !SharesLine(f, i)
  {
    var a, g := Anchor(f, i), ApplyTag(f, i, q);
    AnchorStops(f, i);
    StackedHasTag(f[a - 1], q);
    assert forall k | a <= k < i :: g[k] == f[k];
    assert g[i] == f[i] && g[a - 1] == Stack(f[a - 1], [q]);
    PastModifiers(g, a, i, q);
  }

  lemma StandsAloneAbove(f: File, i: nat, q: Qid)
    requires i < |f| && Moved(f, i) == i + 1
    ensures i + 1 < |ApplyTag(f, i, q)|
    ensures OnDeclaration(ApplyTag(f, i, q), i + 1, q) && !SharesLine(f, i)
  {
    var a, g := Anchor(f, i), ApplyTag(f, i, q);
    AnchorStops(f, i);
    assert g[a] == Standalone(f[a], [q]);
    assert Tags([q])[0] == Tag(q);
    assert HasTag(g[a], q);
    assert forall k | a <= k <= i :: g[k + 1] == f[k];
    forall k | a + 1 <= k < i + 1 ensures g[k].Modifier? { assert g[k] == f[k - 1]; }
    PastModifiers(g, a + 1, i + 1, q);
  }

  /** An inserted tag is on its own declaration, unless it was stacked into the line of another one. */
  lemma InsertedIsOnDeclarationIff(f: File, i: nat, q: Qid)
    requires i < |f| && !AlreadyTagged(f, i, q)
    ensures Moved(f, i) < |ApplyTag(f, i, q)| && Decl(ApplyTag(f, i, q)[Moved(f, i)]) == Decl(f[i])
    ensures OnDeclaration(ApplyTag(f, i, q), Moved(f, i), q) <==> !SharesLine(f, i)
  {
    var a := Anchor(f, i);
    if Moved(f, i) == i {
      StackedAbove(f, i, q);
      assert ApplyTag(f, i, q)[i] == f[i];
    } else {
      StandsAloneAbove(f, i, q);
      assert ApplyTag(f, i, q)[i + 1] == f[i];
    }
  }

  /**
   After a request the tag is on the declaration on line `i` that it was meant for exactly if it was there before, or
   it is inserted and not into the line of another declaration.
   */
  lemma LandsOnItsDeclarationIff(f: File, d: Name, q: Qid, i: nat)
    requires FindDecl(f, d) == Some(i)
    ensures var g, j := ApplyOne(f, d, q), if AlreadyTagged(f, i, q) then i else Moved(f, i);
      && j < |g| && Decl(g[j]) == Decl(f[i])
      && (OnDeclaration(g, j, q) <==> OnDeclaration(f, i, q) || (!AlreadyTagged(f, i, q) && !SharesLine(f, i)))
  {
    if OnDeclaration(f, i, q) { FoundAgain(f, i, q); }
    if !AlreadyTagged(f, i, q) { InsertedIsOnDeclarationIff(f, i, q); }
  }

  /** A tag on its declaration is found there again, so it is inserted once. */
  lemma FoundAgain(f: File, i: nat, q: Qid)
    requires i < |f| && OnDeclaration(f, i, q)
    ensures AlreadyTagged(f, i, q)
  {
    var a := Anchor(f, i);
    AnchorStops(f, i);
    PastModifiers(f, a, i, q);
    if !HasTag(f[i], q) { OwnIsInBlock(f, a, q); }
  }

  /** `@[simp] theorem d` right above `theorem e`: the tag for `e` goes to `d`. */
  lemma TagGoesToTheLineAbove(d: Name, e: Name, text: string, q: Qid)
    requires d != e
    ensures var f := [Attrs("", [Other("simp")], text, Some(d)), Plain("", Some(e), text)];
      var g := ApplyOne(f, e, q);
      |g| == 2 && !OnDeclaration(g, 1, q) && OnDeclaration(g, 0, q)
  {
    var f := [Attrs("", [Other("simp")], text, Some(d)), Plain("", Some(e), text)];
    assert FindFrom(f, e, 1) == Some(1) && FindDecl(f, e) == Some(1);
    assert Anchor(f, 1) == 1 && !InBlock(f, 1, q) && !AlreadyTagged(f, 1, q);
    StackedHasTag(f[0], q);
    InsertedIsOnDeclarationIff(f, 1, q);
  }

  /** `@[wikidata q] theorem d`, `@[simp]`, `theorem e`: the tag of `d` is taken for one of `e`, which gets none. */
  lemma TagOfTheLineAboveCounts(d: Name, e: Name, text: string, q: Qid)
    requires d != e
    ensures var f := [Attrs("", [Tag(q)], text, Some(d)), Attrs("", [Other("simp")], "", None),
                       Plain("", Some(e), text)];
      FindDecl(f, e) == Some(2) && ApplyOne(f, e, q) == f && !OnDeclaration(f, 2, q) && !SharesLine(f, 2)
  {
    var f := [Attrs("", [Tag(q)], text, Some(d)), Attrs("", [Other("simp")], "", None), Plain("", Some(e), text)];
    assert FindFrom(f, e, 1) == FindFrom(f, e, 2) == Some(2) && FindDecl(f, e) == Some(2);
    assert Items(f[0])[0] == Tag(q) && Items(f[1]) == [Other("simp")];
    assert HasTag(f[0], q) && !HasTag(f[1], q);
    assert InBlock(f, 1, q) && Anchor(f, 2) == 2 && InBlock(f, 2, q) && AlreadyTagged(f, 2, q);
    assert !OwnBlock(f, 1, q) && !OwnBlock(f, 2, q);
  }
}
