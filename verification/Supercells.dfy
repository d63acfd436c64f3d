/** Where a page that several cells claim is put: under the deepest supercell they share, or the shallowest any has. */
module Supercells {

  import opened Options
  import opened Ids

  /** A supercell is named by its path, segments separated by slashes. */
  type Path = string

  datatype Claimant = Super(path: Path) | Cell(id: Id)

  type Homes = map<Id, seq<Path>>

  // ---- segments -------------------------------------------------------------------------------------------

  function Depth(p: Path): nat {
    if p == "" then 0 else Depth(p[..|p| - 1]) + if p[|p| - 1] == '/' then 1 else 0
  }

  /** The segments between the slashes. */
  function Segments(p: Path): (s: seq<string>)
    ensures s != [] && forall x | x in s :: '/' !in x
  {
    if p == "" then [""] else
      var before, c := Segments(p[..|p| - 1]), p[|p| - 1];
      if c == '/' then before + [""] else before[..|before| - 1] + [before[|before| - 1] + [c]]
  }

  function Joined(s: seq<string>): Path {
    if s == [] then "" else if |s| == 1 then s[0] else Joined(s[..|s| - 1]) + "/" + s[|s| - 1]
  }

  /** The segments with `x` added to the last of them. */
  function Grown(s: seq<string>, x: string): seq<string>
    requires s != []
  {
    s[..|s| - 1] + [s[|s| - 1] + x]
  }

  lemma GrownTwice(s: seq<string>, x: string, y: string)
    requires s != []
    ensures Grown(Grown(s, x), y) == Grown(s, x + y)
  {
    assert s[|s| - 1] + x + y == s[|s| - 1] + (x + y);
  }

  lemma OneMoreChar(p: Path, c: char)
    requires c != '/'
    ensures Segments(p + [c]) == Grown(Segments(p), [c])
  {
    assert (p + [c])[..|p|] == p;
  }

  lemma {:induction false} LastSegmentGrows(p: Path, x: string)
    requires '/' !in x
    ensures Segments(p + x) == Grown(Segments(p), x)
  {
    if x == "" {
      var s := Segments(p);
      assert p + x == p && s[|s| - 1] + x == s[|s| - 1];
    } else {
      var init, c := x[..|x| - 1], x[|x| - 1];
      assert init + [c] == x && c in x;
      LastSegmentGrows(p, init);
      OneMoreChar(p + init, c);
      GrownTwice(Segments(p), init, [c]);
      assert p + x == p + init + [c];
    }
  }

  lemma SlashOpensSegment(p: Path)
    ensures Segments(p + "/") == Segments(p) + [""]
  {
    assert (p + "/")[..|p|] == p;
  }

  lemma OneMoreSegment(p: Path, init: seq<string>, last: string)
    requires Segments(p) == init && '/' !in last
    ensures Segments(p + "/" + last) == init + [last]
  {
    SlashOpensSegment(p);
    LastSegmentGrows(p + "/", last);
    assert "" + last == last && (init + [""])[..|init|] == init;
  }

  lemma OnlySegment(x: string)
    requires '/' !in x
    ensures Segments(x) == [x]
  {
    LastSegmentGrows("", x);
    assert "" + x == x;
  }

  /** Joining segments loses nothing. */
  lemma {:induction false} SegmentsOfJoined(s: seq<string>, p: Path)
    requires s != [] && (forall x | x in s :: '/' !in x) && p == Joined(s)
    ensures Segments(p) == s
  {
    if |s| == 1 {
      OnlySegment(s[0]);
    } else {
      var init, last := s[..|s| - 1], s[|s| - 1];
      var q := Joined(init);
      SegmentsOfJoined(init, q);
      OneMoreSegment(q, init, last);
    }
  }

  // ---- stakes -----------------------------------------------------------------------------------------------

  /** Fewer slashes first, then by text. */
  predicate Shallower(p: Path, q: Path) {
    Depth(p) < Depth(q) || (Depth(p) == Depth(q) && Less(p, q))
  }

  lemma ShallowerIsOrder(p: Path, q: Path, r: Path)
    ensures p == q || Shallower(p, q) || Shallower(q, p)
    ensures Shallower(p, q) && Shallower(q, r) ==> Shallower(p, r)
    ensures !Shallower(p, p)
  {
    LessTotal(p, q);
    LessIrreflexive(p);
    if Less(p, q) && Less(q, r) { LessTransitive(p, q, r); }
  }

  /** A path has one slash less than segments. */
  lemma {:induction false} DepthCountsSegments(p: Path)
    ensures |Segments(p)| == Depth(p) + 1
  {
    if p != "" { DepthCountsSegments(p[..|p| - 1]); }
  }

  /** Of all paths `s` has the fewest segments, and is the first by text of those that have as few. */
  ghost predicate IsShallowest(paths: seq<Path>, s: Path) {
    s in paths && forall p | p in paths && p != s ::
      |Segments(s)| < |Segments(p)| || (|Segments(s)| == |Segments(p)| && Less(s, p))
  }

  lemma ShallowestOf(paths: seq<Path>, s: Path)
    requires s in paths && forall p | p in paths :: p == s || Shallower(s, p)
    ensures IsShallowest(paths, s)
  {
    DepthCountsSegments(s);
    forall p | p in paths && p != s
      ensures |Segments(s)| < |Segments(p)| || (|Segments(s)| == |Segments(p)| && Less(s, p))
    {
      DepthCountsSegments(p);
    }
  }

  lemma ShallowestIsUnique(paths: seq<Path>, s: Path, t: Path)
    requires IsShallowest(paths, s) && IsShallowest(paths, t)
    ensures s == t
  {
    if Less(s, t) { LessAsymmetric(s, t); }
  }

  method Shallowest(paths: seq<Path>) returns (r: Option<Path>)
    ensures r.None? <==> paths == []
    ensures r.Some? ==> IsShallowest(paths, r.value)
  {
    if paths == [] { return None; }
    var best := paths[0];
    for i := 1 to |paths|
      invariant best in paths && forall j | 0 <= j < i :: paths[j] == best || Shallower(best, paths[j])
    {
      ShallowerIsOrder(paths[i], best, best);
      if Shallower(paths[i], best) {
        forall j | 0 <= j < i ensures paths[j] == paths[i] || Shallower(paths[i], paths[j]) {
          ShallowerIsOrder(paths[i], best, paths[j]);
        }
        best := paths[i];
      }
    }
    ShallowestOf(paths, best);
    return Some(best);
  }

  function HomesOf(cells: Homes, c: Claimant): seq<Path> {
    match c
    case Super(path) => [path]
    case Cell(id) => if id in cells then cells[id] else []
  }

  /** A claimant's stake is the supercell it is, or its shallowest home. */
  ghost predicate IsStake(cells: Homes, c: Claimant, s: Path) { IsShallowest(HomesOf(cells, c), s) }

  method Stake(cells: Homes, c: Claimant) returns (r: Option<Path>)
    ensures r.None? <==> HomesOf(cells, c) == []
    ensures r.Some? ==> IsStake(cells, c, r.value)
  {
    match c {
      case Super(path) => return Some(path);
      case Cell(id) =>
        if id !in cells { return None; }
        r := Shallowest(cells[id]);
    }
  }

  // ---- the deepest shared supercell -----------------------------------------------------------------------------

  /** The supercell with segments `p` has every claimant's stake at or below it. */
  ghost predicate Holds(cells: Homes, claimants: seq<Claimant>, p: seq<string>) {
    forall c | c in claimants :: exists s :: IsStake(cells, c, s) && p <= Segments(s)
  }

  ghost predicate SharedBy(p: seq<string>, paths: seq<seq<string>>) { forall s | s in paths :: p <= s }

  /** Column by column, as long as every path has the same segment. */
  method SharedPrefix(paths: seq<seq<string>>) returns (shared: seq<string>)
    requires paths != []
    ensures SharedBy(shared, paths)
    ensures forall p :: SharedBy(p, paths) ==> p <= shared
  {
    shared := [];
    var k: nat := 0;
    while k < |paths[0]| && forall s :: s in paths ==> k < |s| && s[k] == paths[0][k]
      invariant k <= |paths[0]| && shared == paths[0][..k]
      invariant SharedBy(shared, paths)
    {
      shared := shared + [paths[0][k]];
      k := k + 1;
    }
    forall p | SharedBy(p, paths) ensures p <= shared {
      assert paths[0] in paths;
      if |p| > k { SharedFurther(paths, p, k); }
    }
  }

  lemma SharedFurther(paths: seq<seq<string>>, p: seq<string>, k: nat)
    requires paths != [] && SharedBy(p, paths) && k < |p|
    ensures k < |paths[0]| && forall s :: s in paths ==> k < |s| && s[k] == paths[0][k]
  {
    assert paths[0] in paths;
    forall s | s in paths ensures k < |s| && s[k] == p[k] { assert p <= s; }
  }

  ghost predicate StakeSegments(cells: Homes, c: Claimant, segments: seq<string>) {
    exists s :: IsStake(cells, c, s) && segments == Segments(s)
  }

  lemma HoldsIffShared(cells: Homes, claimants: seq<Claimant>, paths: seq<seq<string>>, p: seq<string>)
    requires |paths| == |claimants| && forall i | 0 <= i < |claimants| :: StakeSegments(cells, claimants[i], paths[i])
    ensures Holds(cells, claimants, p) <==> SharedBy(p, paths)
  {
    if Holds(cells, claimants, p) {
      forall q | q in paths ensures p <= q {
        var i :| 0 <= i < |paths| && paths[i] == q;
        assert claimants[i] in claimants;
        var s :| IsStake(cells, claimants[i], s) && p <= Segments(s);
        var t :| IsStake(cells, claimants[i], t) && paths[i] == Segments(t);
        ShallowestIsUnique(HomesOf(cells, claimants[i]), s, t);
      }
    }
    if SharedBy(p, paths) {
      forall c | c in claimants ensures exists s :: IsStake(cells, c, s) && p <= Segments(s) {
        var i :| 0 <= i < |claimants| && claimants[i] == c;
        var s :| IsStake(cells, c, s) && paths[i] == Segments(s);
        assert paths[i] in paths;
      }
    }
  }

  /** The deepest supercell holding every claimant, if it has more than one segment. */
  method CommonSupercell(cells: Homes, claimants: seq<Claimant>) returns (r: Option<Path>)
    ensures r.Some? <==> claimants != [] && exists p :: |p| > 1 && Holds(cells, claimants, p)
    ensures r.Some? ==> Holds(cells, claimants, Segments(r.value))
    ensures r.Some? ==> forall p :: Holds(cells, claimants, p) ==> p <= Segments(r.value)
  {
    var paths: seq<seq<string>> := [];
    for i := 0 to |claimants|
      invariant |paths| == i && forall j | 0 <= j < i :: StakeSegments(cells, claimants[j], paths[j])
      invariant forall q | q in paths :: forall x | x in q :: '/' !in x
    {
      var s := Stake(cells, claimants[i]);
      if s.None? {
        assert claimants[i] in claimants;
        return None;
      }
      assert StakeSegments(cells, claimants[i], Segments(s.value));
      paths := paths + [Segments(s.value)];
    }
    if paths == [] { return None; }
    var shared := SharedPrefix(paths);
    forall p ensures Holds(cells, claimants, p) <==> SharedBy(p, paths) {
      HoldsIffShared(cells, claimants, paths, p);
    }
    if |shared| <= 1 { return None; }
    assert paths[0] in paths && shared <= paths[0];
    SegmentsOfJoined(shared, Joined(shared));
    return Some(Joined(shared));
  }

  /** The shallowest supercell any claimant has. */
  method FallbackSupercell(cells: Homes, claimants: seq<Claimant>) returns (r: Option<Path>)
    ensures r.None? <==> forall c | c in claimants :: HomesOf(cells, c) == []
    ensures r.Some? ==>
      && (exists c :: c in claimants && r.value in HomesOf(cells, c))
      && forall c, p | c in claimants && p in HomesOf(cells, c) && p != r.value ::
           || |Segments(r.value)| < |Segments(p)|
           || (|Segments(r.value)| == |Segments(p)| && Less(r.value, p))
  {
    var all: seq<Path> := [];
    for i := 0 to |claimants|
      invariant forall p :: p in all <==> exists j :: 0 <= j < i && p in HomesOf(cells, claimants[j])
    {
      all := all + HomesOf(cells, claimants[i]);
    }
    r := Shallowest(all);
    forall c, p | c in claimants && p in HomesOf(cells, c) ensures p in all {
      var j :| 0 <= j < |claimants| && claimants[j] == c;
      assert p in HomesOf(cells, claimants[j]);
    }
    if r.Some? {
      var j :| 0 <= j < |claimants| && r.value in HomesOf(cells, claimants[j]);
      assert claimants[j] in claimants;
    }
    forall c | c in claimants && HomesOf(cells, c) != [] ensures r.Some? {
      assert HomesOf(cells, c)[0] in all;
    }
  }
}
