/** What Diff can miss, on containers built by calls of their methods.  removeElement merges the parent of a
    leaf and drops its children from the range map, but not what lies below a divided child.  Such a left-over
    range still answers queries with the hash it had, and a remote range with that hash is skipped.  And an
    empty remote leaf is skipped when we do not track its range, whatever we hold there. */
module Staleness {
  import opened Options
  import opened Geometry
  import opened Buckets
  import opened Elements
  import opened Tree
  import opened Updates
  import opened Batches
  import opened Fitting
  import opened Canonical
  import opened Protocol
  import opened Rounds
  import opened Container
  import opened Fills

  const G1 := Element("g1", "v")
  const G4 := Element("g4", "v")
  const G5 := Element("g5", "v")
  const H3 := Element("h3", "v")
  const S1 := Element("s1", "v")
  const S2 := Element("s2", "v")
  const S3 := Element("s3", "v")

  /** Where the seven ids hash to. */
  predicate Placing(xx: Hasher) {
    && xx("g1") == 0 && xx("g5") == 1 && xx("g4") == 0x1000_0000_0000_0000 && xx("h3") == 0x2000_0000_0000_0000
    && xx("s1") == 0x4000_0000_0000_0000 && xx("s2") == 0x4000_0000_0000_0001 && xx("s3") == 0x4000_0000_0000_0002
  }

  /** Divide factor 2, threshold 2. */
  function Small(xx: Hasher): Params {
    Params(xx, 1, 2)
  }

  // the buckets of levels 1 to 4 around hash 0, and two others
  const A := Tuple(0, 0x7FFF_FFFF_FFFF_FFFF)
  const AA := Tuple(0, 0x3FFF_FFFF_FFFF_FFFF)
  const AAA := Tuple(0, 0x1FFF_FFFF_FFFF_FFFF)
  const AAAB := Tuple(0x1000_0000_0000_0000, 0x1FFF_FFFF_FFFF_FFFF)
  const AB := Tuple(0x4000_0000_0000_0000, 0x7FFF_FFFF_FFFF_FFFF)

  lemma Widths()
    ensures Pow2(1) == 2 && Pow2(63) == 0x8000_0000_0000_0000 && Pow2(62) == 0x4000_0000_0000_0000
    ensures Pow2(61) == 0x2000_0000_0000_0000 && Pow2(60) == 0x1000_0000_0000_0000
  {
    Pow2Of64();
    assert Pow2(64) == 2 * Pow2(63) && Pow2(63) == 2 * Pow2(62) && Pow2(62) == 2 * Pow2(61) && Pow2(61) == 2 * Pow2(60);
    assert Pow2(1) == 2 * Pow2(0);
  }

  /** A range of width w that starts at 0 or at w is a bucket of the level of that width. */
  lemma EarlyBucket(k: nat, n: nat, w: nat, t: Tuple)
    requires k == 1 && n <= 64 && w == Pow2(64 - n) && (t.from == 0 || t.from == w) && t.to == t.from + w - 1
    ensures IsBucket(k, n, t)
  {
    hide Pow2;
    assert 0 % w == 0 && w % w == 0;
  }

  lemma BucketA(k: nat)
    requires k == 1
    ensures IsBucket(k, 1, A)
  {
    hide Pow2, IsBucket;
    Widths();
    EarlyBucket(k, 1, 0x8000_0000_0000_0000, A);
  }

  lemma BucketAA(k: nat)
    requires k == 1
    ensures IsBucket(k, 2, AA) && IsBucket(k, 2, AB)
  {
    hide Pow2, IsBucket;
    Widths();
    EarlyBucket(k, 2, 0x4000_0000_0000_0000, AA);
    EarlyBucket(k, 2, 0x4000_0000_0000_0000, AB);
  }

  lemma BucketAAA(k: nat)
    requires k == 1
    ensures IsBucket(k, 3, AAA) && IsBucket(k, 4, AAAB)
  {
    hide Pow2, IsBucket;
    Widths();
    EarlyBucket(k, 3, 0x2000_0000_0000_0000, AAA);
    EarlyBucket(k, 4, 0x1000_0000_0000_0000, AAAB);
  }

  lemma TheBuckets(k: nat)
    requires k == 1
    ensures IsBucket(k, 0, Top) && IsBucket(k, 1, A) && IsBucket(k, 2, AA) && IsBucket(k, 2, AB) && IsBucket(k, 3, AAA) && IsBucket(k, 4, AAAB)
  {
    hide IsBucket;
    TopIsBucket(k, 0);
    BucketA(k);
    BucketAA(k);
    BucketAAA(k);
  }

  lemma WithoutCons(e: Element, rest: seq<Element>, id: string)
    ensures Without([e] + rest, id) == (if e.id == id then [] else [e]) + Without(rest, id)
  {
    assert ([e] + rest)[1..] == rest;
  }

  lemma IdsDiffer()
    ensures G1.id != "g4" && G5.id != "g4" && S1.id != "g4" && G1.id != "s1" && G5.id != "s1" && G1.id != "g5"
  {
    assert "g1"[1] == '1' && "g5"[1] == '5' && "g4"[1] == '4' && "s1"[0] == 's' && "g1"[0] == 'g' && "g5"[0] == 'g' && "g4"[0] == 'g';
  }

  /** The lists of elements the local container goes through. */
  lemma Removals()
    ensures Without([G1, G5, G4, S1], "g4") == [G1, G5, S1]
    ensures Without([G1, G5, S1], "s1") == [G1, G5]
    ensures Without([G1, G5], "g5") == [G1]
  {
    IdsDiffer();
    hide Without;
    assert [G1, G5, G4, S1] == [G1] + [G5, G4, S1] && [G5, G4, S1] == [G5] + [G4, S1] && [G4, S1] == [G4] + [S1];
    WithoutCons(G1, [G5, G4, S1], "g4");
    WithoutCons(G5, [G4, S1], "g4");
    WithoutCons(G4, [S1], "g4");
    WithoutAbsent([S1], "g4");
    assert [G1, G5, S1] == [G1] + [G5, S1] && [G5, S1] == [G5] + [S1] && [S1] == [S1] + [];
    WithoutCons(G1, [G5, S1], "s1");
    WithoutCons(G5, [S1], "s1");
    WithoutCons(S1, [], "s1");
    WithoutAbsent([], "s1");
    assert [G1, G5] == [G1] + [G5] && [G5] == [G5] + [];
    WithoutCons(G1, [G5], "g5");
    WithoutCons(G5, [], "g5");
    WithoutAbsent([], "g5");
  }

  // ---- the local container, step by step ---------------------------------------------------------------------

  /** After Set(g1, g5, g4, s1): three nested divided ranges, and the leaves of g4 and s1. */
  ghost predicate First(p: Params, nodes: Nodes, live: set<Tuple>) {
    && Reaches(p, nodes, live, 1, A) && Reaches(p, nodes, live, 2, AA) && Reaches(p, nodes, live, 3, AAA)
    && Reaches(p, nodes, live, 4, AAAB) && Reaches(p, nodes, live, 2, AB)
    && !nodes[AAAB].divided && !nodes[AB].divided && nodes[AAA].count == 3
  }

  lemma FirstCounts(xx: Hasher)
    requires Placing(xx)
    ensures var sl := [G1, G5, G4, S1];
            && |Within(xx, sl, A)| == 4 && |Within(xx, sl, AA)| == 3 && |Within(xx, sl, AAA)| == 3
            && |Within(xx, sl, AAAB)| == 1 && |Within(xx, sl, AB)| == 1
  {
    hide Within;
    WithinFour(xx, G1, G5, G4, S1, A);
    WithinFour(xx, G1, G5, G4, S1, AA);
    WithinFour(xx, G1, G5, G4, S1, AAA);
    WithinFour(xx, G1, G5, G4, S1, AAAB);
    WithinFour(xx, G1, G5, G4, S1, AB);
  }

  lemma AfterFirst(p: Params, nodes: Nodes, live: set<Tuple>)
    requires p == Small(p.xx) && Placing(p.xx)
    requires Working(p, [G1, G5, G4, S1], nodes, live, {}) && Crisp(p, [G1, G5, G4, S1], nodes, live)
    ensures First(p, nodes, live)
  {
    hide Pow2, IsBucket, Within, Working, Placing;
    var sl := [G1, G5, G4, S1];
    FirstCounts(p.xx);
    TheBuckets(p.k);
    TopReached(p, sl, nodes, live);
    Down(p, sl, nodes, live, 0, Top, A);
    Down(p, sl, nodes, live, 1, A, AA);
    Down(p, sl, nodes, live, 1, A, AB);
    Down(p, sl, nodes, live, 2, AA, AAA);
    Down(p, sl, nodes, live, 3, AAA, AAAB);
  }

  /** After RemoveId(g4): the parent of its leaf has become a leaf that holds g1 and g5. */
  ghost predicate Second(p: Params, nodes: Nodes, live: set<Tuple>) {
    && Reaches(p, nodes, live, 1, A) && Reaches(p, nodes, live, 3, AAA) && Reaches(p, nodes, live, 2, AB)
    && !nodes[AAA].divided && !nodes[AB].divided && nodes[A].count == 3
    && nodes[AAA].hash == Some(OfElements([G1, G5]))
  }

  lemma AfterSecond(p: Params, nodes0: Nodes, live0: set<Tuple>, nodes: Nodes, live: set<Tuple>, r: Tuple, u: Tuple)
    requires p == Small(p.xx) && Placing(p.xx) && Shape(p, nodes0, live0) && First(p, nodes0, live0)
    requires TakenOut(p, nodes0, live0, nodes, live, p.xx("g4"), r, u)
    requires Working(p, [G1, G5, S1], nodes, live, {}) && Tally(p, [G1, G5, S1], nodes, live)
    ensures Second(p, nodes, live)
  {
    hide Pow2, IsBucket, Bucket, HasLevel, LevelWidth, Child, Children, Within, Working, Placed;
    var sl := [G1, G5, S1];
    TheBuckets(p.k);
    TheLeaf(p, nodes0, live0, p.xx("g4"), r, u, AAAB, 3, AAA);
    WorkingShape(p, sl, nodes, live, {});
    assert A in live && AAA in live && AB in live;
    LevelIs(p, nodes, live, 1, A);
    LevelIs(p, nodes, live, 3, AAA);
    LevelIs(p, nodes, live, 2, AB);
    WithinThree(p.xx, G1, G5, S1, A);
    WithinThree(p.xx, G1, G5, S1, AAA);
    ExactThere(p, sl, nodes, live, AAA);
    assert Within(p.xx, sl, AAA) == [G1, G5];
  }

  /** After RemoveId(s1): A is a leaf again, and the range of g1 and g5 is left over below it. */
  ghost predicate Third(p: Params, nodes: Nodes, live: set<Tuple>) {
    A in live && A in nodes && !nodes[A].divided && LeftOver(nodes, live)
  }

  ghost predicate LeftOver(nodes: Nodes, live: set<Tuple>) {
    AAA in nodes && AAA !in live && nodes[AAA].hash == Some(OfElements([G1, G5]))
  }

  lemma NotAChild(p: Params)
    requires p.k == 1
    ensures AAA !in Children(A, p.Df())
  {
    hide Pow2, IsBucket, Bucket, HasLevel, LevelWidth, Child, Children;
    TheBuckets(p.k);
    if AAA in Children(A, p.Df()) {
      InChildren(A, p.Df(), AAA);
      var j :| 0 <= j < p.Df() && AAA == Child(A, p.Df(), j);
      NextLevelWide(p.k, 1);
      ChildIsBucket(p.k, 1, A, j);
      SameLevel(p.k, 2, 3, AAA);
    }
  }

  lemma AfterThird(p: Params, nodes0: Nodes, live0: set<Tuple>, nodes: Nodes, live: set<Tuple>, r: Tuple, u: Tuple)
    requires p == Small(p.xx) && Placing(p.xx) && Shape(p, nodes0, live0) && Second(p, nodes0, live0)
    requires TakenOut(p, nodes0, live0, nodes, live, p.xx("s1"), r, u)
    requires live <= nodes.Keys
    ensures Third(p, nodes, live) && live == Outside(live0, A)
  {
    hide Pow2, IsBucket, Bucket, HasLevel, LevelWidth, Child, Children, Placed;
    TheBuckets(p.k);
    TheLeaf(p, nodes0, live0, p.xx("s1"), r, u, AB, 1, A);
    NotAChild(p);
  }

  /** After RemoveId(g5), which lies in the leaf A below the top: nothing is merged. */
  lemma AfterFourth(p: Params, nodes0: Nodes, live0: set<Tuple>, nodes: Nodes, live: set<Tuple>, r: Tuple, u: Tuple)
    requires p == Small(p.xx) && Placing(p.xx) && Shape(p, nodes0, live0) && Third(p, nodes0, live0)
    requires TakenOut(p, nodes0, live0, nodes, live, p.xx("g5"), r, u)
    ensures Third(p, nodes, live) && live == live0
  {
    hide Pow2, IsBucket, Bucket, HasLevel, LevelWidth, Child, Children, Placed;
    TheBuckets(p.k);
    TheLeaf(p, nodes0, live0, p.xx("g5"), r, u, A, 0, Top);
  }

  /** In the first tree every divided range below the top lies in A. */
  lemma DividedInA(p: Params, nodes: Nodes, live: set<Tuple>, t: Tuple)
    requires p == Small(p.xx) && Placing(p.xx) && Shape(p, nodes, live) && Crisp(p, [G1, G5, G4, S1], nodes, live)
    requires t in live && t != Top && nodes[t].divided
    ensures Sub(t, A)
  {
    hide Pow2, IsBucket, Bucket, HasLevel, LevelWidth, Child, Within, Hangs, Divided;
    assert Placed(p, nodes, live, t);
    var n := nodes[t].level;
    TheBuckets(p.k);
    NestedOrDisjoint(p.k, n, t, 1, A);
    WithinFour(p.xx, G1, G5, G4, S1, t);
    if Sub(A, t) && A != t {
      StrictlyInside(p.k, n, t, 1, A);
      BucketProper(p.k, n, t);
      BucketUnique(p.k, 0, t, 0);
      BucketUnique(p.k, 0, Top, 0);
      assert false;
    }
  }

  /** So once A is a leaf again nothing below the top is divided. */
  lemma CrispAgain(p: Params, first: Nodes, live1: set<Tuple>, nodes: Nodes, live: set<Tuple>)
    requires p == Small(p.xx) && Placing(p.xx) && Shape(p, first, live1) && Crisp(p, [G1, G5, G4, S1], first, live1)
    requires Tally(p, [G1], nodes, live) && Third(p, nodes, live)
    requires forall t | t in live :: t in live1 && t in nodes && (nodes[t].divided ==> first[t].divided) && !(Sub(t, A) && t != A)
    ensures Crisp(p, [G1], nodes, live)
  {
    hide Within, Shape, Placing;
    forall t | t in live && t != Top
      ensures !nodes[t].divided
    {
      if nodes[t].divided {
        DividedInA(p, first, live1, t);
        assert false;
      }
    }
  }

  /** After Set(s2, s3): A is divided again, the bucket AA is a leaf, and the left-over range is still there. */
  lemma AfterFifth(p: Params, nodes0: Nodes, live0: set<Tuple>, nodes: Nodes, live: set<Tuple>)
    requires p == Small(p.xx) && Placing(p.xx) && LeftOver(nodes0, live0)
    requires Working(p, [G1, S2, S3], nodes, live, {}) && Crisp(p, [G1, S2, S3], nodes, live)
    requires Untouched(nodes0, live0, nodes, live)
    ensures Reaches(p, nodes, live, 1, A) && Reaches(p, nodes, live, 2, AA) && LeftOver(nodes, live)
  {
    hide Pow2, IsBucket, Bucket, HasLevel, LevelWidth, Child, Within, Working;
    var sl := [G1, S2, S3];
    TheBuckets(p.k);
    WithinThree(p.xx, G1, S2, S3, A);
    WithinThree(p.xx, G1, S2, S3, AA);
    TopReached(p, sl, nodes, live);
    Down(p, sl, nodes, live, 0, Top, A);
    Down(p, sl, nodes, live, 1, A, AA);
    WorkingShape(p, sl, nodes, live, {});
    if AAA in live {
      LevelIs(p, nodes, live, 3, AAA);
      assert Placed(p, nodes, live, AAA);
      BucketUnique(p.k, 2, AA, 0);
      assert false;
    }
  }

  /** The remote container, filled with g1, g5 and h3. */
  lemma Remote(p: Params, nodes: Nodes, live: set<Tuple>)
    requires p == Small(p.xx) && Placing(p.xx)
    requires Working(p, [G1, G5, H3], nodes, live, {}) && Crisp(p, [G1, G5, H3], nodes, live)
    ensures Reaches(p, nodes, live, 1, A) && Reaches(p, nodes, live, 2, AA) && Reaches(p, nodes, live, 3, AAA)
    ensures nodes[AAA].hash == Some(OfElements([G1, G5]))
  {
    hide Pow2, IsBucket, Bucket, HasLevel, LevelWidth, Child, Within, Working;
    var sl := [G1, G5, H3];
    TheBuckets(p.k);
    WithinThree(p.xx, G1, G5, H3, A);
    WithinThree(p.xx, G1, G5, H3, AA);
    WithinThree(p.xx, G1, G5, H3, AAA);
    TopReached(p, sl, nodes, live);
    Down(p, sl, nodes, live, 0, Top, A);
    Down(p, sl, nodes, live, 1, A, AA);
    Down(p, sl, nodes, live, 2, AA, AAA);
    ExactThere(p, sl, nodes, live, AAA);
    assert Within(p.xx, sl, AAA) == [G1, G5];
  }

  // ---- what Diff then does -------------------------------------------------------------------------------------

  /** Both sides reach t with different elements there, the remote more than the threshold: Diff splits. */
  lemma Splits(p: Params, l: View, r: View, t: Tuple)
    requires Faithful(p, l) && Faithful(p, r) && t in l.live && t in r.live
    requires Within(p.xx, l.sl, t) != Within(p.xx, r.sl, t) && Within(p.xx, l.sl, t) != []
    requires p.threshold < |Within(p.xx, r.sl, t)|
    ensures Verdicts(p, l, r, t) == Split
  {
    hide Within, Placed, Roomy;
    LiveIsTrue(p, l, t);
    LiveIsTrue(p, r, t);
  }

  lemma HidesG5(p: Params, l: View, r: View)
    requires p == Small(p.xx) && Placing(p.xx) && Faithful(p, l) && Faithful(p, r)
    requires l.sl == [G1, S2, S3] && r.sl == [G1, G5, H3]
    requires Reaches(p, l.nodes, l.live, 1, A) && Reaches(p, l.nodes, l.live, 2, AA) && LeftOver(l.nodes, l.live)
    requires Reaches(p, r.nodes, r.live, 1, A) && Reaches(p, r.nodes, r.live, 2, AA)
    requires AAA in r.nodes && r.nodes[AAA].hash == Some(OfElements([G1, G5]))
    ensures Hidden(p, l, r, p.xx("g5"))
  {
    hide Pow2, IsBucket, Bucket, HasLevel, LevelWidth, Child, Within, Working, Verdicts;
    TheBuckets(p.k);
    TopReached(p, l.sl, l.nodes, l.live);
    TopReached(p, r.sl, r.nodes, r.live);
    SplitsAt(p, l, r, 0, Top);
    SplitsAt(p, l, r, 1, A);
    SplitsAt(p, l, r, 2, AA);
    SkipsAAA(p, l, r);
    forall m | 0 <= m < 3
      ensures HasLevel(p.k, m) && Verdicts(p, l, r, Bucket(p.k, m, p.xx("g5"))) == Split
    {
      if m != 0 && m != 1 {
        assert m == 2;
      }
    }
    assert HiddenAt(p, l, r, p.xx("g5"), 3);
  }

  lemma SplitsAt(p: Params, l: View, r: View, n: int, t: Tuple)
    requires p == Small(p.xx) && Placing(p.xx) && Faithful(p, l) && Faithful(p, r)
    requires l.sl == [G1, S2, S3] && r.sl == [G1, G5, H3] && t in l.live && t in r.live
    requires IsBucket(p.k, n, t) && (t == Top || t == A || t == AA)
    ensures HasLevel(p.k, n) && Verdicts(p, l, r, Bucket(p.k, n, p.xx("g5"))) == Split
  {
    hide Pow2, IsBucket, Bucket, HasLevel, LevelWidth, Child, Within, Working, Verdicts;
    BucketProper(p.k, n, t);
    BucketUnique(p.k, n, t, 1);
    WithinThree(p.xx, G1, S2, S3, t);
    WithinThree(p.xx, G1, G5, H3, t);
    assert Within(p.xx, r.sl, t) == [G1, G5, H3];
    assert Within(p.xx, l.sl, t)[0] == G1;
    assert G5 in Within(p.xx, r.sl, t);
    assert G5 !in Within(p.xx, l.sl, t);
    Splits(p, l, r, t);
  }

  lemma SkipsAAA(p: Params, l: View, r: View)
    requires p == Small(p.xx) && Placing(p.xx) && LeftOver(l.nodes, l.live)
    requires AAA in r.nodes && r.nodes[AAA].hash == Some(OfElements([G1, G5]))
    ensures HasLevel(p.k, 3) && Verdicts(p, l, r, Bucket(p.k, 3, p.xx("g5"))) == Skip
  {
    hide Pow2, IsBucket, Bucket, LevelWidth, Child, Within;
    TheBuckets(p.k);
    BucketProper(p.k, 3, AAA);
    BucketUnique(p.k, 3, AAA, 1);
  }

  // ---- the calls -------------------------------------------------------------------------------------------------

  lemma OneHashRanges(k: nat)
    requires k == 1
    ensures LastWidth(k) == 1
  {
    hide LastWidth;
    LastWidthIs(k);
  }

  /** Fill with divide factor 2, where the last ranges hold one hash. */
  method FillUp(d: Diff, batch: seq<Element>)
    requires d.Valid() && d.p.k == 1 && Crisp(d.p, d.sl, d.nodes, d.live) && Rising(d.p.xx, d.sl + batch)
    modifies d
    ensures d.Valid() && d.sl == old(d.sl) + batch && Crisp(d.p, d.sl, d.nodes, d.live)
    ensures Untouched(old(d.nodes), old(d.live), d.nodes, d.live) && (old(d.Tight()) ==> d.Tight())
  {
    hide Working, Crisp, Untouched, Rising, Fits, Placed, LastWidth;
    WorkingShape(d.p, d.sl, d.nodes, d.live, {});
    OneHashRanges(d.p.k);
    RisingFits(d.p, d.sl, d.nodes, d.live, batch);
    Fill(d, batch);
  }

  /** The remote container. */
  method Freshly(xx: Hasher) returns (d: Diff)
    requires Placing(xx)
    ensures fresh(d) && d.Valid() && d.p == Small(xx) && d.sl == [G1, G5, H3] && Crisp(d.p, d.sl, d.nodes, d.live)
  {
    hide Working, Crisp;
    d := NewContainer(xx, 1, 2);
    FillUp(d, [G1, G5, H3]);
    assert [] + [G1, G5, H3] == [G1, G5, H3];
  }

  /** RemoveId, with what it did to the tree. */
  method TakeOut(d: Diff, id: string, ghost rest: seq<Element>) returns (ghost r: Tuple, ghost u: Tuple)
    requires d.Valid() && Tally(d.p, d.sl, d.nodes, d.live) && (exists e :: e in d.sl && e.id == id) && rest == Without(d.sl, id)
    modifies d
    ensures d.Valid() && d.sl == rest && Tally(d.p, d.sl, d.nodes, d.live)
    ensures TakenOut(d.p, old(d.nodes), old(d.live), d.nodes, d.live, d.p.xx(id), r, u)
  {
    hide Working, Tally, TakenOut, Without;
    ghost var nodes, live := d.nodes, d.live;
    var found := d.RemoveId(id);
    r, u :| TakenOut(d.p, nodes, live, d.nodes, d.live, d.p.xx(id), r, u);
  }

  /** Fewer ranges, and none newly divided. */
  ghost predicate Shrinks(nodes0: Nodes, live0: set<Tuple>, nodes: Nodes, live: set<Tuple>) {
    live <= live0 && forall t | t in live :: t in nodes0 && t in nodes && (nodes[t].divided ==> nodes0[t].divided)
  }

  lemma TakenShrinks(p: Params, nodes0: Nodes, live0: set<Tuple>, nodes: Nodes, live: set<Tuple>, x: u64, r: Tuple, u: Tuple)
    requires TakenOut(p, nodes0, live0, nodes, live, x, r, u) && live <= nodes.Keys
    ensures Shrinks(nodes0, live0, nodes, live)
  {
    hide Children, Merges;
  }

  lemma ShrinksChain(n0: Nodes, l0: set<Tuple>, n1: Nodes, l1: set<Tuple>, n2: Nodes, l2: set<Tuple>)
    requires Shrinks(n0, l0, n1, l1) && Shrinks(n1, l1, n2, l2)
    ensures Shrinks(n0, l0, n2, l2)
  {
  }

  /** The first removal. */
  method TakeG4(d: Diff)
    requires d.Valid() && d.p == Small(d.p.xx) && Placing(d.p.xx) && d.sl == [G1, G5, G4, S1] && Crisp(d.p, d.sl, d.nodes, d.live)
    modifies d
    ensures d.Valid() && d.sl == [G1, G5, S1] && Tally(d.p, d.sl, d.nodes, d.live)
    ensures Second(d.p, d.nodes, d.live) && Shrinks(old(d.nodes), old(d.live), d.nodes, d.live)
  {
    hide Working, Tally, TakenOut, First, Second, Shrinks, Placing;
    ghost var nodes, live := d.nodes, d.live;
    WorkingShape(d.p, d.sl, d.nodes, d.live, {});
    AfterFirst(d.p, d.nodes, d.live);
    Removals();
    assert G4 in d.sl;
    ghost var r, u := TakeOut(d, "g4", [G1, G5, S1]);
    WorkingShape(d.p, d.sl, d.nodes, d.live, {});
    AfterSecond(d.p, nodes, live, d.nodes, d.live, r, u);
    TakenShrinks(d.p, nodes, live, d.nodes, d.live, d.p.xx("g4"), r, u);
  }

  /** The second removal merges A, whose child AA is divided. */
  method TakeS1(d: Diff)
    requires d.Valid() && d.p == Small(d.p.xx) && Placing(d.p.xx) && d.sl == [G1, G5, S1] && Tally(d.p, d.sl, d.nodes, d.live)
    requires Second(d.p, d.nodes, d.live)
    modifies d
    ensures d.Valid() && d.sl == [G1, G5] && Tally(d.p, d.sl, d.nodes, d.live)
    ensures Third(d.p, d.nodes, d.live) && d.live == Outside(old(d.live), A) && Shrinks(old(d.nodes), old(d.live), d.nodes, d.live)
  {
    hide Working, Tally, TakenOut, Second, Third, Shrinks, Placing, Outside;
    ghost var nodes, live := d.nodes, d.live;
    WorkingShape(d.p, d.sl, d.nodes, d.live, {});
    Removals();
    assert S1 in d.sl;
    ghost var r, u := TakeOut(d, "s1", [G1, G5]);
    WorkingShape(d.p, d.sl, d.nodes, d.live, {});
    AfterThird(d.p, nodes, live, d.nodes, d.live, r, u);
    TakenShrinks(d.p, nodes, live, d.nodes, d.live, d.p.xx("s1"), r, u);
  }

  method TakeG5(d: Diff)
    requires d.Valid() && d.p == Small(d.p.xx) && Placing(d.p.xx) && d.sl == [G1, G5] && Tally(d.p, d.sl, d.nodes, d.live)
    requires Third(d.p, d.nodes, d.live)
    modifies d
    ensures d.Valid() && d.sl == [G1] && Tally(d.p, d.sl, d.nodes, d.live)
    ensures Third(d.p, d.nodes, d.live) && d.live == old(d.live) && Shrinks(old(d.nodes), old(d.live), d.nodes, d.live)
  {
    hide Working, Tally, TakenOut, Third, Shrinks, Placing;
    ghost var nodes, live := d.nodes, d.live;
    WorkingShape(d.p, d.sl, d.nodes, d.live, {});
    Removals();
    assert G5 in d.sl;
    ghost var r, u := TakeOut(d, "g5", [G1]);
    WorkingShape(d.p, d.sl, d.nodes, d.live, {});
    AfterFourth(d.p, nodes, live, d.nodes, d.live, r, u);
    TakenShrinks(d.p, nodes, live, d.nodes, d.live, d.p.xx("g5"), r, u);
  }

  /** The local container: two fills around three removals. */
  method Outdated(xx: Hasher) returns (d: Diff)
    requires Placing(xx)
    ensures fresh(d) && d.Valid() && d.p == Small(xx) && d.sl == [G1, S2, S3]
    ensures Reaches(d.p, d.nodes, d.live, 1, A) && Reaches(d.p, d.nodes, d.live, 2, AA) && LeftOver(d.nodes, d.live)
  {
    hide Working, Shape, Crisp, Tally, Second, Shrinks, Untouched, Outside, Reaches, LeftOver, Third, Diff.Tight;
    d := NewContainer(xx, 1, 2);
    FillUp(d, [G1, G5, G4, S1]);
    assert [] + [G1, G5, G4, S1] == [G1, G5, G4, S1];
    ghost var n1, l1 := d.nodes, d.live;
    WorkingShape(d.p, d.sl, d.nodes, d.live, {});
    TakeG4(d);
    ghost var n2, l2 := d.nodes, d.live;
    TakeS1(d);
    ghost var n3, l3 := d.nodes, d.live;
    TakeG5(d);
    ghost var n4, l4 := d.nodes, d.live;
    ShrinksChain(n1, l1, n2, l2, n3, l3);
    ShrinksChain(n1, l1, n3, l3, n4, l4);
    ThirdCrisp(d.p, n1, l1, l2, n4, l4);
    assert [G1] + [S2, S3] == [G1, S2, S3];
    FillUp(d, [S2, S3]);
    ThirdLeftOver(d.p, n4, l4);
    AfterFifth(d.p, n4, l4, d.nodes, d.live);
  }

  lemma ThirdLeftOver(p: Params, nodes: Nodes, live: set<Tuple>)
    requires Third(p, nodes, live)
    ensures LeftOver(nodes, live)
  {
  }

  lemma ThirdCrisp(p: Params, first: Nodes, live1: set<Tuple>, live2: set<Tuple>, nodes: Nodes, live: set<Tuple>)
    requires p == Small(p.xx) && Placing(p.xx) && Shape(p, first, live1) && Crisp(p, [G1, G5, G4, S1], first, live1)
    requires Tally(p, [G1], nodes, live) && Third(p, nodes, live) && Shrinks(first, live1, nodes, live) && live == Outside(live2, A)
    ensures Crisp(p, [G1], nodes, live)
  {
    hide Crisp, Tally, Third, Shape;
    CrispAgain(p, first, live1, nodes, live);
  }

  /** Five calls on a fresh container after which Diff does not report g5, which the remote has and we do
      not: every answer of the remote is faithful, ours for the left-over range is not. */
  method MissedNewId(xx: Hasher) returns (local: Diff, remote: Diff, res: DiffResult)
    requires Placing(xx)
    ensures local.Valid() && remote.Valid() && local.p == remote.p == Small(xx)
    ensures local.sl == [G1, S2, S3] && remote.sl == [G1, G5, H3]
    ensures res.Done? && "g5" !in res.out.newIds
  {
    hide Working, Crisp, Reaches, LeftOver, Hidden, UpToHidden, Exactly, Truthful, Placing;
    local := Outdated(xx);
    remote := Freshly(xx);
    Remote(remote.p, remote.nodes, remote.live);
    var l, r := local, remote;
    RemoteParts(r.p, r.nodes, r.live);
    HidesG5(l.p, l.Seen(), r.Seen());
    res := local.Reconcile(remote, Equal, 66);
    SilentOnG5(l.p, l.Seen(), r.Seen(), res.out);
  }

  lemma RemoteParts(p: Params, nodes: Nodes, live: set<Tuple>)
    requires Reaches(p, nodes, live, 3, AAA)
    ensures AAA in nodes
  {
  }

  lemma SilentOnG5(p: Params, l: View, r: View, out: Outcome)
    requires UpToHidden(p, Equal, l, r, out) && Hidden(p, l, r, p.xx("g5"))
    ensures "g5" !in out.newIds
  {
    hide Hidden;
  }

  // ---- a removal Diff does not report ---------------------------------------------------------------------------------

  /** Divide factor 2, threshold 1. */
  function Tiny(xx: Hasher): Params {
    Params(xx, 1, 1)
  }

  /** Filled with s1 alone, a container tracks A and nothing inside it. */
  lemma LonelyTree(p: Params, nodes: Nodes, live: set<Tuple>)
    requires p == Tiny(p.xx) && Placing(p.xx)
    requires Working(p, [S1], nodes, live, {}) && Crisp(p, [S1], nodes, live) && nodes.Keys == live
    ensures Top in nodes && A in nodes && AB !in nodes
  {
    hide Pow2, IsBucket, Within, Working, Crisp;
    TheBuckets(p.k);
    TopReached(p, [S1], nodes, live);
    Down(p, [S1], nodes, live, 0, Top, A);
    WithinOne(p.xx, S1, A);
    DividedIff(p, [S1], nodes, live, A);
    WorkingShape(p, [S1], nodes, live, {});
    if AB in live {
      InsideLeaf(p, nodes, live, A, AB);
      assert false;
    }
  }

  /** Filled with g1 and g5, it divides A, and AB is an empty leaf. */
  lemma PairTree(p: Params, nodes: Nodes, live: set<Tuple>)
    requires p == Tiny(p.xx) && Placing(p.xx)
    requires Working(p, [G1, G5], nodes, live, {}) && Crisp(p, [G1, G5], nodes, live)
    ensures Top in nodes && nodes[Top].count == 2 && A in nodes && nodes[A].count == 2 && AB in nodes && nodes[AB].hash == None
  {
    hide Pow2, IsBucket, Within, Working;
    var sl := [G1, G5];
    TheBuckets(p.k);
    WithinTwo(p.xx, G1, G5, Top);
    WithinTwo(p.xx, G1, G5, A);
    WithinTwo(p.xx, G1, G5, AB);
    TopReached(p, sl, nodes, live);
    Down(p, sl, nodes, live, 0, Top, A);
    Down(p, sl, nodes, live, 1, A, AB);
    ExactThere(p, sl, nodes, live, AB);
  }

  lemma OmitsS1(p: Params, l: View, r: View)
    requires p == Tiny(p.xx) && Placing(p.xx)
    requires Top in l.nodes && A in l.nodes && AB !in l.nodes
    requires Top in r.nodes && r.nodes[Top].count == 2 && A in r.nodes && r.nodes[A].count == 2
    requires AB in r.nodes && r.nodes[AB].hash == None
    ensures Omitted(p, l, r, p.xx("s1"))
  {
    hide Pow2, IsBucket, Bucket, HasLevel, LevelWidth;
    var x := p.xx("s1");
    TheBuckets(p.k);
    BucketProper(p.k, 0, Top);
    BucketProper(p.k, 1, A);
    BucketProper(p.k, 2, AB);
    BucketUnique(p.k, 0, Top, x);
    BucketUnique(p.k, 1, A, x);
    BucketUnique(p.k, 2, AB, x);
    assert OpensAt(p, l, r, x, 0) && OpensAt(p, l, r, x, 1);
    assert OmittedAt(p, l, r, x, 2);
  }

  /** Two containers, each filled once, after which Diff does not report that the remote lacks s1.  Our side
      is truthful: the empty leaf AB of the remote has no hash, and neither has the range we do not track. */
  method MissedRemoval(xx: Hasher) returns (local: Diff, remote: Diff, res: DiffResult)
    requires Placing(xx)
    ensures local.Valid() && local.Tight() && remote.Valid() && local.p == remote.p == Tiny(xx)
    ensures local.sl == [S1] && remote.sl == [G1, G5]
    ensures res.Done? && res.out.removedIds == []
  {
    hide Working, Shape, Crisp, Omitted, Exactly, Truthful, UpToHidden;
    local := NewContainer(xx, 1, 1);
    FillUp(local, [S1]);
    assert [] + [S1] == [S1];
    remote := NewContainer(xx, 1, 1);
    FillUp(remote, [G1, G5]);
    assert [] + [G1, G5] == [G1, G5];
    var l, r := local, remote;
    LonelyTree(l.p, l.nodes, l.live);
    PairTree(r.p, r.nodes, r.live);
    OmitsS1(l.p, l.Seen(), r.Seen());
    TightIsTruthful(l.p, l.Seen());
    res := local.Reconcile(remote, Equal, 66);
    NothingRemoved(l.p, l.Seen(), r.Seen(), res.out);
  }

  lemma NothingRemoved(p: Params, l: View, r: View, out: Outcome)
    requires Exactly(p, Equal, l, r, out) && l.sl == [S1] && Omitted(p, l, r, p.xx("s1"))
    ensures out.removedIds == []
  {
    hide Omitted, Differs;
    forall id
      ensures id !in out.removedIds
    {
      assert IdExactly(p, Equal, l, r, out, id);
    }
    FirstIsMember(out.removedIds);
  }

  lemma FirstIsMember(ids: seq<string>)
    ensures ids != [] ==> exists id :: id in ids
  {
    if ids != [] {
      assert ids[0] in ids;
    }
  }
}
