/** makeBottomRanges as a function: the nodes and the dirty marks that dividing a range adds. */
module Growth {
  import opened Options
  import opened Geometry
  import opened Buckets
  import opened Elements
  import opened Tree

  /** makeRange, with the division makeBottomRanges decides on right after. */
  function Fresh(p: Params, sl: seq<Element>, parent: Tuple, c: Tuple, level: int): Node {
    var es := Within(p.xx, sl, c);
    Node(Some(parent), |es| > p.threshold, |es|, level, ElementsHash(es))
  }

  lemma OverIsWide(p: Params, sl: seq<Element>, n: int, t: Tuple)
    requires p.Ok() && Roomy(p, sl) && IsBucket(p.k, n, t) && p.threshold < |Within(p.xx, sl, t)|
    ensures p.Df() <= LevelWidth(p.k, n)
  {
    BucketUnique(p.k, n, t, t.from);
  }

  /** The nodes strictly inside bucket `t` from its piece j on. */
  ghost function Grow(p: Params, sl: seq<Element>, t: Tuple, n: int, j: int): Nodes
    requires p.Ok() && Roomy(p, sl) && IsBucket(p.k, n, t) && p.Df() <= LevelWidth(p.k, n) && 0 <= j <= p.Df()
    decreases 65 - n, p.Df() - j
  {
    if j == p.Df() then map[]
    else Piece(p, sl, t, n, j) + Grow(p, sl, t, n, j + 1)
  }

  /** Piece j with everything inside it. */
  ghost function Piece(p: Params, sl: seq<Element>, t: Tuple, n: int, j: int): Nodes
    requires p.Ok() && Roomy(p, sl) && IsBucket(p.k, n, t) && p.Df() <= LevelWidth(p.k, n) && 0 <= j < p.Df()
    decreases 65 - n, p.Df() - j, 0
  {
    ChildIsBucket(p.k, n, t, j);
    BucketProper(p.k, n, t);
    var c := Child(t, p.Df(), j);
    var node := Fresh(p, sl, t, c, n + 1);
    map[c := node] +
    (if node.divided then
       OverIsWide(p, sl, n + 1, c);
       Grow(p, sl, c, n + 1, 0)
     else map[])
  }

  /** The dirty set after the loop of makeBottomRanges from piece j on. */
  ghost function GrowDirty(p: Params, sl: seq<Element>, t: Tuple, n: int, j: int, dirty: set<Tuple>): set<Tuple>
    requires p.Ok() && Roomy(p, sl) && IsBucket(p.k, n, t) && p.Df() <= LevelWidth(p.k, n) && 0 <= j <= p.Df()
    decreases 65 - n, p.Df() - j
  {
    if j == p.Df() then dirty
    else
      GrowDirty(p, sl, t, n, j + 1, PieceDirty(p, sl, t, n, j, dirty))
  }

  ghost function PieceDirty(p: Params, sl: seq<Element>, t: Tuple, n: int, j: int, dirty: set<Tuple>): set<Tuple>
    requires p.Ok() && Roomy(p, sl) && IsBucket(p.k, n, t) && p.Df() <= LevelWidth(p.k, n) && 0 <= j < p.Df()
    decreases 65 - n, p.Df() - j, 0
  {
    ChildIsBucket(p.k, n, t, j);
    BucketProper(p.k, n, t);
    var c := Child(t, p.Df(), j);
    if |Within(p.xx, sl, c)| > p.threshold then
      OverIsWide(p, sl, n + 1, c);
      GrowDirty(p, sl, c, n + 1, 0, dirty - {t} + {c})
    else dirty
  }

  // ---- where the new nodes are ------------------------------------------------------------------

  /** Node c of G lies strictly inside t, at or after position `from`. */
  ghost predicate Inside(p: Params, G: Nodes, t: Tuple, n: int, from: int, c: Tuple)
    requires c in G
  {
    Sub(c, t) && c != t && from <= c.from && n < G[c].level && IsBucket(p.k, G[c].level, c)
  }

  ghost predicate AllInside(p: Params, G: Nodes, t: Tuple, n: int, from: int) {
    forall c | c in G :: Inside(p, G, t, n, from, c)
  }

  lemma {:induction false} GrowInside(p: Params, sl: seq<Element>, t: Tuple, n: int, j: int)
    requires p.Ok() && Roomy(p, sl) && IsBucket(p.k, n, t) && p.Df() <= LevelWidth(p.k, n) && 0 <= j < p.Df()
    ensures AllInside(p, Grow(p, sl, t, n, j), t, n, Child(t, p.Df(), j).from)
    decreases 65 - n, p.Df() - j
  {
    hide HasLevel, LevelWidth, Pow2, IsBucket, Bucket, Child, Within, Roomy;
    BucketProper(p.k, n, t);
    PieceInside(p, sl, t, n, j);
    var G, A, B := Grow(p, sl, t, n, j), Piece(p, sl, t, n, j), Grow(p, sl, t, n, j + 1);
    if j + 1 < p.Df() {
      GrowInside(p, sl, t, n, j + 1);
      NextPiece(p.k, n, t, j);
    }
    forall c | c in G
      ensures Inside(p, G, t, n, Child(t, p.Df(), j).from, c)
    {
      if c in B {
        assert Inside(p, B, t, n, Child(t, p.Df(), j + 1).from, c);
      } else {
        assert Inside(p, A, t, n, Child(t, p.Df(), j).from, c);
      }
    }
  }

  /** c0 heads its piece: it is new, and the rest of the piece lies in it. */
  ghost predicate PieceFirst(p: Params, sl: seq<Element>, G: Nodes, t: Tuple, n: int, c0: Tuple) {
    && c0 in G && G[c0] == Fresh(p, sl, t, c0, n + 1)
    && Sub(c0, t) && c0 != t && IsBucket(p.k, n + 1, c0)
    && forall c | c in G :: Sub(c, c0)
  }

  lemma NextPiece(k: nat, n: int, t: Tuple, j: int)
    requires IsBucket(k, n, t) && Pow2(k) <= LevelWidth(k, n) && 0 <= j && j + 1 < Pow2(k)
    ensures 2 <= Pow2(k)
    ensures Child(t, Pow2(k), j).from <= Child(t, Pow2(k), j).to && Child(t, Pow2(k), j).to + 1 == Child(t, Pow2(k), j + 1).from
  {
    ChildIsBucket(k, n, t, j);
    ChildIsBucket(k, n, t, j + 1);
  }

  lemma {:induction false} PieceInside(p: Params, sl: seq<Element>, t: Tuple, n: int, j: int)
    requires p.Ok() && Roomy(p, sl) && IsBucket(p.k, n, t) && p.Df() <= LevelWidth(p.k, n) && 0 <= j < p.Df()
    ensures var c0 := Child(t, p.Df(), j);
            && PieceFirst(p, sl, Piece(p, sl, t, n, j), t, n, c0)
            && AllInside(p, Piece(p, sl, t, n, j), t, n, c0.from)
    decreases 65 - n, p.Df() - j, 0
  {
    hide HasLevel, LevelWidth, Pow2, IsBucket, Bucket, Child, Within, Roomy;
    BucketProper(p.k, n, t);
    ChildIsBucket(p.k, n, t, j);
    var c0 := Child(t, p.Df(), j);
    BucketProper(p.k, n + 1, c0);
    if Fresh(p, sl, t, c0, n + 1).divided {
      OverIsWide(p, sl, n + 1, c0);
      GrowInside(p, sl, c0, n + 1, 0);
      var G, A := Piece(p, sl, t, n, j), Grow(p, sl, c0, n + 1, 0);
      forall c | c in G
        ensures Inside(p, G, t, n, c0.from, c) && Sub(c, c0)
      {
        if c in A {
          assert Inside(p, A, c0, n + 1, Child(c0, p.Df(), 0).from, c);
        }
      }
    } else {
      assert Piece(p, sl, t, n, j) == map[c0 := Fresh(p, sl, t, c0, n + 1)];
    }
  }

  /** Pieces do not share keys. */
  lemma PiecesDisjoint(p: Params, sl: seq<Element>, t: Tuple, n: int, j: int)
    requires p.Ok() && Roomy(p, sl) && IsBucket(p.k, n, t) && p.Df() <= LevelWidth(p.k, n) && 0 <= j < p.Df()
    ensures Piece(p, sl, t, n, j).Keys !! Grow(p, sl, t, n, j + 1).Keys
  {
    hide HasLevel, LevelWidth, Pow2, IsBucket, Bucket, Child, Within, Roomy;
    PieceInside(p, sl, t, n, j);
    if j + 1 < p.Df() {
      GrowInside(p, sl, t, n, j + 1);
      NextPiece(p.k, n, t, j);
    }
  }

  // ---- what the new nodes say ---------------------------------------------------------------------

  /** A new node is counted and hashed exactly, hangs under `t` or under a new divided node,
      and has its children among the new nodes if it is divided. */
  ghost predicate Grown(p: Params, sl: seq<Element>, G: Nodes, t: Tuple, n: int, c: Tuple)
    requires p.Ok() && c in G
  {
    && IsBucket(p.k, G[c].level, c)
    && GrownHangs(p, G, t, n, c)
    && (G[c].divided ==> p.Df() <= LevelWidth(p.k, G[c].level) && ChildrenIn(p, G, c, G[c].level, 0))
    && G[c].count == |Within(p.xx, sl, c)| && G[c].hash == ElementsHash(Within(p.xx, sl, c))
    && G[c].divided == (G[c].count > p.threshold)
  }

  ghost predicate GrownHangs(p: Params, G: Nodes, t: Tuple, n: int, c: Tuple)
    requires c in G && IsBucket(p.k, G[c].level, c)
  {
    && 1 <= G[c].level && HasLevel(p.k, G[c].level - 1)
    && var u := Bucket(p.k, G[c].level - 1, c.from);
    && G[c].parent == Some(u)
    && ((u == t && G[c].level == n + 1) || (u in G && G[u].divided && G[u].level == G[c].level - 1))
  }

  ghost predicate ChildrenIn(p: Params, G: Nodes, t: Tuple, n: int, j: int)
    requires p.Ok() && 0 <= j
  {
    forall i | j <= i < p.Df() :: Child(t, p.Df(), i) in G && G[Child(t, p.Df(), i)].level == n + 1
  }

  /** Being Grown survives embedding the nodes in a larger map. */
  lemma GrownLift(p: Params, sl: seq<Element>, A: Nodes, a: Tuple, m: int, G: Nodes, t: Tuple, n: int, c: Tuple)
    requires p.Ok() && c in A && Grown(p, sl, A, a, m, c)
    requires forall d | d in A :: d in G && G[d] == A[d]
    requires (a == t && m == n) || (a in G && G[a].divided && G[a].level == m)
    ensures c in G && Grown(p, sl, G, t, n, c)
  {
    hide HasLevel, LevelWidth, Pow2, IsBucket, Bucket, Child, Within;
  }

  lemma {:induction false} GrowGrown(p: Params, sl: seq<Element>, t: Tuple, n: int, j: int)
    requires p.Ok() && Roomy(p, sl) && IsBucket(p.k, n, t) && p.Df() <= LevelWidth(p.k, n) && 0 <= j <= p.Df()
    ensures var G := Grow(p, sl, t, n, j);
            ChildrenIn(p, G, t, n, j) && forall c | c in G :: Grown(p, sl, G, t, n, c)
    decreases 65 - n, p.Df() - j
  {
    hide HasLevel, LevelWidth, Pow2, IsBucket, Bucket, Child, Within, Roomy, Grown;
    if j < p.Df() {
      var G, A, B := Grow(p, sl, t, n, j), Piece(p, sl, t, n, j), Grow(p, sl, t, n, j + 1);
      PiecesDisjoint(p, sl, t, n, j);
      PieceInside(p, sl, t, n, j);
      PieceGrown(p, sl, t, n, j);
      GrowGrown(p, sl, t, n, j + 1);
      forall c | c in G
        ensures Grown(p, sl, G, t, n, c)
      {
        if c in A {
          GrownLift(p, sl, A, t, n, G, t, n, c);
        } else {
          GrownLift(p, sl, B, t, n, G, t, n, c);
        }
      }
    }
  }

  lemma {:induction false} PieceGrown(p: Params, sl: seq<Element>, t: Tuple, n: int, j: int)
    requires p.Ok() && Roomy(p, sl) && IsBucket(p.k, n, t) && p.Df() <= LevelWidth(p.k, n) && 0 <= j < p.Df()
    ensures var G := Piece(p, sl, t, n, j);
            forall c | c in G :: Grown(p, sl, G, t, n, c)
    decreases 65 - n, p.Df() - j, 0
  {
    hide HasLevel, LevelWidth, Pow2, IsBucket, Bucket, Child, Within, Roomy, Grown;
    var G := Piece(p, sl, t, n, j);
    var c0 := Child(t, p.Df(), j);
    PieceInside(p, sl, t, n, j);
    BucketProper(p.k, n + 1, c0);
    BucketProper(p.k, n, t);
    if G[c0].divided {
      OverIsWide(p, sl, n + 1, c0);
      var A := Grow(p, sl, c0, n + 1, 0);
      GrowInside(p, sl, c0, n + 1, 0);
      GrowGrown(p, sl, c0, n + 1, 0);
      assert forall d | d in A :: d in G && G[d] == A[d];
      forall c | c in A
        ensures Grown(p, sl, G, t, n, c)
      {
        GrownLift(p, sl, A, c0, n + 1, G, t, n, c);
      }
    }
    FirstNodeGrown(p, sl, G, t, n, c0);
  }

  lemma FirstNodeGrown(p: Params, sl: seq<Element>, G: Nodes, t: Tuple, n: int, c: Tuple)
    requires p.Ok() && c in G && G[c] == Fresh(p, sl, t, c, n + 1)
    requires IsBucket(p.k, n, t) && IsBucket(p.k, n + 1, c) && Sub(c, t)
    requires G[c].divided ==> p.Df() <= LevelWidth(p.k, n + 1) && ChildrenIn(p, G, c, n + 1, 0)
    ensures Grown(p, sl, G, t, n, c)
  {
    hide LevelWidth, Pow2, Child, Within;
    BucketProper(p.k, n, t);
    BucketUnique(p.k, n, t, c.from);
  }

  // ---- what is dirty afterwards ---------------------------------------------------------------------

  /** Whatever was dirty still has something dirty inside it. */
  ghost predicate Refines(dirty: set<Tuple>, dirty': set<Tuple>) {
    forall d | d in dirty :: !Clean(dirty', d)
  }

  lemma RefinesKeepsUnclean(dirty: set<Tuple>, dirty': set<Tuple>, t: Tuple)
    requires Refines(dirty, dirty') && !Clean(dirty, t)
    ensures !Clean(dirty', t)
  {
    var d :| d in dirty && Sub(d, t);
    var d' :| d' in dirty' && Sub(d', d);
    assert Sub(d', t);
  }

  /** All dirty marks are proper ranges, the old ones or on new nodes; divided new nodes have
      a dirty mark inside. */
  ghost predicate Marked(G: Nodes, dirty: set<Tuple>, dirty': set<Tuple>) {
    && Refines(dirty, dirty')
    && (forall d | d in dirty' :: d.from <= d.to && (d in dirty || d in G))
    && (forall c | c in G && G[c].divided :: !Clean(dirty', c))
  }

  lemma {:induction false} GrowMarked(p: Params, sl: seq<Element>, t: Tuple, n: int, j: int, dirty: set<Tuple>)
    requires p.Ok() && Roomy(p, sl) && IsBucket(p.k, n, t) && p.Df() <= LevelWidth(p.k, n) && 0 <= j <= p.Df()
    requires forall d | d in dirty :: d.from <= d.to
    ensures Marked(Grow(p, sl, t, n, j), dirty, GrowDirty(p, sl, t, n, j, dirty))
    decreases 65 - n, p.Df() - j
  {
    hide HasLevel, LevelWidth, Pow2, IsBucket, Bucket, Child, Within, Roomy, Marked;
    if j == p.Df() {
      NothingMarked(dirty);
    } else {
      var A, B := Piece(p, sl, t, n, j), Grow(p, sl, t, n, j + 1);
      var mid := PieceDirty(p, sl, t, n, j, dirty);
      var end := GrowDirty(p, sl, t, n, j, dirty);
      PieceMarked(p, sl, t, n, j, dirty);
      MarkedProper(A, dirty, mid);
      GrowMarked(p, sl, t, n, j + 1, mid);
      PiecesDisjoint(p, sl, t, n, j);
      MarkedChain(A, B, dirty, mid, end);
    }
  }

  lemma SelfRefines(dirty: set<Tuple>)
    requires forall d | d in dirty :: d.from <= d.to
    ensures Refines(dirty, dirty)
  {
    forall d | d in dirty
      ensures !Clean(dirty, d)
    {
      assert Sub(d, d);
    }
  }

  lemma MarkedProper(G: Nodes, dirty: set<Tuple>, dirty': set<Tuple>)
    requires Marked(G, dirty, dirty')
    ensures forall d | d in dirty' :: d.from <= d.to
  {
  }

  lemma NothingMarked(dirty: set<Tuple>)
    requires forall d | d in dirty :: d.from <= d.to
    ensures Marked(map[], dirty, dirty)
  {
    SelfRefines(dirty);
  }

  lemma MarkedChain(A: Nodes, B: Nodes, dirty: set<Tuple>, mid: set<Tuple>, end: set<Tuple>)
    requires A.Keys !! B.Keys && Marked(A, dirty, mid) && Marked(B, mid, end)
    ensures Marked(A + B, dirty, end)
  {
    forall d | d in dirty
      ensures !Clean(end, d)
    {
      RefinesKeepsUnclean(mid, end, d);
    }
    forall c | c in A && A[c].divided
      ensures !Clean(end, c)
    {
      RefinesKeepsUnclean(mid, end, c);
    }
  }

  lemma {:induction false} PieceMarked(p: Params, sl: seq<Element>, t: Tuple, n: int, j: int, dirty: set<Tuple>)
    requires p.Ok() && Roomy(p, sl) && IsBucket(p.k, n, t) && p.Df() <= LevelWidth(p.k, n) && 0 <= j < p.Df()
    requires forall d | d in dirty :: d.from <= d.to
    ensures Marked(Piece(p, sl, t, n, j), dirty, PieceDirty(p, sl, t, n, j, dirty))
    decreases 65 - n, p.Df() - j, 0
  {
    hide HasLevel, LevelWidth, Pow2, IsBucket, Bucket, Child, Within, Roomy, Marked;
    var G := Piece(p, sl, t, n, j);
    var c0 := Child(t, p.Df(), j);
    PieceInside(p, sl, t, n, j);
    BucketProper(p.k, n, t);
    BucketProper(p.k, n + 1, c0);
    if G[c0].divided {
      OverIsWide(p, sl, n + 1, c0);
      var A := Grow(p, sl, c0, n + 1, 0);
      var mid := dirty - {t} + {c0};
      var end := GrowDirty(p, sl, c0, n + 1, 0, mid);
      GrowMarked(p, sl, c0, n + 1, 0, mid);
      GrowInside(p, sl, c0, n + 1, 0);
      assert G == map[c0 := G[c0]] + A;
      MoveMark(dirty, t, c0);
      FirstMarked(A, G, c0, dirty, mid, end);
    } else {
      assert G == map[c0 := G[c0]];
      LeafMarked(G, dirty);
    }
  }

  lemma LeafMarked(G: Nodes, dirty: set<Tuple>)
    requires (forall d | d in dirty :: d.from <= d.to) && forall c | c in G :: !G[c].divided
    ensures Marked(G, dirty, dirty)
  {
    SelfRefines(dirty);
  }

  lemma FirstMarked(A: Nodes, G: Nodes, c0: Tuple, dirty: set<Tuple>, mid: set<Tuple>, end: set<Tuple>)
    requires c0 in G && G == map[c0 := G[c0]] + A && c0 !in A && c0 in mid
    requires mid <= dirty + {c0} && Refines(dirty, mid) && Marked(A, mid, end)
    ensures Marked(G, dirty, end)
  {
    forall d | d in dirty
      ensures !Clean(end, d)
    {
      RefinesKeepsUnclean(mid, end, d);
    }
  }

  lemma MoveMark(dirty: set<Tuple>, t: Tuple, c: Tuple)
    requires Sub(c, t) && forall d | d in dirty :: d.from <= d.to
    ensures Refines(dirty, dirty - {t} + {c})
  {
    forall d | d in dirty
      ensures !Clean(dirty - {t} + {c}, d)
    {
      assert d != t ==> Sub(d, d);
      assert c in dirty - {t} + {c};
    }
  }
}
