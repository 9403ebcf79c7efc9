/** The range tree of `app/ldiff/hashrange.go` as values: nodes keyed by their tuple, what each
    node must say about the container, and what dividing a range adds.

    blake3 is the ideal hash of a symbolic model: a digest is the term that was hashed, so equal
    digests have equal arguments and an element digest is never a digest of digests. */
module Tree {
  import opened Options
  import opened Geometry
  import opened Buckets
  import opened Elements

  datatype Digest = OfElements(elements: seq<Element>) | OfDigests(parts: seq<Digest>)

  /** hashRange; the parent pointer is the parent's key. */
  datatype Node = Node(parent: Option<Tuple>, divided: bool, count: int, level: int, hash: Option<Digest>)

  type Nodes = map<Tuple, Node>

  /** Divide factor 2^k; `threshold` is compareThreshold. */
  datatype Params = Params(xx: Hasher, k: nat, threshold: nat) {
    ghost predicate Ok() { 1 <= k <= 62 && 1 <= threshold }

    function Df(): (df: nat)
      requires 1 <= k
      ensures df == Pow2(k) && 2 <= df
    {
      FactorAtLeastTwo(k);
      Pow2(k)
    }
  }

  // ---- digests and what they stand for --------------------------------------------------------

  /** All elements a digest was computed from, in order. */
  function Flatten(d: Digest): seq<Element>
    decreases d, 1
  {
    match d
    case OfElements(es) => es
    case OfDigests(parts) => FlattenAll(parts)
  }

  function FlattenAll(parts: seq<Digest>): seq<Element>
    decreases parts, 0
  {
    if parts == [] then [] else Flatten(parts[0]) + FlattenAll(parts[1..])
  }

  function FlattenHash(h: Option<Digest>): seq<Element> {
    match h
    case None => []
    case Some(d) => Flatten(d)
  }

  /** calcElementsHash: no digest for an empty range. */
  function ElementsHash(es: seq<Element>): Option<Digest> {
    if es == [] then None else Some(OfElements(es))
  }

  /** The bytes calcDividedHash writes: children without a hash contribute none. */
  function Gather(nodes: Nodes, ts: seq<Tuple>): seq<Digest>
    requires forall t | t in ts :: t in nodes
  {
    if ts == [] then []
    else
      (match nodes[ts[0]].hash case None => [] case Some(d) => [d]) + Gather(nodes, ts[1..])
  }

  lemma {:induction false} FlattenGather(nodes: Nodes, ts: seq<Tuple>)
    requires ts != [] && forall t | t in ts :: t in nodes
    ensures FlattenAll(Gather(nodes, ts)) ==
            FlattenHash(nodes[ts[0]].hash) + FlattenAll(Gather(nodes, ts[1..]))
  {
    match nodes[ts[0]].hash
    case None =>
      assert Gather(nodes, ts) == Gather(nodes, ts[1..]);
    case Some(d) =>
      assert Gather(nodes, ts)[1..] == Gather(nodes, ts[1..]);
  }

  lemma {:induction false} GatherSame(a: Nodes, b: Nodes, ts: seq<Tuple>)
    requires forall t | t in ts :: t in a && t in b && a[t].hash == b[t].hash
    ensures Gather(a, ts) == Gather(b, ts)
  {
    if ts != [] {
      GatherSame(a, b, ts[1..]);
    }
  }

  // ---- what a node must say -------------------------------------------------------------------

  ghost predicate HasChildren(p: Params, nodes: Nodes, t: Tuple)
    requires p.Ok()
  {
    forall c | c in Children(t, p.Df()) :: c in nodes
  }

  /** The node's hash and count are what a recalculation would write. */
  ghost predicate Exact(p: Params, sl: seq<Element>, nodes: Nodes, t: Tuple)
    requires p.Ok() && t in nodes
  {
    if nodes[t].divided then
      HasChildren(p, nodes, t) && nodes[t].hash == Some(OfDigests(Gather(nodes, Children(t, p.Df()))))
    else
      nodes[t].count == |Within(p.xx, sl, t)| && nodes[t].hash == ElementsHash(Within(p.xx, sl, t))
  }

  /** A reachable node: a bucket of its level, hanging under the divided node around it. */
  ghost predicate Placed(p: Params, nodes: Nodes, live: set<Tuple>, t: Tuple)
    requires p.Ok() && live <= nodes.Keys && t in live
  {
    && IsBucket(p.k, nodes[t].level, t)
    && (t == Top || Hangs(p, nodes, live, t))
    && (nodes[t].divided ==> Divided(p, nodes, live, t))
  }

  ghost predicate Hangs(p: Params, nodes: Nodes, live: set<Tuple>, t: Tuple)
    requires p.Ok() && live <= nodes.Keys && t in live && IsBucket(p.k, nodes[t].level, t)
  {
    && 1 <= nodes[t].level && HasLevel(p.k, nodes[t].level - 1)
    && var u := Bucket(p.k, nodes[t].level - 1, t.from);
    && nodes[t].parent == Some(u) && u in live
    && nodes[u].divided && nodes[u].level == nodes[t].level - 1
  }

  ghost predicate Divided(p: Params, nodes: Nodes, live: set<Tuple>, t: Tuple)
    requires p.Ok() && live <= nodes.Keys && t in live && IsBucket(p.k, nodes[t].level, t)
  {
    && p.Df() <= LevelWidth(p.k, nodes[t].level)
    && forall j | 0 <= j < p.Df() ::
         Child(t, p.Df(), j) in live && nodes[Child(t, p.Df(), j)].level == nodes[t].level + 1
  }

  /** The reachable ranges form a tree: `live` is what following children from the top reaches. */
  ghost predicate Shape(p: Params, nodes: Nodes, live: set<Tuple>) {
    && p.Ok()
    && live <= nodes.Keys
    && Top in live && nodes[Top].divided && nodes[Top].level == 0 && nodes[Top].parent == None
    && forall t | t in live :: Placed(p, nodes, live, t)
  }

  /** No dirty range inside `t`, `t` included. */
  ghost predicate Clean(dirty: set<Tuple>, t: Tuple) {
    forall d | d in dirty :: !Sub(d, t)
  }

  ghost predicate Settled(p: Params, sl: seq<Element>, nodes: Nodes, live: set<Tuple>, dirty: set<Tuple>)
    requires p.Ok() && live <= nodes.Keys
  {
    forall t | t in live && Clean(dirty, t) :: Exact(p, sl, nodes, t)
  }

  /** A count never undercounts, and a leaf never exceeds the threshold. */
  ghost predicate Counted(p: Params, sl: seq<Element>, nodes: Nodes, live: set<Tuple>)
    requires live <= nodes.Keys
  {
    forall t | t in live ::
      |Within(p.xx, sl, t)| <= nodes[t].count && (!nodes[t].divided ==> nodes[t].count <= p.threshold)
  }

  /** No range too narrow to be divided holds more than `threshold` elements. */
  ghost predicate Roomy(p: Params, sl: seq<Element>)
    requires p.Ok()
  {
    forall n: int, x: u64 {:trigger Bucket(p.k, n, x)} | HasLevel(p.k, n) && LevelWidth(p.k, n) < p.Df() ::
      |Within(p.xx, sl, Bucket(p.k, n, x))| <= p.threshold
  }

  // ---- facts about the shape ------------------------------------------------------------------

  lemma InChildren(t: Tuple, df: int, c: Tuple)
    requires 2 <= df
    ensures c in Children(t, df) <==> exists j :: 0 <= j < df && c == Child(t, df, j)
  {
    if c in Children(t, df) {
      var j :| 0 <= j < df && Children(t, df)[j] == c;
    }
    if j :| 0 <= j < df && c == Child(t, df, j) {
      assert Children(t, df)[j] == c;
    }
  }

  /** A live range strictly inside another live range has a divided one around it: nothing live
      lies inside a leaf. */
  lemma {:induction false} InsideLeaf(p: Params, nodes: Nodes, live: set<Tuple>, r: Tuple, t: Tuple)
    requires Shape(p, nodes, live) && r in live && t in live && Sub(t, r) && t != r
    ensures nodes[r].divided
    decreases nodes[t].level
  {
    hide HasLevel, LevelWidth, Pow2, IsBucket, Bucket;
    assert Placed(p, nodes, live, t) && Placed(p, nodes, live, r);
    StrictlyInside(p.k, nodes[r].level, r, nodes[t].level, t);
    assert t != Top;
    assert Hangs(p, nodes, live, t);
    var u := Bucket(p.k, nodes[t].level - 1, t.from);
    if u != r {
      InsideLeaf(p, nodes, live, r, u);
    }
  }

  /** Live ranges around one hash are nested, so a leaf is the deepest of them. */
  lemma LeafIsDeepest(p: Params, nodes: Nodes, live: set<Tuple>, r: Tuple, t: Tuple, x: u64)
    requires Shape(p, nodes, live) && r in live && t in live && In(r, x) && In(t, x)
    requires !nodes[r].divided
    ensures Sub(r, t) && nodes[t].level <= nodes[r].level
    ensures nodes[t].level == nodes[r].level ==> t == r
  {
    hide HasLevel, LevelWidth, Pow2, IsBucket, Bucket;
    assert Placed(p, nodes, live, t) && Placed(p, nodes, live, r);
    var m, n := nodes[t].level, nodes[r].level;
    BucketProper(p.k, m, t);
    BucketProper(p.k, n, r);
    BucketUnique(p.k, m, t, x);
    BucketUnique(p.k, n, r, x);
    if m > n {
      BucketNest(p.k, n, m, x);
      InsideLeaf(p, nodes, live, r, t);
      assert false;
    }
    BucketNest(p.k, m, n, x);
  }

  /** The child getBottomRange descends to is live. */
  lemma Descend(p: Params, nodes: Nodes, live: set<Tuple>, t: Tuple, x: u64)
    requires Shape(p, nodes, live) && t in live && nodes[t].divided && In(t, x)
    ensures 2 <= p.Df() <= Width(t) && HasLevel(p.k, nodes[t].level + 1)
    ensures var c := Bucket(p.k, nodes[t].level + 1, x);
            c == BottomTuple(t, p.Df(), x) && c in live && In(c, x) && nodes[c].level == nodes[t].level + 1
  {
    hide HasLevel, LevelWidth, Pow2, IsBucket, Bucket, Child, BottomTuple, Width;
    assert Placed(p, nodes, live, t);
    var j := BottomIsBucket(p.k, nodes[t].level, t, x);
  }

  /** Around a live range, the next wider live range is its parent. */
  lemma AroundIsAroundParent(p: Params, nodes: Nodes, live: set<Tuple>, d: Tuple, t: Tuple)
    requires Shape(p, nodes, live) && d in live && t in live && Sub(d, t) && d != t
    ensures d != Top && nodes[d].parent.Some? && nodes[d].parent.value in live && Sub(nodes[d].parent.value, t)
    ensures nodes[nodes[d].parent.value].level == nodes[d].level - 1
  {
    hide HasLevel, LevelWidth, Pow2, IsBucket, Bucket;
    assert Placed(p, nodes, live, d) && Placed(p, nodes, live, t);
    StrictlyInside(p.k, nodes[t].level, t, nodes[d].level, d);
    assert d != Top;
    assert Hangs(p, nodes, live, d);
  }

  lemma LiveIsProper(p: Params, nodes: Nodes, live: set<Tuple>, t: Tuple)
    requires Shape(p, nodes, live) && t in live
    ensures t.from <= t.to && 0 <= nodes[t].level <= 64
  {
    assert Placed(p, nodes, live, t);
    BucketProper(p.k, nodes[t].level, t);
  }

  // ---- equal digests, equal elements ------------------------------------------------------------

  /** The elements of a bucket are those of its pieces from piece j on, one after the other. */
  lemma {:induction false} PiecesFlatten(p: Params, sl: seq<Element>, nodes: Nodes, n: int, t: Tuple, j: int)
    requires p.Ok() && Ordered(p.xx, sl) && IsBucket(p.k, n, t) && p.Df() <= LevelWidth(p.k, n)
    requires 0 <= j < p.Df()
    requires forall i | j <= i < p.Df() ::
               Child(t, p.Df(), i) in nodes &&
               FlattenHash(nodes[Child(t, p.Df(), i)].hash) == Within(p.xx, sl, Child(t, p.Df(), i))
    ensures forall c | c in Children(t, p.Df())[j..] :: c in nodes
    ensures var c := Child(t, p.Df(), j);
            c.from <= t.to &&
            FlattenAll(Gather(nodes, Children(t, p.Df())[j..])) == Within(p.xx, sl, Tuple(c.from, t.to))
    decreases p.Df() - j
  {
    hide HasLevel, LevelWidth, Pow2;
    var df := p.Df();
    var ts := Children(t, df);
    var c := Child(t, df, j);
    ChildIsBucket(p.k, n, t, j);
    forall d | d in ts[j..]
      ensures d in nodes
    {
      var i :| 0 <= i < |ts[j..]| && ts[j..][i] == d;
      assert d == Child(t, df, j + i);
    }
    FlattenGather(nodes, ts[j..]);
    assert ts[j..][0] == c && ts[j..][1..] == ts[j + 1..];
    if j == df - 1 {
      assert c.to == t.to by { WideEnough(p.k, n); }
    } else {
      PiecesFlatten(p, sl, nodes, n, t, j + 1);
      var d := Child(t, df, j + 1);
      assert d.from == c.to + 1 && d.from <= t.to by { ChildIsBucket(p.k, n, t, j + 1); }
      WithinSplit(p.xx, sl, c, Tuple(d.from, t.to), Tuple(c.from, t.to));
    }
  }

  /** When nothing is dirty every reachable hash was computed from exactly the elements in its
      range, whatever way the tree below it is divided. */
  lemma {:induction false} HashIsContent(p: Params, sl: seq<Element>, nodes: Nodes, live: set<Tuple>, t: Tuple)
    requires Shape(p, nodes, live) && Settled(p, sl, nodes, live, {}) && Ordered(p.xx, sl) && t in live
    ensures FlattenHash(nodes[t].hash) == Within(p.xx, sl, t)
    ensures nodes[t].hash == None ==> !nodes[t].divided
    decreases 65 - nodes[t].level
  {
    hide HasLevel, LevelWidth, Pow2;
    LiveIsProper(p, nodes, live, t);
    assert Placed(p, nodes, live, t);
    assert Clean({}, t);
    assert Exact(p, sl, nodes, t);
    if nodes[t].divided {
      var df := p.Df();
      forall i | 0 <= i < df
        ensures Child(t, df, i) in nodes
        ensures FlattenHash(nodes[Child(t, df, i)].hash) == Within(p.xx, sl, Child(t, df, i))
      {
        HashIsContent(p, sl, nodes, live, Child(t, df, i));
      }
      PiecesFlatten(p, sl, nodes, nodes[t].level, t, 0);
      ChildIsBucket(p.k, nodes[t].level, t, 0);
      assert Children(t, df)[0..] == Children(t, df);
    }
  }

  /** Equal hashes of two containers' ranges, neither of them nil, mean equal elements there. */
  lemma EqualHashEqualElements(p: Params, slA: seq<Element>, a: Nodes, liveA: set<Tuple>,
                               slB: seq<Element>, b: Nodes, liveB: set<Tuple>, t: Tuple)
    requires Shape(p, a, liveA) && Settled(p, slA, a, liveA, {}) && Ordered(p.xx, slA) && t in liveA
    requires Shape(p, b, liveB) && Settled(p, slB, b, liveB, {}) && Ordered(p.xx, slB) && t in liveB
    requires a[t].hash == b[t].hash
    ensures Within(p.xx, slA, t) == Within(p.xx, slB, t)
  {
    HashIsContent(p, slA, a, liveA, t);
    HashIsContent(p, slB, b, liveB, t);
  }
}
