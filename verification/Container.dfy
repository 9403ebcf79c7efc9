/** `app/ldiff/diff.go` and its hashRanges: the mutable container.  The range map and the dirty
    set are fields the methods reassign, as the source mutates them. */
module Container {
  import opened Options
  import opened Geometry
  import opened Buckets
  import opened Elements
  import opened Tree
  import opened Growth
  import opened Updates
  import opened Batches
  import opened Fitting
  import opened Canonical
  import opened Protocol
  import opened Rounds

  /** The exponent of the divide factor, which newDiff raises to 2. */
  method Exponent(divideFactor: int) returns (k: nat)
    requires divideFactor < 2 || exists k: nat :: 1 <= k <= 62 && divideFactor == Pow2(k)
    ensures 1 <= k <= 62 && Pow2(k) == (if divideFactor < 2 then 2 else divideFactor)
  {
    assert Pow2(1) == 2;
    var df := if divideFactor < 2 then 2 else divideFactor;
    ghost var e: nat :| 1 <= e <= 62 && df == Pow2(e);
    k := 1;
    var power := 2;
    while power < df
      invariant 1 <= k <= e && power == Pow2(k)
      decreases e - k
    {
      if k == e {
        assert false;
      }
      k := k + 1;
      power := 2 * power;
    }
    if k < e {
      Pow2Divides(e, k);
      assert false;
    }
  }

  method BuildMap(es: seq<Element>) returns (m: map<string, string>)
    ensures m == ToMap(es)
  {
    m := map[];
    var i := 0;
    while i < |es|
      invariant 0 <= i <= |es| && m == ToMap(es[..i])
    {
      m := m[es[i].id := es[i].head];
      assert es[..i + 1][..i] == es[..i];
      i := i + 1;
    }
    assert es[..i] == es;
  }

  lemma SelectStep(mode: Mode, my: seq<Element>, other: map<string, string>, kind: Kind, i: nat)
    requires i < |my|
    ensures Select(mode, my[..i + 1], other, kind) ==
            Select(mode, my[..i], other, kind) + if Classify(mode, my[i], other) == kind then [my[i].id] else []
  {
    hide Classify;
    assert my[..i + 1][..i] == my[..i];
  }

  lemma MissingStep(es: seq<Element>, other: map<string, string>, i: nat)
    requires i < |es|
    ensures Missing(es[..i + 1], other) == Missing(es[..i], other) + if es[i].id in other then [] else [es[i].id]
  {
    assert es[..i + 1][..i] == es[..i];
  }

  lemma NothingSelected(mode: Mode, other: map<string, string>)
    ensures Missing([], other) == [] && forall kind :: Select(mode, [], other, kind) == []
  {
  }

  method CompareElementsEqual(my: seq<Element>, other: seq<Element>, out: Outcome) returns (out': Outcome)
    ensures out' == Compared(Equal, my, other, out)
  {
    hide Select, Missing, ToMap;
    out' := out;
    var otherMap := BuildMap(other);
    NothingSelected(Equal, otherMap);
    var i := 0;
    while i < |my|
      invariant 0 <= i <= |my|
      invariant out' == out.(removedIds := out.removedIds + Select(Equal, my[..i], otherMap, Removed),
                             changedIds := out.changedIds + Select(Equal, my[..i], otherMap, Changed))
    {
      var el := my[i];
      SelectStep(Equal, my, otherMap, Removed, i);
      SelectStep(Equal, my, otherMap, Changed, i);
      if el.id !in otherMap {
        out' := out'.(removedIds := out'.removedIds + [el.id]);
      } else if otherMap[el.id] != el.head {
        out' := out'.(changedIds := out'.changedIds + [el.id]);
      }
      i := i + 1;
    }
    assert my[..i] == my;
    EqualHasNoTheirs(my, otherMap);
    var myMap := BuildMap(my);
    var newIds := MissingIds(other, myMap, out'.newIds);
    out' := out'.(newIds := newIds);
  }

  /** The second loop: the ids the other list has beyond ours. */
  method MissingIds(other: seq<Element>, myMap: map<string, string>, newIds: seq<string>) returns (ids: seq<string>)
    ensures ids == newIds + Missing(other, myMap)
  {
    hide Missing;
    NothingSelected(Equal, myMap);
    ids := newIds;
    var i := 0;
    while i < |other|
      invariant 0 <= i <= |other| && ids == newIds + Missing(other[..i], myMap)
    {
      MissingStep(other, myMap, i);
      if other[i].id !in myMap {
        ids := ids + [other[i].id];
      }
      i := i + 1;
    }
    assert other[..i] == other;
  }

  lemma {:induction false} EqualHasNoTheirs(my: seq<Element>, other: map<string, string>)
    ensures Select(Equal, my, other, TheirChanged) == []
  {
    if my != [] {
      EqualHasNoTheirs(my[..|my| - 1], other);
    }
  }

  /** The linear search of compareElementsGreater. */
  method FindIn(list: seq<Element>, id: string) returns (has: bool, head: string)
    requires DistinctIds(list)
    ensures has == (id in ToMap(list))
    ensures has ==> head == ToMap(list)[id]
  {
    hide ToMap;
    ToMapMeans(list);
    head := "";
    var i := 0;
    while i < |list|
      invariant 0 <= i <= |list| && forall m | 0 <= m < i :: list[m].id != id
    {
      if list[i].id == id {
        assert Element(id, list[i].head) in list;
        return true, list[i].head;
      }
      i := i + 1;
    }
    NotInMap(list, id);
    has := false;
  }

  lemma {:induction false} NotInMap(list: seq<Element>, id: string)
    requires forall m | 0 <= m < |list| :: list[m].id != id
    ensures id !in ToMap(list)
  {
    if list != [] {
      NotInMap(list[..|list| - 1], id);
    }
  }

  method CompareElementsGreater(my: seq<Element>, other: seq<Element>, out: Outcome) returns (out': Outcome)
    requires DistinctIds(my) && DistinctIds(other)
    ensures out' == Compared(Greater, my, other, out)
  {
    hide ToMap, StringLess, Select, Missing;
    ghost var m := ToMap(other);
    NothingSelected(Greater, m);
    out' := out;
    var i := 0;
    while i < |my|
      invariant 0 <= i <= |my|
      invariant out' == out.(removedIds := out.removedIds + Select(Greater, my[..i], m, Removed),
                             changedIds := out.changedIds + Select(Greater, my[..i], m, Changed),
                             theirChangedIds := out.theirChangedIds + Select(Greater, my[..i], m, TheirChanged))
    {
      var el := my[i];
      SelectStep(Greater, my, m, Removed, i);
      SelectStep(Greater, my, m, Changed, i);
      SelectStep(Greater, my, m, TheirChanged, i);
      var has, head := FindIn(other, el.id);
      if !has {
        out' := out'.(removedIds := out'.removedIds + [el.id]);
      } else if head != el.head {
        if StringLess(el.head, head) {
          out' := out'.(theirChangedIds := out'.theirChangedIds + [el.id]);
        } else {
          out' := out'.(changedIds := out'.changedIds + [el.id]);
        }
      }
      i := i + 1;
    }
    assert my[..i] == my;
    var newIds := AbsentIds(other, my, out'.newIds);
    out' := out'.(newIds := newIds);
  }

  /** Its second loop, which searches our list for every id of the other. */
  method AbsentIds(other: seq<Element>, my: seq<Element>, newIds: seq<string>) returns (ids: seq<string>)
    requires DistinctIds(my)
    ensures ids == newIds + Missing(other, ToMap(my))
  {
    hide Missing, ToMap;
    NothingSelected(Greater, ToMap(my));
    ids := newIds;
    var i := 0;
    while i < |other|
      invariant 0 <= i <= |other| && ids == newIds + Missing(other[..i], ToMap(my))
    {
      MissingStep(other, ToMap(my), i);
      var has, _ := FindIn(my, other[i].id);
      if !has {
        ids := ids + [other[i].id];
      }
      i := i + 1;
    }
    assert other[..i] == other;
  }

  lemma GatherStep(nodes: Nodes, ts: seq<Tuple>, i: nat)
    requires i < |ts| && forall t | t in ts :: t in nodes
    ensures Gather(nodes, ts[i..]) == (match nodes[ts[i]].hash case None => [] case Some(d) => [d]) + Gather(nodes, ts[i + 1..])
  {
    assert ts[i..][1..] == ts[i + 1..];
  }

  lemma GatherNothing(nodes: Nodes)
    ensures Gather(nodes, []) == []
  {
  }

  /** The range is still ahead of position i of the pass. */
  ghost predicate ToVisit(order: seq<Tuple>, i: nat, d: Tuple) {
    i <= |order| && d in order[i..]
  }

  lemma VisitFirst(order: seq<Tuple>)
    ensures forall d | d in order :: ToVisit(order, 0, d)
  {
    assert order[0..] == order;
  }

  lemma VisitNext(order: seq<Tuple>, i: nat)
    requires i < |order|
    ensures forall d :: ToVisit(order, i, d) <==> d == order[i] || ToVisit(order, i + 1, d)
  {
    assert order[i..] == [order[i]] + order[i + 1..];
  }

  lemma VisitedAll(order: seq<Tuple>)
    ensures forall d :: !ToVisit(order, |order|, d)
  {
  }

  /** Diff's result; Cancelled stands for ctx.Err(). */
  datatype DiffResult = Done(out: Outcome) | Cancelled

  class Diff {
    const p: Params
    var sl: seq<Element>
    var nodes: Nodes
    var dirty: set<Tuple>
    ghost var live: set<Tuple>

    /** Between operations: the tree is in shape and counted, every reachable hash is exact. */
    ghost predicate Valid()
      reads this
    {
      dirty == {} && Working(p, sl, nodes, live, {})
    }

    /** The map tracks no range that is not reachable from the top. */
    ghost predicate Tight()
      reads this
    {
      nodes.Keys == live
    }

    ghost function Seen(): View
      reads this
    {
      View(sl, nodes, live)
    }

    /** newDiff and newHashRanges.  Factors below 2 and thresholds below 1 are raised. */
    constructor (xx: Hasher, divideFactor: int, compareThreshold: int)
      requires divideFactor < 2 || exists k: nat :: 1 <= k <= 62 && divideFactor == Pow2(k)
      ensures Valid() && Tight() && sl == []
      ensures p.xx == xx && p.threshold == (if compareThreshold < 1 then 1 else compareThreshold)
      ensures p.Df() == (if divideFactor < 2 then 2 else divideFactor)
      ensures Crisp(p, sl, nodes, live)
    {
      hide Pow2, HasLevel, LevelWidth, IsBucket, Bucket, Child, Within, Roomy, Working, Crisp, Rewritten;
      var k := Exponent(divideFactor);
      var q := Params(xx, k, if compareThreshold < 1 then 1 else compareThreshold);
      p := q;
      sl := [];
      nodes := map[Top := Seed];
      live := {Top};
      dirty := {};
      new;
      EmptyIsRoomy(q);
      TopIsWide(q.k);
      MakeBottomRanges(Top);
      dirty := dirty + {Top};
      NewTreeWorks(q);
      NewTreeCrisp(q);
      ghost var nodes1 := nodes;
      RecalculateHashes();
      RewrittenKeeps(q, [], nodes1, nodes, live);
    }

    /** sl.Find(from) and the walk over el.Next() that getRange and calcElementsHash share. */
    method FindFrom(t: Tuple) returns (found: seq<Element>)
      requires Ordered(p.xx, sl)
      ensures found == Within(p.xx, sl, t)
    {
      var i := 0;
      while i < |sl| && p.xx(sl[i].id) < t.from
        invariant 0 <= i <= |sl| && Within(p.xx, sl[..i], t) == []
      {
        WithinSnoc(p.xx, sl, t, i);
        i := i + 1;
      }
      found := [];
      while i < |sl| && p.xx(sl[i].id) <= t.to
        invariant 0 <= i <= |sl| && Within(p.xx, sl[..i], t) == found
        invariant i < |sl| ==> t.from <= p.xx(sl[i].id)
      {
        WithinSnoc(p.xx, sl, t, i);
        found := found + [sl[i]];
        assert i + 1 < |sl| ==> Before(p.xx, sl[i].id, sl[i + 1].id);
        i := i + 1;
      }
      WithinPrefix(p.xx, sl, t, i);
    }

    /** calcElementsHash. */
    method CalcElementsHash(t: Tuple) returns (hash: Option<Digest>, els: int)
      requires Ordered(p.xx, sl)
      ensures hash == ElementsHash(Within(p.xx, sl, t)) && els == |Within(p.xx, sl, t)|
    {
      var found := FindFrom(t);
      hash := if found == [] then None else Some(OfElements(found));
      els := |found|;
    }

    /** calcDividedHash: the children's hashes, one after the other. */
    method CalcDividedHash(t: Tuple) returns (hash: Option<Digest>)
      requires p.Ok() && forall c | c in Children(t, p.Df()) :: c in nodes
      ensures hash == Some(OfDigests(Gather(nodes, Children(t, p.Df()))))
    {
      hide Pow2, Child, Gather;
      var ranges := GenTupleRanges(t.from, t.to, p.Df());
      assert ranges == Children(t, p.Df()) by { assert Tuple(t.from, t.to) == t; }
      var written: seq<Digest> := [];
      var i := 0;
      assert ranges[0..] == ranges;
      while i < |ranges|
        invariant 0 <= i <= |ranges|
        invariant written + Gather(nodes, ranges[i..]) == Gather(nodes, ranges)
      {
        GatherStep(nodes, ranges, i);
        match nodes[ranges[i]].hash {
          case None =>
          case Some(d) => written := written + [d];
        }
        i := i + 1;
      }
      assert ranges[i..] == [];
      GatherNothing(nodes);
      assert written + [] == written;
      hash := Some(OfDigests(written));
    }

    /** makeBottomRanges: new leaves, divided further while they hold too much. */
    method MakeBottomRanges(t: Tuple)
      requires p.Ok() && Roomy(p, sl) && Ordered(p.xx, sl) && t in nodes
      requires IsBucket(p.k, nodes[t].level, t) && p.Df() <= LevelWidth(p.k, nodes[t].level)
      modifies this`nodes, this`dirty, this`live
      ensures nodes == old(nodes) + Grow(p, sl, t, old(nodes[t].level), 0)
      ensures live == old(live) + Grow(p, sl, t, old(nodes[t].level), 0).Keys
      ensures dirty == GrowDirty(p, sl, t, old(nodes[t].level), 0, old(dirty))
      decreases 65 - nodes[t].level
    {
      hide Pow2, HasLevel, LevelWidth, IsBucket, Bucket, Child, Within, Roomy, Grow, Piece, GrowDirty, PieceDirty;
      var n := nodes[t].level;
      BucketProper(p.k, n, t);
      var ranges := GenTupleRanges(t.from, t.to, p.Df());
      var i := 0;
      while i < p.Df()
        invariant 0 <= i <= p.Df()
        invariant t in nodes && nodes[t].level == n
        invariant nodes + Grow(p, sl, t, n, i) == old(nodes) + Grow(p, sl, t, n, 0)
        invariant live + Grow(p, sl, t, n, i).Keys == old(live) + Grow(p, sl, t, n, 0).Keys
        invariant GrowDirty(p, sl, t, n, i, dirty) == GrowDirty(p, sl, t, n, 0, old(dirty))
      {
        GrowUnfold(p, sl, t, n, i, dirty);
        PieceInside(p, sl, t, n, i);
        MapAppend(nodes, Piece(p, sl, t, n, i), Grow(p, sl, t, n, i + 1));
        MakePiece(t, n, i, ranges[i]);
        i := i + 1;
      }
      GrowEnd(p, sl, t, n, dirty);
    }

    /** The body of makeBottomRanges' loop: one new range. */
    method MakePiece(t: Tuple, n: int, i: int, c: Tuple)
      requires p.Ok() && Roomy(p, sl) && Ordered(p.xx, sl) && 0 <= i < p.Df() && c == Child(t, p.Df(), i)
      requires IsBucket(p.k, n, t) && p.Df() <= LevelWidth(p.k, n)
      modifies this`nodes, this`dirty, this`live
      ensures nodes == old(nodes) + Piece(p, sl, t, n, i)
      ensures live == old(live) + Piece(p, sl, t, n, i).Keys
      ensures dirty == PieceDirty(p, sl, t, n, i, old(dirty))
      decreases 65 - n, 0
    {
      hide Pow2, HasLevel, LevelWidth, IsBucket, Bucket, Child, Within, Roomy, Grow, Piece, GrowDirty, PieceDirty;
      BucketProper(p.k, n, t);
      PieceUnfold(p, sl, t, n, i, dirty);
      BucketProper(p.k, n + 1, c);
      ghost var nodes0 := nodes;
      var hash, els := CalcElementsHash(c);
      nodes := nodes[c := Node(Some(t), els > p.threshold, els, n + 1, hash)];
      live := live + {c};
      if els > p.threshold {
        dirty := dirty - {t} + {c};
        MakeBottomRanges(c);
        MapExtend(nodes0, c, Fresh(p, sl, t, c, n + 1), Grow(p, sl, c, n + 1, 0));
      } else {
        MapExtend(nodes0, c, Fresh(p, sl, t, c, n + 1), map[]);
      }
    }

    /** The descent of addElement and removeElement: change the counts of the ranges around x. */
    method CountPath(x: u64, delta: int) returns (rng: Tuple)
      requires Shape(p, nodes, live) && (delta == 1 || delta == -1)
      modifies this`nodes
      ensures rng in live && In(rng, x) && !old(nodes[rng].divided)
      ensures nodes == Bumped(old(nodes), live, x, old(nodes[rng].level), delta)
    {
      hide Pow2, HasLevel, LevelWidth, IsBucket, Bucket, Child, Placed, Width, BottomTuple;
      ghost var nodes0 := nodes;
      TopHolds(p, nodes, live, x);
      rng := Top;
      nodes := nodes[rng := nodes[rng].(count := nodes[rng].count + delta)];
      while nodes[rng].divided
        invariant rng in live && In(rng, x)
        invariant nodes == Bumped(nodes0, live, x, nodes0[rng].level, delta)
        decreases 65 - nodes0[rng].level
      {
        Descend(p, nodes0, live, rng, x);
        LiveIsProper(p, nodes0, live, rng);
        ghost var n := nodes0[rng].level;
        rng := GetBottomTuple(rng, p.Df(), x);
        nodes := nodes[rng := nodes[rng].(count := nodes[rng].count + delta)];
        BumpedDeeper(p, nodes0, live, x, n, rng, delta);
      }
    }

    /** addElement for a hash the container has just taken in.  A leaf that overflows must be
        wide enough to be divided. */
    method AddElement(x: u64)
      requires Awaiting(p, sl, nodes, live, dirty, x) && StepFits(p, sl, nodes, live, x)
      modifies this`nodes, this`dirty, this`live
      ensures Working(p, sl, nodes, live, dirty)
      ensures nodes == AddedNodes(p, sl, old(nodes), old(live), x) && live == AddedLive(p, sl, old(nodes), old(live), x)
      ensures Sharp(p, sl, old(nodes), old(live), nodes, live, x)
      ensures old(Tight()) ==> Tight()
    {
      hide Pow2, HasLevel, LevelWidth, IsBucket, Bucket, Child, Within, Roomy, Placed, Exact, Working, LeavesAfter, Sharp, LeafAt;
      ghost var nodes0, live0, dirty0 := nodes, live, dirty;
      var rng := CountPath(x, 1);
      LeafIsUnique(p, nodes0, live0, x, rng);
      BumpedAll(p, nodes0, live0, x, rng, 1, rng);
      LeafFacts(p, nodes0, live0, rng);
      dirty := dirty + {rng};
      if nodes[rng].count > p.threshold {
        nodes := nodes[rng := nodes[rng].(divided := true)];
        MakeBottomRanges(rng);
        AddDividedStep(p, sl, nodes0, live0, dirty0, x, rng);
        GrowthIsNew(p, sl, nodes0, live0, rng);
        SharpDivided(p, sl, nodes0, live0, x, rng);
      } else {
        AddLeafStep(p, sl, nodes0, live0, dirty0, x, rng);
        SharpLeaf(p, sl, nodes0, live0, x, rng);
      }
      dirty := dirty - ParentMark(nodes[rng]);
    }

    /** The merge of removeElement: the children of `parent` leave the map and the dirty set. */
    method MergeChildren(parent: Tuple)
      requires p.Ok() && dirty == {} && parent in nodes && parent !in Children(parent, p.Df())
      modifies this`nodes, this`dirty, this`live
      ensures nodes == MergedAt(p, old(nodes), parent) && live == Outside(old(live), parent) && dirty == {parent}
    {
      hide Pow2, Child;
      var ranges := GenTupleRanges(parent.from, parent.to, p.Df());
      var i := 0;
      while i < |ranges|
        invariant 0 <= i <= |ranges| && dirty == {} && live == old(live)
        invariant nodes == old(nodes) - (set c | c in ranges[..i])
      {
        nodes := nodes - {ranges[i]};
        dirty := dirty - {ranges[i]};
        i := i + 1;
      }
      assert ranges[..|ranges|] == ranges == Children(parent, p.Df());
      assert (set c | c in ranges[..i]) == (set c | c in Children(parent, p.Df()));
      nodes := nodes[parent := nodes[parent].(divided := false)];
      live := Outside(live, parent);
      dirty := dirty + {parent};
      assert nodes == MergedAt(p, old(nodes), parent);
    }

    /** removeElement: the element `id` of `sl0` has just been taken out of the container.  Only
        the direct parent of the leaf is considered for merging. */
    method RemoveElement(x: u64, ghost sl0: seq<Element>, ghost id: string) returns (ghost leaf: Tuple, ghost around: Tuple)
      requires dirty == {} && Working(p, sl0, nodes, live, {}) && sl == Without(sl0, id) && Roomy(p, sl)
      requires x == p.xx(id) && exists e :: e in sl0 && e.id == id
      modifies this`nodes, this`dirty, this`live
      ensures Working(p, sl, nodes, live, dirty)
      ensures TakenOut(p, old(nodes), old(live), nodes, live, x, leaf, around)
      ensures Tally(p, sl0, old(nodes), old(live)) ==> Tally(p, sl, nodes, live)
      ensures old(Tight()) ==> (Tight() <==> !MergesDivided(p, old(nodes), old(live), x))
    {
      hide Pow2, HasLevel, LevelWidth, IsBucket, Bucket, Child, Within, Roomy, Placed, Exact, Working, MergesDivided, MergedAt, Outside,
           TakenOut, Tally;
      ghost var nodes0, live0 := nodes, live;
      WorkingShape(p, sl0, nodes0, live0, {});
      var rng := CountPath(x, -1);
      BumpedSameShape(nodes0, live0, x, nodes0[rng].level, -1);
      RemoveKeeps(p, sl0, id, nodes0, live0, rng);
      LeafFacts(p, nodes0, live0, rng);
      BumpedAll(p, nodes0, live0, x, rng, -1, rng);
      ghost var nodes1 := nodes;
      WorkingShape(p, sl, nodes1, live0, {rng});
      var parent := nodes[rng].parent.value;
      leaf, around := rng, parent;
      if Tally(p, sl0, nodes0, live0) {
        TallyBumped(p, sl0, id, nodes0, live0, rng);
      }
      BumpedAll(p, nodes0, live0, x, rng, -1, parent);
      MergesDividedMeans(p, nodes0, live0, x, rng);
      if nodes[parent].count <= p.threshold && parent != Top {
        ParentStays(p, nodes1, live0, parent);
        MergeChildren(parent);
        MergeKeeps(p, sl, nodes1, live0, rng, parent);
        TakenWithMerge(p, nodes0, live0, x, rng, parent);
        if Tally(p, sl, nodes1, live0) {
          TallyMerged(p, sl, nodes1, live0, parent);
        }
        if nodes0.Keys == live0 {
          MergeTightFor(p, nodes0, nodes1, live0, parent);
        }
      } else {
        dirty := dirty + {rng};
        assert dirty == {rng};
        assert !MergesInto(p, nodes0, parent);
        TakenWithoutMerge(p, nodes0, live0, x, rng, parent);
      }
    }

    static ghost predicate ByLevel(nodes: Nodes, order: seq<Tuple>) {
      forall i, j | 0 <= i < j < |order| :: order[i] in nodes && order[j] in nodes && nodes[order[i]].level <= nodes[order[j]].level
    }

    /** slices.SortFunc by level over the dirty ranges, in any order within a level. */
    method SortedByLevel() returns (order: seq<Tuple>)
      requires dirty <= nodes.Keys
      ensures forall d :: d in order <==> d in dirty
      ensures ByLevel(nodes, order)
    {
      order := [];
      var rest := dirty;
      while rest != {}
        invariant rest <= dirty
        invariant forall d :: d in dirty <==> d in rest || d in order
        invariant ByLevel(nodes, order)
        invariant forall d, e | d in order && e in rest :: d in nodes && nodes[d].level <= nodes[e].level
        decreases rest
      {
        LowestLevel(nodes, rest);
        var d :| d in rest && forall e | e in rest :: nodes[d].level <= nodes[e].level;
        order := order + [d];
        rest := rest - {d};
      }
    }

    /** recalculateHashes: process dirty ranges from the top down, each time passing the mark on
        to the parent.  Every pass lowers the deepest dirty level, so the loop ends. */
    method RecalculateHashes()
      requires Working(p, sl, nodes, live, dirty)
      modifies this`nodes, this`dirty
      ensures Valid() && nodes.Keys == old(nodes.Keys) && Rewritten(p, sl, old(nodes), nodes, live)
    {
      hide Pow2, HasLevel, LevelWidth, IsBucket, Bucket, Child, Within, Roomy, Placed, Exact, Working, Rewritten;
      RewrittenSame(p, sl, nodes, live);
      ghost var bound := 65;
      DirtyLevels(p, sl, nodes, live, dirty);
      while dirty != {}
        invariant Working(p, sl, nodes, live, dirty) && nodes.Keys == old(nodes.Keys) && Rewritten(p, sl, old(nodes), nodes, live)
        invariant dirty <= live <= nodes.Keys && forall d | d in dirty :: 0 <= nodes[d].level < bound
        decreases bound
      {
        ghost var nodes0 := nodes;
        OnePass(bound);
        RewrittenChain(p, sl, old(nodes), nodes0, nodes, live);
        bound := bound - 1;
      }
    }

    /** One pass over the dirty ranges, none of them below level bound - 1: afterwards none is that deep. */
    method OnePass(ghost bound: int)
      requires Working(p, sl, nodes, live, dirty) && dirty <= live <= nodes.Keys
      requires forall d | d in dirty :: 0 <= nodes[d].level < bound
      modifies this`nodes, this`dirty
      ensures Working(p, sl, nodes, live, dirty) && dirty <= live <= nodes.Keys
      ensures nodes.Keys == old(nodes.Keys) && Rewritten(p, sl, old(nodes), nodes, live)
      ensures forall d | d in dirty :: 0 <= nodes[d].level < bound - 1
    {
      hide Pow2, HasLevel, LevelWidth, IsBucket, Bucket, Child, Within, Roomy, Placed, Exact, Working, Rewritten,
           ByLevel, ToVisit;
      RewrittenSame(p, sl, nodes, live);
      var slDirty := SortedByLevel();
      VisitFirst(slDirty);
      var i := 0;
      while i < |slDirty|
        invariant 0 <= i <= |slDirty|
        invariant Working(p, sl, nodes, live, dirty) && nodes.Keys == old(nodes.Keys) && Rewritten(p, sl, old(nodes), nodes, live)
        invariant dirty <= live <= nodes.Keys && forall d | d in slDirty :: d in live && nodes[d].level < bound
        invariant forall d | d in dirty :: 0 <= nodes[d].level < bound
        invariant forall d | d in dirty && nodes[d].level == bound - 1 :: ToVisit(slDirty, i, d)
      {
        var rng := slDirty[i];
        ghost var nodes0 := nodes;
        Rehash(rng);
        RewrittenChain(p, sl, old(nodes), nodes0, nodes, live);
        VisitNext(slDirty, i);
        i := i + 1;
      }
      VisitedAll(slDirty);
    }

    /** One range of the pass. */
    method Rehash(rng: Tuple)
      requires Working(p, sl, nodes, live, dirty) && rng in live && live <= nodes.Keys
      modifies this`nodes, this`dirty
      ensures Working(p, sl, nodes, live, dirty) && dirty <= live <= nodes.Keys
      ensures nodes.Keys == old(nodes.Keys) && forall t | t in nodes :: nodes[t].level == old(nodes)[t].level
      ensures dirty == old(dirty) - {rng} + ParentMark(old(nodes)[rng])
      ensures forall u | u in ParentMark(old(nodes)[rng]) :: u in live && 0 <= nodes[u].level == nodes[rng].level - 1
      ensures Rewritten(p, sl, old(nodes), nodes, live)
    {
      hide Pow2, HasLevel, LevelWidth, IsBucket, Bucket, Child, Within, Roomy, Placed, Exact, Working, Rewritten;
      WorkingShape(p, sl, nodes, live, dirty);
      RehashKeeps(p, sl, nodes, live, dirty, rng);
      RewrittenOnce(p, sl, nodes, live, rng);
      ParentIsLive(p, nodes, live, rng);
      ParentLevel(p, nodes, live, rng);
      LiveIsProper(p, nodes, live, rng);
      var node := nodes[rng];
      if node.divided {
        var hash := CalcDividedHash(rng);
        nodes := nodes[rng := node.(hash := hash)];
      } else {
        var hash, els := CalcElementsHash(rng);
        nodes := nodes[rng := node.(hash := hash, count := els)];
      }
      dirty := dirty - {rng} + ParentMark(node);
      WorkingShape(p, sl, nodes, live, dirty);
    }

    /** Set: for each element, replace it in the container and count it in the tree; then
        recalculate once. */
    method Set(elements: seq<Element>)
      requires Valid() && Fits(p, sl, nodes, live, elements)
      modifies this
      ensures Valid() && sl == UpsertAll(p.xx, old(sl), elements)
      ensures old(Tight()) ==> Tight()
      ensures Untouched(old(nodes), old(live), nodes, live)
      ensures Crisp(p, old(sl), old(nodes), old(live)) && NewIds(old(sl), elements) ==> Crisp(p, sl, nodes, live)
    {
      hide Pow2, HasLevel, LevelWidth, IsBucket, Bucket, Child, Within, Roomy, Shape, Exact, Working, Awaiting, Fits, StepFits,
           AddedNodes, AddedLive, Untouched, Crisp, CrispBut, NewIds, Rewritten;
      ghost var crisp := Crisp(p, sl, nodes, live) && NewIds(sl, elements);
      ghost var sl0 := sl;
      WorkingShape(p, sl, nodes, live, {});
      UntouchedFirst(nodes, live);
      var i := 0;
      while i < |elements|
        invariant 0 <= i <= |elements|
        invariant sl == UpsertAll(p.xx, sl0, elements[..i]) && live <= nodes.Keys
        invariant Working(p, sl, nodes, live, dirty) && Fits(p, sl, nodes, live, elements[i..])
        invariant old(Tight()) ==> Tight()
        invariant Untouched(old(nodes), old(live), nodes, live) && (crisp ==> Crisp(p, sl, nodes, live))
      {
        var e := elements[i];
        assert elements[..i + 1][..i] == elements[..i];
        WorkingShape(p, sl, nodes, live, dirty);
        FitsNext(p, sl, nodes, live, elements, i);
        StepFitsIsRoomy(p, Upsert(p.xx, sl, e), nodes, live, p.xx(e.id));
        UpsertAwaits(p, sl, e, nodes, live, dirty);
        ghost var nodes0, live0 := nodes, live;
        if crisp {
          NextIsNew(p.xx, sl0, elements, i);
          UpsertNew(p, sl, e, nodes, live);
        }
        sl := Upsert(p.xx, sl, e);
        AddElement(p.xx(e.id));
        UntouchedChain(old(nodes), old(live), nodes0, live0, nodes, live);
        WorkingShape(p, sl, nodes, live, dirty);
        i := i + 1;
      }
      assert elements[..i] == elements;
      ghost var nodes1 := nodes;
      RecalculateHashes();
      RewrittenKeeps(p, sl, nodes1, nodes, live);
      UntouchedChain(old(nodes), old(live), nodes1, live, nodes, live);
    }

    /** RemoveId: false stands for ErrElementNotFound. */
    method RemoveId(id: string) returns (found: bool)
      requires Valid()
      modifies this
      ensures Valid() && sl == Without(old(sl), id)
      ensures found <==> exists e :: e in old(sl) && e.id == id
      ensures !found ==> nodes == old(nodes) && live == old(live)
      ensures found ==> exists leaf, around :: TakenOut(p, old(nodes), old(live), nodes, live, p.xx(id), leaf, around)
      ensures Tally(p, old(sl), old(nodes), old(live)) ==> Tally(p, sl, nodes, live)
      ensures old(Tight()) ==> (Tight() <==> !(found && MergesDivided(p, old(nodes), old(live), p.xx(id))))
    {
      hide Pow2, HasLevel, LevelWidth, IsBucket, Bucket, Child, Within, Roomy, Placed, Exact, Working, MergesDivided,
           TakenOut, Tally, Rewritten, Without;
      found := HasId(sl, id);
      WorkingShape(p, sl, nodes, live, {});
      if !found {
        WithoutAbsent(sl, id);
        return;
      }
      RemovalIsRoomy(p, sl, id);
      ghost var sl0 := sl;
      sl := Without(sl, id);
      ghost var nodes0, live0 := nodes, live;
      ghost var leaf, around := RemoveElement(p.xx(id), sl0, id);
      ghost var nodes1 := nodes;
      RecalculateHashes();
      TakenRewritten(p, sl, nodes0, live0, nodes1, nodes, live, p.xx(id), leaf, around);
      RewrittenKeeps(p, sl, nodes1, nodes, live);
    }

    // ---- queries and reconciliation ---------------------------------------------------------------

    /** getRange. */
    method GetRange(r: Range) returns (rr: RangeResult)
      requires Ordered(p.xx, sl)
      ensures rr == Answer(p, sl, nodes, r)
    {
      rr := RangeResult(None, [], 0);
      if r.t in nodes {
        rr := rr.(hash := nodes[r.t].hash, count := nodes[r.t].count);
        if !r.elements {
          return;
        }
      }
      var found := FindFrom(r.t);
      rr := rr.(elements := found, count := |found|);
    }

    method Ranges(ranges: seq<Range>) returns (results: seq<RangeResult>)
      requires Ordered(p.xx, sl)
      ensures |results| == |ranges|
      ensures forall i | 0 <= i < |ranges| :: results[i] == Answer(p, sl, nodes, ranges[i])
    {
      results := [];
      var i := 0;
      while i < |ranges|
        invariant 0 <= i <= |ranges| && |results| == i
        invariant forall m | 0 <= m < i :: results[m] == Answer(p, sl, nodes, ranges[m])
      {
        var rr := GetRange(ranges[i]);
        results := results + [rr];
        i := i + 1;
      }
    }

    /** compareResults: what to do about one range. */
    method CompareResults(mode: Mode, r: Range, myRes: RangeResult, otherRes: RangeResult, out: Outcome, prepare: seq<Range>)
      returns (out': Outcome, prepare': seq<Range>)
      requires Ordered(p.xx, sl) && p.Ok()
      requires DistinctIds(myRes.elements) && DistinctIds(otherRes.elements)
      ensures Stepped(p, mode, sl, r, myRes, otherRes, out, prepare, out', prepare')
    {
      hide Within, Compared, Pow2;
      out', prepare' := out, prepare;
      if myRes.hash == otherRes.hash {
        return;
      }
      if |otherRes.elements| == otherRes.count {
        if |myRes.elements| == myRes.count {
          out' := CompareElements(mode, myRes.elements, otherRes.elements, out);
        } else {
          var mine := GetRange(Range(r.t, true));
          WithinDistinct(p.xx, sl, r.t);
          out' := CompareElements(mode, mine.elements, otherRes.elements, out);
        }
        return;
      }
      if (otherRes.count <= p.threshold && |otherRes.elements| == 0) || |myRes.elements| == myRes.count {
        prepare' := prepare' + [Range(r.t, true)];
        return;
      }
      var tuples := GenTupleRanges(r.t.from, r.t.to, p.Df());
      assert tuples == Children(r.t, p.Df()) by { assert Tuple(r.t.from, r.t.to) == r.t; }
      var i := 0;
      while i < |tuples|
        invariant 0 <= i <= |tuples| && prepare' == prepare + Queries(tuples[..i])
      {
        prepare' := prepare' + [Range(tuples[i], false)];
        assert tuples[..i + 1] == tuples[..i] + [tuples[i]];
        assert Queries(tuples[..i + 1]) == Queries(tuples[..i]) + [Range(tuples[i], false)];
        i := i + 1;
      }
      assert tuples[..i] == tuples;
    }

    method CompareElements(mode: Mode, my: seq<Element>, other: seq<Element>, out: Outcome) returns (out': Outcome)
      requires DistinctIds(my) && DistinctIds(other)
      ensures out' == Compared(mode, my, other, out)
    {
      match mode {
        case Equal => out' := CompareElementsEqual(my, other, out);
        case Greater => out' := CompareElementsGreater(my, other, out);
      }
    }

    /** Diff (mode Equal) and CompareDiff (mode Greater) against a remote container that answers
        faithfully and does not change meanwhile.  The context is done after `deadline` rounds: the
        exchange is cancelled exactly when some query is left for then, and never after
        floor(64/k) + 2 rounds. */
    method Reconcile(dl: Diff, mode: Mode, deadline: nat) returns (res: DiffResult)
      requires Valid() && dl.Valid() && dl.p == p
      ensures res.Cancelled? <==> Unfinished(p, Seen(), dl.Seen(), deadline)
      ensures res.Cancelled? ==> deadline < 64 / p.k + 2
      ensures res.Done? ==> UpToHidden(p, mode, Seen(), dl.Seen(), res.out)
      ensures res.Done? && Truthful(p, Seen()) ==> Exactly(p, mode, Seen(), dl.Seen(), res.out)
    {
      hide Working, Truthful, Progress, OkQuery, Exactly, UpToHidden, Within, Pow2, Ordered, Opened, Verdicts, Decide, Answer, Stepped,
           DistinctIds, Hidden;
      WorkingShape(p, sl, nodes, live, {});
      WorkingShape(p, dl.sl, dl.nodes, dl.live, {});
      ghost var l, r := Seen(), dl.Seen();
      FirstRound(p, mode, l, r);
      TopSent(p, l, r);
      var out := Outcome([], [], [], []);
      var toSend, round := [Range(Top, false)], 0;
      while |toSend| > 0
        invariant AllOk(p, l, r, round, toSend) && AllSent(p, l, r, round, toSend) && Progress(p, mode, l, r, out, toSend)
        invariant 0 <= round <= deadline
        decreases deadline - round
      {
        if round == deadline {
          assert toSend[0] in toSend && OkQuery(p, l, r, deadline, toSend[0]);
          assert Unfinished(p, l, r, deadline);
          RoundBound(p, l, r, round, toSend[0]);
          return Cancelled;
        }
        out, toSend := OneRound(dl, mode, out, toSend, round);
        round := round + 1;
      }
      assert toSend == [];
      NoneLater(p, l, r, round, deadline);
      assert !Unfinished(p, l, r, deadline);
      ProgressIsUpToHidden(p, mode, l, r, out);
      if Truthful(p, l) {
        ProgressIsExact(p, mode, l, r, out);
      }
      return Done(out);
    }

    /** One round: query both sides, compare range by range, collect the next queries. */
    method OneRound(dl: Diff, mode: Mode, out0: Outcome, toSend: seq<Range>, ghost round: int)
      returns (out: Outcome, prepare: seq<Range>)
      requires Valid() && dl.Valid() && dl.p == p
      requires AllOk(p, Seen(), dl.Seen(), round, toSend) && Progress(p, mode, Seen(), dl.Seen(), out0, toSend)
      requires 0 <= round && AllSent(p, Seen(), dl.Seen(), round, toSend)
      ensures AllOk(p, Seen(), dl.Seen(), round + 1, prepare) && Progress(p, mode, Seen(), dl.Seen(), out, prepare)
      ensures AllSent(p, Seen(), dl.Seen(), round + 1, prepare)
    {
      hide Working, Progress, OkQuery, Within, Pow2, Ordered, Opened, Verdicts, Decide, Answer, Stepped,
           DistinctIds, Hidden, Follows;
      WorkingShape(p, sl, nodes, live, {});
      WorkingShape(p, dl.sl, dl.nodes, dl.live, {});
      ghost var l, r := Seen(), dl.Seen();
      var otherRes := dl.Ranges(toSend);
      var myRes := Ranges(toSend);
      out, prepare := out0, [];
      var i := 0;
      assert toSend[0..] + [] == toSend;
      while i < |toSend|
        invariant 0 <= i <= |toSend|
        invariant AllOk(p, l, r, round + 1, prepare)
        invariant Progress(p, mode, l, r, out, toSend[i..] + prepare)
        invariant FollowedUp(p, l, r, round, toSend[..i], prepare)
      {
        var q := toSend[i];
        ghost var out1, prepare1 := out, prepare;
        AnswersDistinct(p, l, q);
        AnswersDistinct(p, r, q);
        out, prepare := CompareResults(mode, q, myRes[i], otherRes[i], out, prepare);
        NextQueries(p, mode, l, r, out1, round, q, prepare1, out, prepare);
        FollowUpNext(p, mode, l, r, round, toSend, i, out1, prepare1, out, prepare);
        ghost var rest := toSend[i + 1..] + prepare1;
        assert toSend[i..] + prepare1 == [q] + rest;
        ghost var added := OneStep(p, mode, l, r, out1, round, q, rest, prepare1, out, prepare);
        assert toSend[i + 1..] + prepare == rest + added;
        i := i + 1;
      }
      assert toSend[i..] + prepare == prepare && toSend[..i] == toSend;
      RoundSent(p, l, r, round, toSend, prepare);
    }

    /** DiffManager.TryDiff: nothing is exchanged when the remote's top hash equals ours. */
    method TryDiff(dl: Diff, deadline: nat) returns (res: DiffResult)
      requires Valid() && dl.Valid() && dl.p == p
      ensures res.Cancelled? ==> deadline < 64 / p.k + 2 && Unfinished(p, Seen(), dl.Seen(), deadline)
      ensures res.Done? ==> UpToHidden(p, Equal, Seen(), dl.Seen(), res.out)
      ensures res.Done? && Truthful(p, Seen()) ==> Exactly(p, Equal, Seen(), dl.Seen(), res.out)
      ensures nodes[Top].hash == dl.nodes[Top].hash ==> res == Done(Outcome([], [], [], []))
    {
      hide Working, Truthful, Exactly, UpToHidden, Unfinished, Within, Pow2, Ordered;
      WorkingShape(p, sl, nodes, live, {});
      WorkingShape(p, dl.sl, dl.nodes, dl.live, {});
      var theirs := dl.Ranges([Range(Top, false)]);
      if nodes[Top].hash == theirs[0].hash {
        EqualTopsAreExact(p, Seen(), dl.Seen());
        return Done(Outcome([], [], [], []));
      }
      res := Reconcile(dl, Equal, deadline);
    }
  }
}
