/** The rounds of Diff: what a pending query stands for, how each decision of compareResults moves
    ids from pending to settled, and what the settled lists mean. */
module Rounds {
  import opened Options
  import opened Geometry
  import opened Buckets
  import opened Elements
  import opened Tree
  import opened Updates
  import opened Batches
  import opened Protocol

  /** Every wider bucket of hash x, above level n, is split by the comparison. */
  ghost predicate Opened(p: Params, l: View, r: View, n: int, x: u64) {
    forall m | 0 <= m < n :: HasLevel(p.k, m) && Verdicts(p, l, r, Bucket(p.k, m, x)) == Split
  }

  /** The remote counts nothing in t and the local node says the same, so two empty lists are compared. */
  ghost predicate Overlooks(p: Params, l: View, r: View, t: Tuple) {
    Verdicts(p, l, r, t) == Compare && t in l.nodes && l.nodes[t].count == 0
  }

  /** The comparison walks down to the level-n bucket of x and finds equal hashes or empty lists there. */
  ghost predicate HiddenAt(p: Params, l: View, r: View, x: u64, n: int) {
    && HasLevel(p.k, n) && Opened(p, l, r, n, x)
    && (Verdicts(p, l, r, Bucket(p.k, n, x)) == Skip || Overlooks(p, l, r, Bucket(p.k, n, x)))
  }

  ghost predicate Hidden(p: Params, l: View, r: View, x: u64) {
    exists n :: HiddenAt(p, l, r, x, n)
  }

  function LevelOf(round: int, q: Range): int {
    if q.elements then round - 1 else round
  }

  /** A query that may be sent in a round: a bucket of the round's level under split buckets; a
      request for elements follows up on the bucket of the round before. */
  ghost predicate OkQuery(p: Params, l: View, r: View, round: int, q: Range) {
    && IsBucket(p.k, LevelOf(round, q), q.t)
    && q.t in r.live
    && Opened(p, l, r, LevelOf(round, q), q.t.from)
    && (q.elements ==> Verdicts(p, l, r, q.t) == Fetch)
  }

  ghost predicate Covered(p: Params, pending: seq<Range>, id: string) {
    exists q :: q in pending && In(q.t, p.xx(id))
  }

  ghost predicate Disjoint(a: Tuple, b: Tuple) {
    a.to < b.from || b.to < a.from
  }

  ghost predicate Apart(pending: seq<Range>) {
    forall i, j | 0 <= i < j < |pending| :: Disjoint(pending[i].t, pending[j].t)
  }

  /** Ids in a pending range are not mentioned yet, all others are mentioned rightly. */
  ghost predicate Progress(p: Params, mode: Mode, l: View, r: View, out: Outcome, pending: seq<Range>) {
    && EachOnce(out) && Apart(pending)
    && forall id :: IdProgress(p, mode, l, r, out, pending, id)
  }

  ghost predicate IdProgress(p: Params, mode: Mode, l: View, r: View, out: Outcome, pending: seq<Range>, id: string) {
    if Covered(p, pending, id) then Absent(out, id)
    else Right(mode, l.sl, r.sl, out, id, Hidden(p, l, r, p.xx(id)))
  }

  // ---- queries -------------------------------------------------------------------------------------

  lemma OpenedShared(p: Params, l: View, r: View, n: int, t: Tuple, x: u64)
    requires IsBucket(p.k, n, t) && In(t, x) && Opened(p, l, r, n, t.from)
    ensures Opened(p, l, r, n, x)
  {
    hide IsBucket, LevelWidth, Pow2, Verdicts, Bucket;
    BucketProper(p.k, n, t);
    BucketUnique(p.k, n, t, t.from);
    forall m | 0 <= m < n
      ensures HasLevel(p.k, m) && Verdicts(p, l, r, Bucket(p.k, m, x)) == Split
    {
      BucketShared(p.k, m, n, t.from, x);
    }
  }

  /** What compareResults decides on an allowed query. */
  lemma ActualVerdict(p: Params, l: View, r: View, round: int, q: Range)
    requires OkQuery(p, l, r, round, q)
    ensures var v := Decide(p.threshold, Answer(p, l.sl, l.nodes, q), Answer(p, r.sl, r.nodes, q));
            v == if q.elements then Compare else Verdicts(p, l, r, q.t)
  {
    hide IsBucket, Opened, Within;
  }

  /** The ids of a bucket that is skipped or overlooked are hidden. */
  lemma SkippedIsHidden(p: Params, l: View, r: View, round: int, q: Range, x: u64)
    requires OkQuery(p, l, r, round, q) && In(q.t, x)
    requires Verdicts(p, l, r, q.t) == Skip || Overlooks(p, l, r, q.t)
    ensures Hidden(p, l, r, x)
  {
    hide IsBucket, Opened, Verdicts, Overlooks, HasLevel, Bucket;
    var n := LevelOf(round, q);
    BucketProper(p.k, n, q.t);
    BucketUnique(p.k, n, q.t, x);
    OpenedShared(p, l, r, n, q.t, x);
    assert HiddenAt(p, l, r, x, n);
  }

  /** A bucket that is compared or fetched hides none of its ids. */
  lemma ResolvedIsNotHidden(p: Params, l: View, r: View, round: int, q: Range, x: u64)
    requires OkQuery(p, l, r, round, q) && In(q.t, x)
    requires Verdicts(p, l, r, q.t) == Compare || Verdicts(p, l, r, q.t) == Fetch
    requires !Overlooks(p, l, r, q.t)
    ensures !Hidden(p, l, r, x)
  {
    hide IsBucket, Verdicts, HasLevel, Bucket;
    var n := LevelOf(round, q);
    BucketProper(p.k, n, q.t);
    BucketUnique(p.k, n, q.t, x);
    OpenedShared(p, l, r, n, q.t, x);
    forall m
      ensures !HiddenAt(p, l, r, x, m)
    {
      if HiddenAt(p, l, r, x, m) {
        LevelIsNat(p.k, m);
      }
    }
  }

  lemma LevelIsNat(k: nat, n: int)
    requires HasLevel(k, n)
    ensures 0 <= n
  {
  }

  // ---- moving ids from pending to settled -------------------------------------------------------------

  lemma CoveredSplit(p: Params, q: Range, rest: seq<Range>, added: seq<Range>, id: string)
    ensures Covered(p, [q] + rest, id) <==> In(q.t, p.xx(id)) || Covered(p, rest, id)
    ensures Covered(p, rest + added, id) <==> Covered(p, rest, id) || Covered(p, added, id)
  {
    if c :| c in [q] + rest && In(c.t, p.xx(id)) {
      assert c == q || c in rest;
    }
    if In(q.t, p.xx(id)) {
      assert q in [q] + rest;
    }
    if c :| c in rest && In(c.t, p.xx(id)) {
      assert c in [q] + rest && c in rest + added;
    }
    if c :| c in added && In(c.t, p.xx(id)) {
      assert c in rest + added;
    }
    if c :| c in rest + added && In(c.t, p.xx(id)) {
      assert c in rest || c in added;
    }
  }

  lemma ApartTail(p: Params, q: Range, rest: seq<Range>, id: string)
    requires Apart([q] + rest)
    ensures Apart(rest)
    ensures In(q.t, p.xx(id)) ==> !Covered(p, rest, id)
  {
    forall i, j | 0 <= i < j < |rest|
      ensures Disjoint(rest[i].t, rest[j].t)
    {
      assert rest[i] == ([q] + rest)[i + 1] && rest[j] == ([q] + rest)[j + 1];
    }
    if In(q.t, p.xx(id)) {
      forall c | c in rest
        ensures !In(c.t, p.xx(id))
      {
        var i :| 0 <= i < |rest| && rest[i] == c;
        assert ([q] + rest)[0] == q && ([q] + rest)[i + 1] == c;
      }
    }
  }

  lemma SkipStep(p: Params, mode: Mode, l: View, r: View, out: Outcome, round: int, q: Range, rest: seq<Range>)
    requires OkQuery(p, l, r, round, q) && (Verdicts(p, l, r, q.t) == Skip || Overlooks(p, l, r, q.t))
    requires Progress(p, mode, l, r, out, [q] + rest)
    ensures Progress(p, mode, l, r, out, rest)
  {
    hide OkQuery, Hidden, Verdicts, Overlooks, Covered, Right, Absent, Apart;
    ApartTail(p, q, rest, "");
    forall id
      ensures IdProgress(p, mode, l, r, out, rest, id)
    {
      assert IdProgress(p, mode, l, r, out, [q] + rest, id);
      CoveredSplit(p, q, rest, [], id);
      ApartTail(p, q, rest, id);
      if In(q.t, p.xx(id)) {
        SkippedIsHidden(p, l, r, round, q, p.xx(id));
        AbsentIsHiddenRight(mode, l.sl, r.sl, out, id);
      }
    }
  }

  lemma AbsentIsHiddenRight(mode: Mode, mine: seq<Element>, theirs: seq<Element>, out: Outcome, id: string)
    requires Absent(out, id)
    ensures Right(mode, mine, theirs, out, id, true)
  {
  }

  /** Elements of a bucket stand for their ids in the whole container. */
  lemma BucketRight(xx: Hasher, mode: Mode, mine: seq<Element>, theirs: seq<Element>, t: Tuple, out: Outcome, id: string)
    requires In(t, xx(id)) && Right(mode, Within(xx, mine, t), Within(xx, theirs, t), out, id, false)
    ensures Right(mode, mine, theirs, out, id, false)
  {
    hide Within, Precedes;
    forall head
      ensures Element(id, head) in Within(xx, mine, t) <==> Element(id, head) in mine
      ensures Element(id, head) in Within(xx, theirs, t) <==> Element(id, head) in theirs
    {
      WithinMember(xx, mine, t, Element(id, head));
      WithinMember(xx, theirs, t, Element(id, head));
    }
    HasSame(Within(xx, mine, t), mine, id);
    HasSame(Within(xx, theirs, t), theirs, id);
    DiffersSame(mode, Within(xx, mine, t), mine, Within(xx, theirs, t), theirs, id, Changed);
    DiffersSame(mode, Within(xx, mine, t), mine, Within(xx, theirs, t), theirs, id, TheirChanged);
  }

  lemma HasSame(a: seq<Element>, b: seq<Element>, id: string)
    requires forall head :: Element(id, head) in a <==> Element(id, head) in b
    ensures Has(a, id) <==> Has(b, id)
  {
  }

  lemma DiffersSame(mode: Mode, a: seq<Element>, b: seq<Element>, c: seq<Element>, d: seq<Element>, id: string, kind: Kind)
    requires forall head :: Element(id, head) in a <==> Element(id, head) in b
    requires forall head :: Element(id, head) in c <==> Element(id, head) in d
    ensures Differs(mode, a, c, id, kind) <==> Differs(mode, b, d, id, kind)
  {
    hide Precedes;
  }

  lemma WithinDistinct(xx: Hasher, sl: seq<Element>, t: Tuple)
    requires Ordered(xx, sl)
    ensures DistinctIds(Within(xx, sl, t))
  {
    WithinOrdered(xx, sl, t);
    OrderedIsDistinct(xx, Within(xx, sl, t));
  }

  lemma RightSame(mode: Mode, mine: seq<Element>, theirs: seq<Element>, a: Outcome, b: Outcome, id: string, hidden: bool)
    requires (id in a.newIds <==> id in b.newIds) && (id in a.changedIds <==> id in b.changedIds)
    requires (id in a.theirChangedIds <==> id in b.theirChangedIds) && (id in a.removedIds <==> id in b.removedIds)
    ensures Right(mode, mine, theirs, a, id, hidden) <==> Right(mode, mine, theirs, b, id, hidden)
    ensures Absent(a, id) <==> Absent(b, id)
  {
  }

  lemma CompareStep(p: Params, mode: Mode, l: View, r: View, out: Outcome, round: int, q: Range, rest: seq<Range>)
    requires Ordered(p.xx, l.sl) && Ordered(p.xx, r.sl)
    requires OkQuery(p, l, r, round, q) && (Verdicts(p, l, r, q.t) == Compare || Verdicts(p, l, r, q.t) == Fetch)
    requires !Overlooks(p, l, r, q.t)
    requires Progress(p, mode, l, r, out, [q] + rest)
    ensures Progress(p, mode, l, r, Compared(mode, Within(p.xx, l.sl, q.t), Within(p.xx, r.sl, q.t), out), rest)
  {
    hide OkQuery, Hidden, Verdicts, Overlooks, Covered, Right, Absent, Apart, Within, Compared, EachOnce, DistinctIds, Ordered;
    var my, other := Within(p.xx, l.sl, q.t), Within(p.xx, r.sl, q.t);
    var out' := Compared(mode, my, other, out);
    WithinDistinct(p.xx, l.sl, q.t);
    WithinDistinct(p.xx, r.sl, q.t);
    ApartTail(p, q, rest, "");
    forall e | e in my || e in other
      ensures In(q.t, p.xx(e.id)) && Absent(out, e.id)
    {
      WithinMember(p.xx, l.sl, q.t, e);
      WithinMember(p.xx, r.sl, q.t, e);
      assert IdProgress(p, mode, l, r, out, [q] + rest, e.id);
      CoveredSplit(p, q, rest, [], e.id);
    }
    ComparedDistinct(mode, my, other, out);
    forall id
      ensures IdProgress(p, mode, l, r, out', rest, id)
    {
      assert IdProgress(p, mode, l, r, out, [q] + rest, id);
      CoveredSplit(p, q, rest, [], id);
      ApartTail(p, q, rest, id);
      if In(q.t, p.xx(id)) {
        ResolvedIsNotHidden(p, l, r, round, q, p.xx(id));
        ComparedRight(mode, my, other, out, id);
        BucketRight(p.xx, mode, l.sl, r.sl, q.t, out', id);
      } else {
        ComparedElsewhere(mode, my, other, out, id);
        RightSame(mode, l.sl, r.sl, out, out', id, Hidden(p, l, r, p.xx(id)));
      }
    }
  }

  /** Pending queries are replaced by queries that cover the same ids. */
  lemma RequeueStep(p: Params, mode: Mode, l: View, r: View, out: Outcome, q: Range, rest: seq<Range>, added: seq<Range>)
    requires Progress(p, mode, l, r, out, [q] + rest) && Apart(added)
    requires forall a | a in added :: Sub(a.t, q.t)
    requires forall x: u64 | In(q.t, x) :: exists a :: a in added && In(a.t, x)
    ensures Progress(p, mode, l, r, out, rest + added)
  {
    hide Hidden, Right, Absent, EachOnce;
    ApartTail(p, q, rest, "");
    ApartJoined(q, rest, added);
    forall id
      ensures IdProgress(p, mode, l, r, out, rest + added, id)
    {
      assert IdProgress(p, mode, l, r, out, [q] + rest, id);
      CoveredSplit(p, q, rest, added, id);
      assert Covered(p, added, id) <==> In(q.t, p.xx(id));
    }
  }

  lemma ApartJoined(q: Range, rest: seq<Range>, added: seq<Range>)
    requires Apart([q] + rest) && Apart(rest) && Apart(added) && forall a | a in added :: Sub(a.t, q.t)
    ensures Apart(rest + added)
  {
    forall i, j | 0 <= i < j < |rest + added|
      ensures Disjoint((rest + added)[i].t, (rest + added)[j].t)
    {
      if i < |rest| && |rest| <= j {
        assert ([q] + rest)[0] == q && ([q] + rest)[i + 1] == rest[i];
        assert (rest + added)[j] in added;
      } else if |rest| <= i {
        assert (rest + added)[i] == added[i - |rest|] && (rest + added)[j] == added[j - |rest|];
      }
    }
  }

  lemma FetchQuery(p: Params, l: View, r: View, round: int, q: Range)
    requires OkQuery(p, l, r, round, q) && !q.elements && Verdicts(p, l, r, q.t) == Fetch
    ensures OkQuery(p, l, r, round + 1, Range(q.t, true))
  {
    hide Verdicts, Opened, IsBucket;
  }

  lemma FetchStep(p: Params, mode: Mode, l: View, r: View, out: Outcome, round: int, q: Range, rest: seq<Range>)
    requires OkQuery(p, l, r, round, q) && !q.elements && Verdicts(p, l, r, q.t) == Fetch
    requires Progress(p, mode, l, r, out, [q] + rest)
    ensures Progress(p, mode, l, r, out, rest + [Range(q.t, true)])
  {
    hide Hidden, Verdicts, Opened, Progress, IsBucket;
    BucketProper(p.k, round, q.t);
    var added := [Range(q.t, true)];
    forall x: u64 | In(q.t, x)
      ensures exists a :: a in added && In(a.t, x)
    {
      assert Range(q.t, true) in added;
    }
    RequeueStep(p, mode, l, r, out, q, rest, added);
  }

  function Queries(ts: seq<Tuple>): seq<Range> {
    seq(|ts|, i requires 0 <= i < |ts| => Range(ts[i], false))
  }

  /** A split bucket is divided remotely: it counts more than the threshold there. */
  lemma SplitIsDivided(p: Params, l: View, r: View, t: Tuple)
    requires Faithful(p, r) && t in r.live && Verdicts(p, l, r, t) == Split
    ensures t in r.nodes && p.threshold < r.nodes[t].count && r.nodes[t].divided
    ensures t in l.nodes && l.nodes[t].count != 0
  {
    hide Within, Working;
    WorkingShape(p, r.sl, r.nodes, r.live, {});
    LiveIsTrue(p, r, t);
  }

  lemma SplitChildren(p: Params, r: View, n: int, t: Tuple)
    requires Faithful(p, r) && t in r.live && IsBucket(p.k, n, t) && t in r.nodes && r.nodes[t].divided
    ensures p.Ok() && HasLevel(p.k, n + 1) && p.Df() <= LevelWidth(p.k, n)
    ensures forall j | 0 <= j < p.Df() :: Child(t, p.Df(), j) in r.live
  {
    hide Bucket, LevelWidth, Pow2, Child, Working;
    WorkingShape(p, r.sl, r.nodes, r.live, {});
    assert Placed(p, r.nodes, r.live, t);
    SameLevel(p.k, n, r.nodes[t].level, t);
    WideEnough(p.k, n);
  }

  lemma SameLevel(k: nat, m: int, n: int, t: Tuple)
    requires IsBucket(k, m, t) && IsBucket(k, n, t)
    ensures m == n
  {
    if m < n {
      LevelDivides(k, m, n);
      assert false;
    } else if n < m {
      LevelDivides(k, n, m);
      assert false;
    }
  }

  lemma SplitQueries(p: Params, l: View, r: View, round: int, q: Range)
    requires Faithful(p, r) && OkQuery(p, l, r, round, q) && !q.elements && Verdicts(p, l, r, q.t) == Split
    ensures p.Ok() && HasLevel(p.k, round) && p.Df() <= LevelWidth(p.k, round)
    ensures forall a | a in Queries(Children(q.t, p.Df())) :: OkQuery(p, l, r, round + 1, a) && Sub(a.t, q.t)
  {
    hide Verdicts, IsBucket, Bucket, Child, LevelWidth, Pow2, Working, OkQuery, Opened;
    OkQueryBucket(p, l, r, round, q);
    SplitIsDivided(p, l, r, q.t);
    SplitChildren(p, r, round, q.t);
    var added := Queries(Children(q.t, p.Df()));
    forall a | a in added
      ensures OkQuery(p, l, r, round + 1, a) && Sub(a.t, q.t)
    {
      var j :| 0 <= j < |added| && added[j] == a;
      ChildIsBucket(p.k, round, q.t, j);
      ChildQuery(p, l, r, round, q, j);
    }
  }

  lemma SplitStep(p: Params, mode: Mode, l: View, r: View, out: Outcome, round: int, q: Range, rest: seq<Range>)
    requires Faithful(p, r) && OkQuery(p, l, r, round, q) && !q.elements && Verdicts(p, l, r, q.t) == Split
    requires Progress(p, mode, l, r, out, [q] + rest)
    ensures p.Ok()
    ensures Progress(p, mode, l, r, out, rest + Queries(Children(q.t, p.Df())))
  {
    hide Hidden, Verdicts, Progress, IsBucket, Bucket, Child, HasLevel, LevelWidth, Pow2, Working, OkQuery, Opened;
    OkQueryBucket(p, l, r, round, q);
    SplitQueries(p, l, r, round, q);
    var added := Queries(Children(q.t, p.Df()));
    ChildrenApart(p, round, q.t);
    forall x: u64 | In(q.t, x)
      ensures exists a :: a in added && In(a.t, x)
    {
      var j := BottomIsBucket(p.k, round, q.t, x);
      assert added[j] == Range(Child(q.t, p.Df(), j), false);
      assert added[j] in added;
    }
    RequeueStep(p, mode, l, r, out, q, rest, added);
  }

  lemma OkQueryBucket(p: Params, l: View, r: View, round: int, q: Range)
    requires OkQuery(p, l, r, round, q)
    ensures IsBucket(p.k, LevelOf(round, q), q.t) && q.t in r.live && 1 <= p.k && 0 <= LevelOf(round, q) <= 64
    ensures q.t.from <= q.t.to && p.k * LevelOf(round, q) <= 64
  {
    BucketProper(p.k, LevelOf(round, q), q.t);
  }

  lemma ChildQuery(p: Params, l: View, r: View, round: int, q: Range, j: int)
    requires p.Ok() && OkQuery(p, l, r, round, q) && !q.elements && Verdicts(p, l, r, q.t) == Split
    requires p.Df() <= LevelWidth(p.k, round) && 0 <= j < p.Df() && Child(q.t, p.Df(), j) in r.live
    ensures OkQuery(p, l, r, round + 1, Range(Child(q.t, p.Df(), j), false))
  {
    hide Verdicts, Child, LevelWidth, Pow2;
    ChildIsBucket(p.k, round, q.t, j);
    var c := Child(q.t, p.Df(), j);
    BucketProper(p.k, round + 1, c);
    BucketProper(p.k, round, q.t);
    OpenedShared(p, l, r, round, q.t, c.from);
    BucketUnique(p.k, round, q.t, c.from);
  }

  lemma ChildrenApart(p: Params, n: int, t: Tuple)
    requires p.Ok() && IsBucket(p.k, n, t) && p.Df() <= LevelWidth(p.k, n)
    ensures Apart(Queries(Children(t, p.Df())))
  {
    hide LevelWidth, Pow2, IsBucket, Child;
    var qs := Queries(Children(t, p.Df()));
    forall i, j | 0 <= i < j < |qs|
      ensures Disjoint(qs[i].t, qs[j].t)
    {
      ChildIsBucket(p.k, n, t, i);
      ChildIsBucket(p.k, n, t, j);
      BucketProper(p.k, n, t);
      WideEnough(p.k, n);
      MulMono(i + 1, j, LevelWidth(p.k, n + 1));
    }
  }

  // ---- the answers used in a comparison ----------------------------------------------------------------

  /** When the source takes an answer's elements for all elements of the range, they are. */
  lemma FullAnswer(p: Params, v: View, q: Range)
    requires q.t in v.nodes ==> TrueAt(p, v, q.t)
    ensures var a := Answer(p, v.sl, v.nodes, q);
            |a.elements| == a.count ==> a.elements == Within(p.xx, v.sl, q.t)
  {
    hide Within;
  }

  // ---- what is hidden ------------------------------------------------------------------------------------

  lemma {:induction false} OpenedIsLive(p: Params, l: View, r: View, n: int, x: u64)
    requires Faithful(p, r) && HasLevel(p.k, n) && Opened(p, l, r, n, x)
    ensures Bucket(p.k, n, x) in r.live
    decreases n
  {
    hide Verdicts, Bucket, LevelWidth, Pow2, Working, IsBucket, Child;
    WorkingShape(p, r.sl, r.nodes, r.live, {});
    if n <= 0 {
      TopIsBucket(p.k, x);
    } else {
      LevelDivides(p.k, n - 1, n);
      OpenedIsLive(p, l, r, n - 1, x);
      var t := Bucket(p.k, n - 1, x);
      SplitIsDivided(p, l, r, t);
      SplitChildren(p, r, n - 1, t);
      var j := BottomIsBucket(p.k, n - 1, t, x);
    }
  }

  /** Under split buckets of a truthful container: the same elements on both sides, or nothing remotely
      and nothing tracked locally. */
  lemma HiddenMeans(p: Params, l: View, r: View, x: u64, n: int)
    requires Truthful(p, l) && Faithful(p, r) && HiddenAt(p, l, r, x, n)
    ensures var t := Bucket(p.k, n, x);
            && t in r.live
            && if t in l.nodes then Within(p.xx, l.sl, t) == Within(p.xx, r.sl, t)
               else t in r.nodes && r.nodes[t].hash == None && Within(p.xx, r.sl, t) == []
  {
    hide Within, Bucket, Working, HasLevel;
    OpenedIsLive(p, l, r, n, x);
    var t := Bucket(p.k, n, x);
    LiveIsTrue(p, r, t);
    if t in l.nodes {
      assert TrueAt(p, l, t);
    }
  }

  /** No id the remote holds is hidden unless both sides hold the same element for it. */
  lemma RemoteNeverHidden(p: Params, l: View, r: View, id: string, head: string)
    requires Truthful(p, l) && Faithful(p, r) && Element(id, head) in r.sl && Element(id, head) !in l.sl
    ensures !Hidden(p, l, r, p.xx(id))
  {
    hide Within, Bucket, Working, HasLevel, HiddenAt, Truthful;
    forall n
      ensures !HiddenAt(p, l, r, p.xx(id), n)
    {
      if HiddenAt(p, l, r, p.xx(id), n) {
        HiddenLevel(p, l, r, p.xx(id), n);
        HiddenMeans(p, l, r, p.xx(id), n);
        WithinMember(p.xx, l.sl, Bucket(p.k, n, p.xx(id)), Element(id, head));
        WithinMember(p.xx, r.sl, Bucket(p.k, n, p.xx(id)), Element(id, head));
      }
    }
  }

  lemma HiddenLevel(p: Params, l: View, r: View, x: u64, n: int)
    requires HiddenAt(p, l, r, x, n)
    ensures HasLevel(p.k, n)
  {
  }

  /** The removal the protocol misses: walking down the buckets of the id, the local side tracks
      every bucket above level n and the remote counts more than the threshold in each, while at
      level n the bucket is not tracked locally and is an empty leaf remotely. */
  ghost predicate OmittedAt(p: Params, l: View, r: View, x: u64, n: int) {
    && HasLevel(p.k, n)
    && Bucket(p.k, n, x) !in l.nodes && Bucket(p.k, n, x) in r.nodes && r.nodes[Bucket(p.k, n, x)].hash == None
    && forall m | 0 <= m < n :: OpensAt(p, l, r, x, m)
  }

  ghost predicate OpensAt(p: Params, l: View, r: View, x: u64, m: int) {
    && HasLevel(p.k, m)
    && Bucket(p.k, m, x) in l.nodes
    && Bucket(p.k, m, x) in r.nodes && p.threshold < r.nodes[Bucket(p.k, m, x)].count
  }

  ghost predicate Omitted(p: Params, l: View, r: View, x: u64) {
    exists n :: OmittedAt(p, l, r, x, n)
  }

  /** For an id only the local side holds, being hidden is exactly being omitted. */
  lemma HiddenRemovalIffOmitted(p: Params, l: View, r: View, id: string, head: string)
    requires Truthful(p, l) && Faithful(p, r) && Element(id, head) in l.sl && Element(id, head) !in r.sl
    ensures Hidden(p, l, r, p.xx(id)) <==> Omitted(p, l, r, p.xx(id))
  {
    hide HiddenAt, OmittedAt, Truthful, Working;
    var x := p.xx(id);
    forall n
      ensures HiddenAt(p, l, r, x, n) <==> OmittedAt(p, l, r, x, n)
    {
      if HiddenAt(p, l, r, x, n) {
        HiddenIsOmitted(p, l, r, id, head, n);
      }
      if OmittedAt(p, l, r, x, n) {
        OmittedIsHidden(p, l, r, id, head, n);
      }
    }
  }

  lemma HiddenIsOmitted(p: Params, l: View, r: View, id: string, head: string, n: int)
    requires Truthful(p, l) && Faithful(p, r) && Element(id, head) in l.sl && Element(id, head) !in r.sl
    requires HiddenAt(p, l, r, p.xx(id), n)
    ensures OmittedAt(p, l, r, p.xx(id), n)
  {
    hide Within, Bucket, Working, HasLevel, Truthful, Verdicts;
    var x := p.xx(id);
    HiddenMeans(p, l, r, x, n);
    WithinMember(p.xx, l.sl, Bucket(p.k, n, x), Element(id, head));
    WithinMember(p.xx, r.sl, Bucket(p.k, n, x), Element(id, head));
    forall m | 0 <= m < n
      ensures OpensAt(p, l, r, x, m)
    {
      OpenedIsLive(p, l, r, m, x);
      SplitIsDivided(p, l, r, Bucket(p.k, m, x));
    }
  }

  lemma OmittedIsHidden(p: Params, l: View, r: View, id: string, head: string, n: int)
    requires Truthful(p, l) && Faithful(p, r) && Element(id, head) in l.sl && Element(id, head) !in r.sl
    requires OmittedAt(p, l, r, p.xx(id), n)
    ensures HiddenAt(p, l, r, p.xx(id), n)
  {
    hide Within, Bucket, Working, HasLevel, Truthful, OpensAt;
    OmittedOpens(p, l, r, id, head, n);
  }

  lemma {:induction false} OmittedOpens(p: Params, l: View, r: View, id: string, head: string, n: int)
    requires Truthful(p, l) && Faithful(p, r) && Element(id, head) in l.sl && Element(id, head) !in r.sl
    requires forall m | 0 <= m < n :: OpensAt(p, l, r, p.xx(id), m)
    ensures Opened(p, l, r, n, p.xx(id))
    decreases n
  {
    hide Within, Bucket, Working, HasLevel, Verdicts;
    if n > 0 {
      var x := p.xx(id);
      OmittedOpens(p, l, r, id, head, n - 1);
      assert OpensAt(p, l, r, x, n - 1);
      OpenedIsLive(p, l, r, n - 1, x);
      OpensIsSplit(p, l, r, id, head, n - 1);
    }
  }

  lemma OpensIsSplit(p: Params, l: View, r: View, id: string, head: string, m: int)
    requires Truthful(p, l) && Faithful(p, r) && Element(id, head) in l.sl && Element(id, head) !in r.sl
    requires OpensAt(p, l, r, p.xx(id), m) && Bucket(p.k, m, p.xx(id)) in r.live
    ensures Verdicts(p, l, r, Bucket(p.k, m, p.xx(id))) == Split
  {
    hide Within, Bucket, Working, HasLevel;
    var t := Bucket(p.k, m, p.xx(id));
    LiveIsTrue(p, r, t);
    assert TrueAt(p, l, t);
    WithinMember(p.xx, l.sl, t, Element(id, head));
    WithinMember(p.xx, r.sl, t, Element(id, head));
  }

  // ---- what is hidden from a side that is not truthful -------------------------------------------------

  /** Both sides track the bucket, ours is not empty, the remote counts more than the threshold, and a
      left-over bucket of ours does not carry the remote's hash. */
  ghost predicate PassesAt(p: Params, l: View, r: View, x: u64, m: int) {
    && HasLevel(p.k, m)
    && var t := Bucket(p.k, m, x);
    && t in l.nodes && l.nodes[t].count != 0
    && t in r.nodes && p.threshold < r.nodes[t].count
    && (t in l.live || l.nodes[t].hash != r.nodes[t].hash)
  }

  /** What can hide a bucket: a left-over range of ours with the remote's hash, or one said to be empty
      like the remote's, or a bucket we do not track that has no hash remotely. */
  ghost predicate CoversUp(l: View, r: View, t: Tuple) {
    && t in r.nodes
    && if t in l.nodes then
         t !in l.live && (l.nodes[t].hash == r.nodes[t].hash || (l.nodes[t].count == 0 && r.nodes[t].count == 0))
       else r.nodes[t].hash == None
  }

  ghost predicate CoveredUpAt(p: Params, l: View, r: View, x: u64, n: int) {
    && HasLevel(p.k, n) && CoversUp(l, r, Bucket(p.k, n, x))
    && forall m | 0 <= m < n :: PassesAt(p, l, r, x, m)
  }

  ghost predicate OnOneSide(l: View, r: View, e: Element) {
    (e in l.sl) != (e in r.sl)
  }

  /** Whatever the local side tracks: an id with an element on one side only is hidden iff, below buckets
      the comparison passes, a left-over or untracked bucket covers it up. */
  lemma HiddenIffCoveredUp(p: Params, l: View, r: View, e: Element)
    requires Faithful(p, l) && Faithful(p, r) && OnOneSide(l, r, e)
    ensures Hidden(p, l, r, p.xx(e.id)) <==> exists n :: CoveredUpAt(p, l, r, p.xx(e.id), n)
  {
    hide HiddenAt, CoveredUpAt, Working, OnOneSide;
    var x := p.xx(e.id);
    forall n
      ensures HiddenAt(p, l, r, x, n) <==> CoveredUpAt(p, l, r, x, n)
    {
      HiddenAtIff(p, l, r, e, n);
    }
  }

  lemma HiddenAtIff(p: Params, l: View, r: View, e: Element, n: int)
    requires Faithful(p, l) && Faithful(p, r) && OnOneSide(l, r, e)
    ensures HiddenAt(p, l, r, p.xx(e.id), n) <==> CoveredUpAt(p, l, r, p.xx(e.id), n)
  {
    hide Bucket, Working, HasLevel, Verdicts, Overlooks, CoversUp, PassesAt, OnOneSide;
    var x := p.xx(e.id);
    OpenedIffPasses(p, l, r, e, n);
    if HasLevel(p.k, n) && Opened(p, l, r, n, x) {
      OpenedIsLive(p, l, r, n, x);
      CoversUpIff(p, l, r, e, Bucket(p.k, n, x));
    }
  }

  lemma {:induction false} OpenedIffPasses(p: Params, l: View, r: View, e: Element, n: int)
    requires Faithful(p, l) && Faithful(p, r) && OnOneSide(l, r, e)
    ensures Opened(p, l, r, n, p.xx(e.id)) <==> forall m | 0 <= m < n :: PassesAt(p, l, r, p.xx(e.id), m)
    decreases n
  {
    hide Bucket, Working, HasLevel, Verdicts, PassesAt, OnOneSide;
    if n > 0 {
      var x := p.xx(e.id);
      OpenedIffPasses(p, l, r, e, n - 1);
      if Opened(p, l, r, n - 1, x) {
        PassesHasLevel(p, l, r, x, n - 1);
        if HasLevel(p.k, n - 1) {
          OpenedIsLive(p, l, r, n - 1, x);
          SplitIffPasses(p, l, r, e, n - 1);
        }
      }
    }
  }

  lemma PassesHasLevel(p: Params, l: View, r: View, x: u64, m: int)
    ensures PassesAt(p, l, r, x, m) ==> HasLevel(p.k, m)
  {
  }

  /** A live bucket of ours around an element of one side has another hash than the remote's. */
  lemma LiveDiffers(p: Params, l: View, r: View, e: Element, t: Tuple)
    requires Faithful(p, l) && Faithful(p, r) && OnOneSide(l, r, e) && In(t, p.xx(e.id)) && t in l.live && t in r.live
    ensures t in l.nodes && t in r.nodes && l.nodes[t].hash != r.nodes[t].hash
    ensures l.nodes[t].count != 0 || r.nodes[t].count != 0
  {
    hide Within, Working;
    LiveIsTrue(p, l, t);
    LiveIsTrue(p, r, t);
    WithinMember(p.xx, l.sl, t, e);
    WithinMember(p.xx, r.sl, t, e);
  }

  lemma SplitIffPasses(p: Params, l: View, r: View, e: Element, m: int)
    requires Faithful(p, l) && Faithful(p, r) && OnOneSide(l, r, e)
    requires HasLevel(p.k, m) && Bucket(p.k, m, p.xx(e.id)) in r.live
    ensures Verdicts(p, l, r, Bucket(p.k, m, p.xx(e.id))) == Split <==> PassesAt(p, l, r, p.xx(e.id), m)
  {
    hide Within, Bucket, Working, HasLevel, OnOneSide;
    var t := Bucket(p.k, m, p.xx(e.id));
    LiveIsTrue(p, r, t);
    if t in l.live {
      LiveDiffers(p, l, r, e, t);
    }
  }

  lemma CoversUpIff(p: Params, l: View, r: View, e: Element, t: Tuple)
    requires Faithful(p, l) && Faithful(p, r) && OnOneSide(l, r, e) && In(t, p.xx(e.id)) && t in r.live
    ensures Verdicts(p, l, r, t) == Skip || Overlooks(p, l, r, t) <==> CoversUp(l, r, t)
  {
    hide Within, Working, OnOneSide;
    LiveIsTrue(p, r, t);
    if t in l.live {
      LiveDiffers(p, l, r, e, t);
    }
  }

  // ---- the end result ------------------------------------------------------------------------------------

  /** What Diff and CompareDiff return whatever the local side tracks: each list without repetition, the
      right verdict on every id that is not hidden, and silence on every id that is. */
  ghost predicate UpToHidden(p: Params, mode: Mode, l: View, r: View, out: Outcome) {
    EachOnce(out) && forall id :: Right(mode, l.sl, r.sl, out, id, Hidden(p, l, r, p.xx(id)))
  }

  lemma ProgressIsUpToHidden(p: Params, mode: Mode, l: View, r: View, out: Outcome)
    requires Progress(p, mode, l, r, out, [])
    ensures UpToHidden(p, mode, l, r, out)
  {
    hide Hidden, Right, EachOnce;
    forall id
      ensures Right(mode, l.sl, r.sl, out, id, Hidden(p, l, r, p.xx(id)))
    {
      assert IdProgress(p, mode, l, r, out, [], id);
      assert !Covered(p, [], id);
    }
  }

  /** What they return when the local side is truthful: each list without repetition; remote-only ids are new; ids
      with different heads are changed, theirs or ours by the mode; local-only ids are removed,
      except the omitted ones. */
  ghost predicate Exactly(p: Params, mode: Mode, l: View, r: View, out: Outcome) {
    && EachOnce(out)
    && forall id :: IdExactly(p, mode, l, r, out, id)
  }

  ghost predicate IdExactly(p: Params, mode: Mode, l: View, r: View, out: Outcome, id: string) {
    && (id in out.newIds <==> Has(r.sl, id) && !Has(l.sl, id))
    && (id in out.changedIds <==> Differs(mode, l.sl, r.sl, id, Changed))
    && (id in out.theirChangedIds <==> Differs(mode, l.sl, r.sl, id, TheirChanged))
    && (id in out.removedIds <==> Has(l.sl, id) && !Has(r.sl, id) && !Omitted(p, l, r, p.xx(id)))
  }

  lemma UniqueHead(xx: Hasher, sl: seq<Element>, id: string, h: string, g: string)
    requires Ordered(xx, sl) && Element(id, h) in sl && Element(id, g) in sl
    ensures h == g
  {
    OrderedIsDistinct(xx, sl);
    var i :| 0 <= i < |sl| && sl[i] == Element(id, h);
    var j :| 0 <= j < |sl| && sl[j] == Element(id, g);
  }

  lemma ProgressIsExact(p: Params, mode: Mode, l: View, r: View, out: Outcome)
    requires Ordered(p.xx, l.sl) && Truthful(p, l) && Faithful(p, r) && Progress(p, mode, l, r, out, [])
    ensures Exactly(p, mode, l, r, out)
  {
    hide Working, Truthful, Hidden, Omitted, EachOnce, Ordered, Precedes;
    forall id
      ensures IdExactly(p, mode, l, r, out, id)
    {
      assert IdProgress(p, mode, l, r, out, [], id);
      assert !Covered(p, [], id);
      if Has(r.sl, id) && !Has(l.sl, id) {
        var head :| Element(id, head) in r.sl;
        RemoteNeverHidden(p, l, r, id, head);
      }
      if h, g :| Element(id, h) in l.sl && Element(id, g) in r.sl && h != g {
        DifferenceNotHidden(p, l, r, id, h, g);
      }
      if Has(l.sl, id) && !Has(r.sl, id) {
        var head :| Element(id, head) in l.sl;
        HiddenRemovalIffOmitted(p, l, r, id, head);
      }
    }
  }

  lemma DifferenceNotHidden(p: Params, l: View, r: View, id: string, h: string, g: string)
    requires Ordered(p.xx, l.sl) && Truthful(p, l) && Faithful(p, r)
    requires Element(id, h) in l.sl && Element(id, g) in r.sl && h != g
    ensures !Hidden(p, l, r, p.xx(id))
  {
    hide Working, Truthful, Hidden, Ordered;
    if Element(id, g) in l.sl {
      UniqueHead(p.xx, l.sl, id, h, g);
    }
    RemoteNeverHidden(p, l, r, id, g);
  }

  /** Before the first round everything is pending under the top range. */
  lemma FirstRound(p: Params, mode: Mode, l: View, r: View)
    requires Faithful(p, r)
    ensures Progress(p, mode, l, r, Outcome([], [], [], []), [Range(Top, false)])
    ensures OkQuery(p, l, r, 0, Range(Top, false))
  {
    hide Working, Hidden, Right;
    WorkingShape(p, r.sl, r.nodes, r.live, {});
    TopIsBucket(p.k, 0);
    var pending := [Range(Top, false)];
    forall id
      ensures IdProgress(p, mode, l, r, Outcome([], [], [], []), pending, id)
    {
      assert Range(Top, false) in pending && In(Top, p.xx(id));
    }
  }

  ghost predicate AllOk(p: Params, l: View, r: View, round: int, qs: seq<Range>) {
    forall q | q in qs :: OkQuery(p, l, r, round, q)
  }

  lemma AllOkAppend(p: Params, l: View, r: View, round: int, a: seq<Range>, b: seq<Range>)
    requires AllOk(p, l, r, round, a) && AllOk(p, l, r, round, b)
    ensures AllOk(p, l, r, round, a + b)
  {
    hide OkQuery;
  }

  /** A pending query bounds the round number. */
  lemma RoundBound(p: Params, l: View, r: View, round: int, q: Range)
    requires OkQuery(p, l, r, round, q)
    ensures 1 <= p.k && round <= 64 / p.k + 1
  {
    hide Opened, Verdicts, IsBucket, Pow2;
    OkQueryBucket(p, l, r, round, q);
    LevelBound(p.k, LevelOf(round, q));
  }

  lemma AnswersDistinct(p: Params, v: View, q: Range)
    requires Ordered(p.xx, v.sl)
    ensures DistinctIds(Answer(p, v.sl, v.nodes, q).elements)
  {
    WithinDistinct(p.xx, v.sl, q.t);
  }

  /** What one call of compareResults does to the lists and to the next round's queries. */
  ghost predicate Stepped(p: Params, mode: Mode, sl: seq<Element>, q: Range, my: RangeResult, other: RangeResult,
                          out: Outcome, prepare: seq<Range>, out': Outcome, prepare': seq<Range>)
    requires p.Ok()
  {
    match Decide(p.threshold, my, other)
    case Skip => out' == out && prepare' == prepare
    case Compare =>
      && prepare' == prepare
      && out' == Compared(mode, if |my.elements| == my.count then my.elements else Within(p.xx, sl, q.t), other.elements, out)
    case Fetch => out' == out && prepare' == prepare + [Range(q.t, true)]
    case Split => out' == out && prepare' == prepare + Queries(Children(q.t, p.Df()))
  }

  /** The elements a comparison works on are those of the range, on both sides, unless it overlooks them. */
  lemma ComparedLists(p: Params, l: View, r: View, round: int, q: Range)
    requires Faithful(p, r) && OkQuery(p, l, r, round, q)
    requires var v := Decide(p.threshold, Answer(p, l.sl, l.nodes, q), Answer(p, r.sl, r.nodes, q)); v == Compare
    ensures var my, other := Answer(p, l.sl, l.nodes, q), Answer(p, r.sl, r.nodes, q);
            && other.elements == Within(p.xx, r.sl, q.t)
            && (if Overlooks(p, l, r, q.t) then !q.elements && my.elements == [] && my.count == 0 && other.elements == []
                else |my.elements| == my.count ==> my.elements == Within(p.xx, l.sl, q.t))
  {
    hide Working, Within, Opened, IsBucket;
    OkQueryBucket(p, l, r, round, q);
    LiveIsTrue(p, r, q.t);
    FullAnswer(p, r, q);
  }

  lemma NothingCompared(mode: Mode, out: Outcome)
    ensures Compared(mode, [], [], out) == out
  {
  }

  /** One call of compareResults keeps the progress of the round. */
  lemma OneStep(p: Params, mode: Mode, l: View, r: View, out: Outcome, round: int, q: Range, rest: seq<Range>,
                prepare: seq<Range>, out': Outcome, prepare': seq<Range>)
    returns (added: seq<Range>)
    requires p.Ok() && Ordered(p.xx, l.sl) && Ordered(p.xx, r.sl) && Faithful(p, r)
    requires OkQuery(p, l, r, round, q) && Progress(p, mode, l, r, out, [q] + rest)
    requires Stepped(p, mode, l.sl, q, Answer(p, l.sl, l.nodes, q), Answer(p, r.sl, r.nodes, q), out, prepare, out', prepare')
    ensures prepare' == prepare + added && Progress(p, mode, l, r, out', rest + added)
  {
    hide Working, Progress, Within, Compared, Pow2, Ordered, Opened, Answer, Decide, Verdicts, Overlooks, Child, IsBucket;
    ActualVerdict(p, l, r, round, q);
    added := [];
    match Decide(p.threshold, Answer(p, l.sl, l.nodes, q), Answer(p, r.sl, r.nodes, q)) {
      case Skip =>
        SkipStep(p, mode, l, r, out, round, q, rest);
        assert rest + added == rest;
      case Compare =>
        ComparedLists(p, l, r, round, q);
        if Overlooks(p, l, r, q.t) {
          NothingCompared(mode, out);
          SkipStep(p, mode, l, r, out, round, q, rest);
        } else {
          CompareStep(p, mode, l, r, out, round, q, rest);
        }
        assert rest + added == rest;
      case Fetch =>
        added := [Range(q.t, true)];
        FetchStep(p, mode, l, r, out, round, q, rest);
      case Split =>
        added := Queries(Children(q.t, p.Df()));
        SplitStep(p, mode, l, r, out, round, q, rest);
    }
  }

  lemma AllOkMeans(p: Params, l: View, r: View, round: int, qs: seq<Range>)
    requires forall q | q in qs :: OkQuery(p, l, r, round, q)
    ensures AllOk(p, l, r, round, qs)
  {
  }

  lemma SingleOk(p: Params, l: View, r: View, round: int, q: Range)
    requires OkQuery(p, l, r, round, q)
    ensures AllOk(p, l, r, round, [q])
  {
  }

  /** Queries stay allowed whatever the local side tracks. */
  lemma NextQueries(p: Params, mode: Mode, l: View, r: View, out: Outcome, round: int, q: Range,
                    prepare: seq<Range>, out': Outcome, prepare': seq<Range>)
    requires p.Ok() && Faithful(p, r) && OkQuery(p, l, r, round, q) && AllOk(p, l, r, round + 1, prepare)
    requires Stepped(p, mode, l.sl, q, Answer(p, l.sl, l.nodes, q), Answer(p, r.sl, r.nodes, q), out, prepare, out', prepare')
    ensures AllOk(p, l, r, round + 1, prepare')
  {
    hide Working, Within, Compared, Pow2, Opened, AllOk, Answer, Decide, Verdicts, Child, IsBucket;
    ActualVerdict(p, l, r, round, q);
    match Decide(p.threshold, Answer(p, l.sl, l.nodes, q), Answer(p, r.sl, r.nodes, q)) {
      case Skip =>
      case Compare =>
      case Fetch =>
        FetchQuery(p, l, r, round, q);
        SingleOk(p, l, r, round + 1, Range(q.t, true));
        AllOkAppend(p, l, r, round + 1, prepare, [Range(q.t, true)]);
      case Split =>
        SplitQueries(p, l, r, round, q);
        AllOkMeans(p, l, r, round + 1, Queries(Children(q.t, p.Df())));
        AllOkAppend(p, l, r, round + 1, prepare, Queries(Children(q.t, p.Df())));
    }
  }

  // ---- no query is left out --------------------------------------------------------------------------------

  /** Query a of one round follows up on query q of the round before. */
  ghost predicate Follows(p: Params, round: int, q: Range, a: Range) {
    && !q.elements
    && if a.elements then a.t == q.t else HasLevel(p.k, round) && q.t == Bucket(p.k, round, a.t.from)
  }

  /** Every allowed query of the round is among those sent. */
  ghost predicate AllSent(p: Params, l: View, r: View, round: int, qs: seq<Range>) {
    forall q | OkQuery(p, l, r, round, q) :: q in qs
  }

  /** Some query is left for the round. */
  ghost predicate Unfinished(p: Params, l: View, r: View, round: int) {
    exists q :: OkQuery(p, l, r, round, q)
  }

  /** Every allowed follow-up on one of the queries answered so far is among those prepared. */
  ghost predicate FollowedUp(p: Params, l: View, r: View, round: int, answered: seq<Range>, prepare: seq<Range>) {
    forall q, a | q in answered && Follows(p, round, q, a) && OkQuery(p, l, r, round + 1, a) :: a in prepare
  }

  lemma FollowsSome(p: Params, l: View, r: View, round: int, a: Range) returns (q: Range)
    requires Faithful(p, r) && 0 <= round && OkQuery(p, l, r, round + 1, a)
    ensures OkQuery(p, l, r, round, q) && Follows(p, round, q, a)
  {
    hide Working, Verdicts, IsBucket, Bucket, LevelWidth, Pow2;
    OkQueryBucket(p, l, r, round + 1, a);
    if a.elements {
      q := Range(a.t, false);
    } else {
      LevelDivides(p.k, round, round + 1);
      var x := a.t.from;
      var t := Bucket(p.k, round, x);
      q := Range(t, false);
      OpenedIsLive(p, l, r, round, x);
      BucketProper(p.k, round, t);
      forall m | 0 <= m < round
        ensures HasLevel(p.k, m) && Verdicts(p, l, r, Bucket(p.k, m, t.from)) == Split
      {
        BucketShared(p.k, m, round, x, t.from);
      }
    }
  }

  lemma FollowUpAdded(p: Params, mode: Mode, l: View, r: View, round: int, q: Range, a: Range, out: Outcome,
                      prepare: seq<Range>, out': Outcome, prepare': seq<Range>)
    requires p.Ok() && Faithful(p, r) && 0 <= round && OkQuery(p, l, r, round, q) && OkQuery(p, l, r, round + 1, a) && Follows(p, round, q, a)
    requires Stepped(p, mode, l.sl, q, Answer(p, l.sl, l.nodes, q), Answer(p, r.sl, r.nodes, q), out, prepare, out', prepare')
    ensures a in prepare'
  {
    hide Working, Within, Compared, Answer, Decide, Verdicts, IsBucket, Bucket, LevelWidth, Pow2, Child, BottomTuple, Width;
    ActualVerdict(p, l, r, round, q);
    OkQueryBucket(p, l, r, round, q);
    OkQueryBucket(p, l, r, round + 1, a);
    if !a.elements {
      assert Verdicts(p, l, r, q.t) == Split;
      SplitIsDivided(p, l, r, q.t);
      SplitChildren(p, r, round, q.t);
      var j := BottomIsBucket(p.k, round, q.t, a.t.from);
      BucketUnique(p.k, round + 1, a.t, a.t.from);
      var children := Children(q.t, p.Df());
      assert Queries(children)[j] == a;
    }
  }

  lemma FollowUpNext(p: Params, mode: Mode, l: View, r: View, round: int, toSend: seq<Range>, i: nat, out: Outcome,
                     prepare: seq<Range>, out': Outcome, prepare': seq<Range>)
    requires p.Ok() && Faithful(p, r) && 0 <= round && i < |toSend| && OkQuery(p, l, r, round, toSend[i])
    requires FollowedUp(p, l, r, round, toSend[..i], prepare)
    requires Stepped(p, mode, l.sl, toSend[i], Answer(p, l.sl, l.nodes, toSend[i]), Answer(p, r.sl, r.nodes, toSend[i]), out, prepare, out', prepare')
    ensures FollowedUp(p, l, r, round, toSend[..i + 1], prepare')
  {
    hide Working, Within, Compared, Answer, Decide, OkQuery, Follows;
    assert toSend[..i + 1] == toSend[..i] + [toSend[i]];
    forall q, a | q in toSend[..i + 1] && Follows(p, round, q, a) && OkQuery(p, l, r, round + 1, a)
      ensures a in prepare'
    {
      if q !in toSend[..i] {
        FollowUpAdded(p, mode, l, r, round, q, a, out, prepare, out', prepare');
      }
    }
  }

  lemma RoundSent(p: Params, l: View, r: View, round: int, toSend: seq<Range>, prepare: seq<Range>)
    requires Faithful(p, r) && 0 <= round && AllSent(p, l, r, round, toSend) && FollowedUp(p, l, r, round, toSend, prepare)
    ensures AllSent(p, l, r, round + 1, prepare)
  {
    hide Working, OkQuery, Follows;
    forall a | OkQuery(p, l, r, round + 1, a)
      ensures a in prepare
    {
      var q := FollowsSome(p, l, r, round, a);
    }
  }

  lemma TopSent(p: Params, l: View, r: View)
    ensures AllSent(p, l, r, 0, [Range(Top, false)])
  {
    hide Verdicts, Pow2;
    forall q | OkQuery(p, l, r, 0, q)
      ensures q == Range(Top, false)
    {
      OkQueryBucket(p, l, r, 0, q);
      TopIsBucket(p.k, q.t.from);
      BucketUnique(p.k, 0, q.t, q.t.from);
    }
  }

  /** Once a round has nothing to ask, no later round has. */
  lemma {:induction false} NoneLater(p: Params, l: View, r: View, round: nat, later: nat)
    requires Faithful(p, r) && round <= later && AllSent(p, l, r, round, [])
    ensures AllSent(p, l, r, later, [])
    decreases later - round
  {
    hide Working, OkQuery, Follows;
    if round < later {
      RoundSent(p, l, r, round, [], []);
      NoneLater(p, l, r, round + 1, later);
    }
  }

  /** Equal top hashes: both containers hold the same elements, so there is nothing to report. */
  lemma EqualTopsAreExact(p: Params, l: View, r: View)
    requires Faithful(p, l) && Faithful(p, r) && Top in l.nodes && Top in r.nodes && l.nodes[Top].hash == r.nodes[Top].hash
    ensures l.sl == r.sl
    ensures Exactly(p, Equal, l, r, Outcome([], [], [], [])) && UpToHidden(p, Equal, l, r, Outcome([], [], [], []))
  {
    hide Within, Omitted, Ordered, Precedes, Hidden;
    EqualHashEqualElements(p, l.sl, l.nodes, l.live, r.sl, r.nodes, r.live, Top);
    WithinAll(p.xx, l.sl, Top);
    WithinAll(p.xx, r.sl, Top);
    forall id
      ensures IdExactly(p, Equal, l, r, Outcome([], [], [], []), id)
      ensures Right(Equal, l.sl, r.sl, Outcome([], [], [], []), id, Hidden(p, l, r, p.xx(id)))
    {
      forall kind
        ensures !Differs(Equal, l.sl, r.sl, id, kind)
      {
        if h, g :| Element(id, h) in l.sl && Element(id, g) in r.sl && h != g {
          UniqueHead(p.xx, l.sl, id, h, g);
        }
      }
    }
  }
}
