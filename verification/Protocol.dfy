/** Diff and CompareDiff between two containers, on values: what a range query answers, how
    compareResults decides, and what is settled after each decision. */
module Protocol {
  import opened Options
  import opened Sequences
  import opened Geometry
  import opened Elements
  import opened Tree
  import opened Updates
  import opened Batches

  /** One container as a query sees it, with the reachable ranges. */
  datatype View = View(sl: seq<Element>, nodes: Nodes, live: set<Tuple>)

  datatype Range = Range(t: Tuple, elements: bool)

  datatype RangeResult = RangeResult(hash: Option<Digest>, elements: seq<Element>, count: int)

  /** diff.getRange: a tracked range answers hash and count; an untracked one, or one asked for
      its elements, answers the elements. */
  function Answer(p: Params, sl: seq<Element>, nodes: Nodes, r: Range): RangeResult {
    var tracked := r.t in nodes;
    var hash := if tracked then nodes[r.t].hash else None;
    if tracked && !r.elements then RangeResult(hash, [], nodes[r.t].count)
    else RangeResult(hash, Within(p.xx, sl, r.t), |Within(p.xx, sl, r.t)|)
  }

  datatype Verdict = Skip | Compare | Fetch | Split

  /** The branches of compareResults. */
  function Decide(threshold: nat, my: RangeResult, other: RangeResult): Verdict {
    if my.hash == other.hash then Skip
    else if |other.elements| == other.count then Compare
    else if (other.count <= threshold && |other.elements| == 0) || |my.elements| == my.count then Fetch
    else Split
  }

  /** The decision on a first query for `t`. */
  ghost function Verdicts(p: Params, l: View, r: View, t: Tuple): Verdict {
    Decide(p.threshold, Answer(p, l.sl, l.nodes, Range(t, false)), Answer(p, r.sl, r.nodes, Range(t, false)))
  }

  // ---- what the two sides must satisfy ------------------------------------------------------------

  /** Every tracked range answers for what is really in it. */
  ghost predicate Truthful(p: Params, v: View) {
    forall t | t in v.nodes && t.from <= t.to :: TrueAt(p, v, t)
  }

  ghost predicate TrueAt(p: Params, v: View, t: Tuple)
    requires t in v.nodes
  {
    FlattenHash(v.nodes[t].hash) == Within(p.xx, v.sl, t) && |Within(p.xx, v.sl, t)| <= v.nodes[t].count
  }

  ghost predicate Faithful(p: Params, v: View) {
    Working(p, v.sl, v.nodes, v.live, {})
  }

  lemma LiveIsTrue(p: Params, v: View, t: Tuple)
    requires Faithful(p, v) && t in v.live
    ensures t in v.nodes && t.from <= t.to && TrueAt(p, v, t)
    ensures p.threshold < v.nodes[t].count ==> v.nodes[t].divided
  {
    hide Placed, Within;
    HashIsContent(p, v.sl, v.nodes, v.live, t);
    LiveIsProper(p, v.nodes, v.live, t);
  }

  /** A container that tracks only reachable ranges is truthful. */
  lemma TightIsTruthful(p: Params, v: View)
    requires Faithful(p, v) && v.nodes.Keys == v.live
    ensures Truthful(p, v)
  {
    hide Working, TrueAt;
    forall t | t in v.nodes && t.from <= t.to
      ensures TrueAt(p, v, t)
    {
      LiveIsTrue(p, v, t);
    }
  }

  // ---- comparing two element lists ----------------------------------------------------------------

  /** compareElementsEqual or compareElementsGreater. */
  datatype Mode = Equal | Greater

  datatype Outcome = Outcome(newIds: seq<string>, changedIds: seq<string>, theirChangedIds: seq<string>, removedIds: seq<string>)

  datatype Kind = Same | Changed | TheirChanged | Removed

  function Classify(mode: Mode, e: Element, other: map<string, string>): Kind {
    if e.id !in other then Removed
    else if other[e.id] == e.head then Same
    else if mode == Greater && StringLess(e.head, other[e.id]) then TheirChanged
    else Changed
  }

  function ToMap(es: seq<Element>): map<string, string> {
    if es == [] then map[]
    else ToMap(es[..|es| - 1])[es[|es| - 1].id := es[|es| - 1].head]
  }

  function Select(mode: Mode, my: seq<Element>, other: map<string, string>, kind: Kind): seq<string> {
    if my == [] then []
    else
      Select(mode, my[..|my| - 1], other, kind) +
      (if Classify(mode, my[|my| - 1], other) == kind then [my[|my| - 1].id] else [])
  }

  function Missing(es: seq<Element>, other: map<string, string>): seq<string> {
    if es == [] then []
    else Missing(es[..|es| - 1], other) + (if es[|es| - 1].id in other then [] else [es[|es| - 1].id])
  }

  function Compared(mode: Mode, my: seq<Element>, other: seq<Element>, out: Outcome): Outcome {
    Outcome(out.newIds + Missing(other, ToMap(my)),
            out.changedIds + Select(mode, my, ToMap(other), Changed),
            out.theirChangedIds + Select(mode, my, ToMap(other), TheirChanged),
            out.removedIds + Select(mode, my, ToMap(other), Removed))
  }

  lemma {:induction false} ToMapMeans(es: seq<Element>)
    requires DistinctIds(es)
    ensures forall id, head :: Element(id, head) in es <==> id in ToMap(es) && ToMap(es)[id] == head
  {
    if es != [] {
      var n := |es| - 1;
      ToMapMeans(es[..n]);
      assert es == es[..n] + [es[n]];
      forall e | e in es[..n]
        ensures e.id != es[n].id
      {
      }
    }
  }

  ghost predicate Picked(mode: Mode, my: seq<Element>, other: map<string, string>, kind: Kind, id: string) {
    exists e :: e in my && e.id == id && Classify(mode, e, other) == kind
  }

  lemma PickedSnoc(mode: Mode, my: seq<Element>, last: Element, other: map<string, string>, kind: Kind, id: string)
    ensures Picked(mode, my + [last], other, kind, id) <==>
            Picked(mode, my, other, kind, id) || (last.id == id && Classify(mode, last, other) == kind)
  {
    if e :| e in my + [last] && e.id == id && Classify(mode, e, other) == kind {
      assert e in my || e == last;
    }
    if e :| e in my && e.id == id && Classify(mode, e, other) == kind {
      assert e in my + [last];
    }
    assert last in my + [last];
  }

  lemma {:induction false} SelectMeans(mode: Mode, my: seq<Element>, other: map<string, string>, kind: Kind)
    requires DistinctIds(my)
    ensures forall id :: id in Select(mode, my, other, kind) <==> Picked(mode, my, other, kind, id)
    ensures Distinct(Select(mode, my, other, kind))
  {
    if my != [] {
      var n := |my| - 1;
      var last := my[n];
      hide Classify;
      SelectMeans(mode, my[..n], other, kind);
      assert my == my[..n] + [last];
      forall id
        ensures id in Select(mode, my, other, kind) <==> Picked(mode, my, other, kind, id)
      {
        PickedSnoc(mode, my[..n], last, other, kind, id);
      }
      assert !Picked(mode, my[..n], other, kind, last.id);
      if Classify(mode, last, other) == kind {
        DistinctAppend(Select(mode, my[..n], other, kind), [last.id]);
      }
    }
  }

  lemma {:induction false} MissingMeans(es: seq<Element>, other: map<string, string>)
    requires DistinctIds(es)
    ensures forall id :: id in Missing(es, other) <==> (exists e :: e in es && e.id == id) && id !in other
    ensures Distinct(Missing(es, other))
  {
    if es != [] {
      var n := |es| - 1;
      MissingMeans(es[..n], other);
      assert es == es[..n] + [es[n]];
      forall e | e in es[..n]
        ensures e.id != es[n].id
      {
      }
    }
  }

  // ---- what the result should be ------------------------------------------------------------------

  ghost predicate Has(sl: seq<Element>, id: string) {
    exists head :: Element(id, head) in sl
  }

  /** Both hold the id, with different heads, and the difference is of the given kind. */
  ghost predicate Differs(mode: Mode, mine: seq<Element>, theirs: seq<Element>, id: string, kind: Kind) {
    exists h, g :: Element(id, h) in mine && Element(id, g) in theirs && h != g &&
                   kind == (if mode == Greater && Precedes(h, g) then TheirChanged else Changed)
  }

  /** The lists say about `id` exactly what they should, given whether its difference is hidden. */
  ghost predicate Right(mode: Mode, mine: seq<Element>, theirs: seq<Element>, out: Outcome, id: string, hidden: bool) {
    && (id in out.newIds <==> !hidden && Has(theirs, id) && !Has(mine, id))
    && (id in out.removedIds <==> !hidden && Has(mine, id) && !Has(theirs, id))
    && (id in out.changedIds <==> !hidden && Differs(mode, mine, theirs, id, Changed))
    && (id in out.theirChangedIds <==> !hidden && Differs(mode, mine, theirs, id, TheirChanged))
  }

  ghost predicate Absent(out: Outcome, id: string) {
    id !in out.newIds && id !in out.changedIds && id !in out.theirChangedIds && id !in out.removedIds
  }

  ghost predicate EachOnce(out: Outcome) {
    Distinct(out.newIds) && Distinct(out.changedIds) && Distinct(out.theirChangedIds) && Distinct(out.removedIds)
  }

  /** On one bucket of ids: `Compared` adds what it should about the ids of the two lists. */
  lemma ComparedRight(mode: Mode, my: seq<Element>, other: seq<Element>, out: Outcome, id: string)
    requires DistinctIds(my) && DistinctIds(other) && Absent(out, id)
    ensures Right(mode, my, other, Compared(mode, my, other, out), id, false)
  {
    hide Select, Missing, ToMap;
    ToMapMeans(my);
    ToMapMeans(other);
    MissingMeans(other, ToMap(my));
    SelectMeans(mode, my, ToMap(other), Changed);
    SelectMeans(mode, my, ToMap(other), TheirChanged);
    SelectMeans(mode, my, ToMap(other), Removed);
    HasMeans(my, id);
    HasMeans(other, id);
    DiffersMeans(mode, my, other, id, Changed);
    DiffersMeans(mode, my, other, id, TheirChanged);
    RemovedMeans(mode, my, other, id);
  }

  lemma HasMeans(es: seq<Element>, id: string)
    requires DistinctIds(es)
    ensures Has(es, id) <==> exists e :: e in es && e.id == id
    ensures Has(es, id) <==> id in ToMap(es)
  {
    ToMapMeans(es);
    if e :| e in es && e.id == id {
      assert Element(id, e.head) in es;
    }
    if id in ToMap(es) {
      assert Element(id, ToMap(es)[id]) in es;
    }
  }

  lemma DiffersMeans(mode: Mode, my: seq<Element>, other: seq<Element>, id: string, kind: Kind)
    requires DistinctIds(my) && DistinctIds(other) && (kind == Changed || kind == TheirChanged)
    ensures Differs(mode, my, other, id, kind) <==>
            Picked(mode, my, ToMap(other), kind, id)
  {
    hide ToMap, StringLess, Precedes;
    ToMapMeans(other);
    if h, g :| Element(id, h) in my && Element(id, g) in other && h != g &&
               kind == (if mode == Greater && Precedes(h, g) then TheirChanged else Changed) {
      StringLessIff(h, g);
      assert Classify(mode, Element(id, h), ToMap(other)) == kind;
    }
    if e :| e in my && e.id == id && Classify(mode, e, ToMap(other)) == kind {
      StringLessIff(e.head, ToMap(other)[id]);
      assert Element(id, e.head) in my && Element(id, ToMap(other)[id]) in other;
    }
  }

  lemma RemovedMeans(mode: Mode, my: seq<Element>, other: seq<Element>, id: string)
    requires DistinctIds(my) && DistinctIds(other)
    ensures Has(my, id) && !Has(other, id) <==>
            Picked(mode, my, ToMap(other), Removed, id)
  {
    HasMeans(other, id);
    if Has(my, id) && !Has(other, id) {
      var h :| Element(id, h) in my;
      assert Classify(mode, Element(id, h), ToMap(other)) == Removed;
    }
    if e :| e in my && e.id == id && Classify(mode, e, ToMap(other)) == Removed {
      assert Element(id, e.head) in my;
    }
  }

  lemma ComparedDistinct(mode: Mode, my: seq<Element>, other: seq<Element>, out: Outcome)
    requires DistinctIds(my) && DistinctIds(other) && EachOnce(out)
    requires forall e | e in my || e in other :: Absent(out, e.id)
    ensures EachOnce(Compared(mode, my, other, out))
  {
    hide Select, Missing, ToMap;
    MissingMeans(other, ToMap(my));
    SelectMeans(mode, my, ToMap(other), Changed);
    SelectMeans(mode, my, ToMap(other), TheirChanged);
    SelectMeans(mode, my, ToMap(other), Removed);
    DistinctAppend(out.newIds, Missing(other, ToMap(my)));
    DistinctAppend(out.changedIds, Select(mode, my, ToMap(other), Changed));
    DistinctAppend(out.theirChangedIds, Select(mode, my, ToMap(other), TheirChanged));
    DistinctAppend(out.removedIds, Select(mode, my, ToMap(other), Removed));
  }

  /** An id outside the lists is not mentioned. */
  lemma ComparedElsewhere(mode: Mode, my: seq<Element>, other: seq<Element>, out: Outcome, id: string)
    requires DistinctIds(my) && DistinctIds(other)
    requires forall e | e in my || e in other :: e.id != id
    ensures var out' := Compared(mode, my, other, out);
            && (id in out'.newIds <==> id in out.newIds) && (id in out'.changedIds <==> id in out.changedIds)
            && (id in out'.theirChangedIds <==> id in out.theirChangedIds)
            && (id in out'.removedIds <==> id in out.removedIds)
  {
    hide Select, Missing, ToMap;
    MissingMeans(other, ToMap(my));
    SelectMeans(mode, my, ToMap(other), Changed);
    SelectMeans(mode, my, ToMap(other), TheirChanged);
    SelectMeans(mode, my, ToMap(other), Removed);
  }
}
